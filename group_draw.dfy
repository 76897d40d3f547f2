/** The group draw, src/core/group_draw.py: the field is cut into four pots by
    strength rank, each pot is shuffled, and the i-th team of every shuffled pot
    goes to group i.  The shuffles are inputs (Common.IsSwapDraw). */
module GroupDraw {
  import opened Common
  import opened Sorting

  /** A row of the strength table: the columns the draw reads. */
  datatype TeamRow = TeamRow(team: Team, strength: real)

  /** The order of the pots' strength sort: a stronger team goes first. */
  predicate Stronger(a: TeamRow, b: TeamRow)
  {
    a.strength > b.strength
  }

  lemma StrongerIsStrictWeakOrder()
    ensures StrictWeakOrder(Stronger)
  {
  }

  function Name(r: TeamRow): Team
  {
    r.team
  }

  /** The field, strongest first: a reordering of its rows in which no row is
      stronger than one before it.  Rows of equal strength keep their input
      order here. */
  function ByStrength(field: seq<TeamRow>): (sorted: seq<TeamRow>)
    ensures multiset(sorted) == multiset(field) && Sorted(sorted, Stronger)
  {
    StrongerIsStrictWeakOrder();
    SortSorted(field, Stronger);
    SortPermutes(field, Stronger);
    Sort(field, Stronger)
  }

  function Min(a: nat, b: nat): nat
  {
    if a <= b then a else b
  }

  /** Positional rows lo .. hi - 1 of a table, for lo <= hi: both bounds are
      clamped to the length, as a positional slice of a frame is. */
  function Slice<T>(s: seq<T>, lo: nat, hi: nat): seq<T>
    requires lo <= hi
  {
    s[Min(lo, |s|)..Min(hi, |s|)]
  }

  /** The four pots cut from an ordering of the field: pot k is rows
      [k * potSize, (k + 1) * potSize) of it, so at most potSize teams each. */
  function CutPots(sorted: seq<TeamRow>, potSize: nat): (pots: seq<seq<TeamRow>>)
    ensures |pots| == 4 && forall k :: 0 <= k < 4 ==> |pots[k]| <= potSize
  {
    seq(4, k requires 0 <= k < 4 => Slice(sorted, k * potSize, (k + 1) * potSize))
  }

  /** `make_pots`: the pots cut from the strength-descending order. */
  function MakePots(field: seq<TeamRow>, potSize: nat): (pots: seq<seq<TeamRow>>)
    ensures |pots| == 4 && forall k :: 0 <= k < 4 ==> |pots[k]| <= potSize
  {
    CutPots(ByStrength(field), potSize)
  }

  /** Two runs of a strength-sorted sequence, the first ending before the
      second starts: nothing in the second is stronger than anything in the
      first. */
  lemma RunsOrdered(s: seq<TeamRow>, l1: nat, h1: nat, l2: nat, h2: nat)
    requires Sorted(s, Stronger) && l1 <= h1 <= l2 <= h2 <= |s|
    ensures forall x, y :: x in s[l1..h1] && y in s[l2..h2] ==> x.strength >= y.strength
  {
    forall x, y | x in s[l1..h1] && y in s[l2..h2] ensures x.strength >= y.strength {
      var i :| l1 <= i < h1 && s[i] == x;
      var j :| l2 <= j < h2 && s[j] == y;
      assert !Stronger(s[j], s[i]);
    }
  }

  /** Whatever order the sort gives tied strengths, every team of an earlier
      pot is at least as strong as every team of a later one. */
  lemma AnyTieOrderPotsByStrength(sorted: seq<TeamRow>, potSize: nat, k: nat, l: nat)
    requires Sorted(sorted, Stronger) && k < l < 4
    ensures var pots := CutPots(sorted, potSize);
      forall x, y :: x in pots[k] && y in pots[l] ==> x.strength >= y.strength
  {
    var n := |sorted|;
    assert (k + 1) * potSize <= l * potSize;
    RunsOrdered(sorted, Min(k * potSize, n), Min((k + 1) * potSize, n),
                Min(l * potSize, n), Min((l + 1) * potSize, n));
  }

  /** Every team of an earlier pot is at least as strong as every team of a
      later one. */
  lemma PotsByStrength(field: seq<TeamRow>, potSize: nat, k: nat, l: nat)
    requires k < l < 4
    ensures var pots := MakePots(field, potSize);
      forall x, y :: x in pots[k] && y in pots[l] ==> x.strength >= y.strength
  {
    AnyTieOrderPotsByStrength(ByStrength(field), potSize, k, l);
  }

  /** Any ordering of 48 rows cuts into four pots of 12 that, laid end to
      end, give the ordering back. */
  lemma CutPartitions(sorted: seq<TeamRow>)
    requires |sorted| == 48
    ensures var pots := CutPots(sorted, 12);
      && (forall k :: 0 <= k < 4 ==> |pots[k]| == 12)
      && sorted == pots[0] + pots[1] + pots[2] + pots[3]
  {
    var pots := CutPots(sorted, 12);
    assert Min(0, 48) == 0 && Min(12, 48) == 12 && Min(24, 48) == 24 && Min(36, 48) == 36 && Min(48, 48) == 48;
    assert pots[0] == sorted[0..12] && pots[1] == sorted[12..24];
    assert pots[2] == sorted[24..36] && pots[3] == sorted[36..48];
    assert sorted == sorted[0..12] + sorted[12..24] + sorted[24..36] + sorted[36..48];
  }

  /** Whatever order the sort gives tied strengths, the pots of a 48-team
      field hold 12 teams each and together hold every row exactly as often
      as the field does. */
  lemma AnyTieOrderPartitionsField(field: seq<TeamRow>, sorted: seq<TeamRow>)
    requires |field| == 48 && multiset(sorted) == multiset(field)
    ensures var pots := CutPots(sorted, 12);
      && (forall k :: 0 <= k < 4 ==> |pots[k]| == 12)
      && sorted == pots[0] + pots[1] + pots[2] + pots[3]
      && multiset(pots[0] + pots[1] + pots[2] + pots[3]) == multiset(field)
  {
    assert |sorted| == 48 by {
      assert |multiset(sorted)| == |multiset(field)|;
    }
    CutPartitions(sorted);
  }

  /** With 48 teams and pots of 12 the pots partition the field: each holds
      12 teams, laid end to end they are the strength order, and together
      they hold every row exactly as often as the field does. */
  lemma PotsPartitionField(field: seq<TeamRow>)
    requires |field| == 48
    ensures var pots := MakePots(field, 12);
      && (forall k :: 0 <= k < 4 ==> |pots[k]| == 12)
      && ByStrength(field) == pots[0] + pots[1] + pots[2] + pots[3]
      && multiset(pots[0] + pots[1] + pots[2] + pots[3]) == multiset(field)
  {
    AnyTieOrderPartitionsField(field, ByStrength(field));
  }

  // ---------------------------------------------------------------------------
  // The draw

  /** One shuffle per pot. */
  predicate ValidPotDraws(pots: seq<seq<TeamRow>>, draws: seq<seq<nat>>)
  {
    |draws| == |pots| && forall k :: 0 <= k < |pots| ==> IsSwapDraw(draws[k], |pots[k]|)
  }

  /** The team names of every pot, in pot order. */
  function PotNames(pots: seq<seq<TeamRow>>): (names: seq<seq<Team>>)
    ensures |names| == |pots| && forall k :: 0 <= k < |pots| ==> |names[k]| == |pots[k]|
  {
    seq(|pots|, k requires 0 <= k < |pots| => MapSeq(pots[k], Name))
  }

  /** The name lists of the pots after their shuffles. */
  function ShuffledPots(pots: seq<seq<TeamRow>>, draws: seq<seq<nat>>): (s: seq<seq<Team>>)
    requires ValidPotDraws(pots, draws)
    ensures |s| == |pots| && forall k :: 0 <= k < |pots| ==> |s[k]| == |pots[k]|
  {
    seq(|pots|, k requires 0 <= k < |pots| => Shuffle(MapSeq(pots[k], Name), draws[k]))
  }

  /** The i-th entries of those lists that have one, in list order: group i. */
  function Column(lists: seq<seq<Team>>, i: nat): seq<Team>
  {
    if lists == [] then []
    else Column(lists[..|lists| - 1], i) + Entry(lists[|lists| - 1], i)
  }

  /** [t[i]] if t has an i-th entry, [] otherwise. */
  function Entry(t: seq<Team>, i: nat): seq<Team>
  {
    if i < |t| then [t[i]] else []
  }

  lemma ColumnStep(lists: seq<seq<Team>>, p: nat, i: nat)
    requires p < |lists|
    ensures Column(lists[..p + 1], i) == Column(lists[..p], i) + Entry(lists[p], i)
  {
    assert lists[..p + 1][..p] == lists[..p];
  }

  const GROUP_COUNT: nat := 12

  /** The keys of the group dictionary: 'A' .. 'L'. */
  function Labels(): (ls: set<char>)
    ensures forall i :: 0 <= i < GROUP_COUNT ==> Label(i) in ls
  {
    set i | 0 <= i < GROUP_COUNT :: Label(i)
  }

  /** The multiset of teams held by groups 0 .. n-1. */
  function GroupUnion(groups: map<char, seq<Team>>, n: nat): multiset<Team>
    requires n <= GROUP_COUNT && Labels() <= groups.Keys
  {
    if n == 0 then multiset{} else GroupUnion(groups, n - 1) + multiset(groups[Label(n - 1)])
  }

  /** The multiset of teams of all lists. */
  function PotUnion(lists: seq<seq<Team>>): multiset<Team>
  {
    if lists == [] then multiset{} else PotUnion(lists[..|lists| - 1]) + multiset(lists[|lists| - 1])
  }

  lemma PotUnionStep(lists: seq<seq<Team>>, p: nat)
    requires p < |lists|
    ensures PotUnion(lists[..p + 1]) == PotUnion(lists[..p]) + multiset(lists[p])
  {
    assert lists[..p + 1][..p] == lists[..p];
  }

  /** Groups 0 .. 11 are the columns of the first p shuffled pots, and
      together they hold those pots' teams. */
  predicate DealtUpTo(groups: map<char, seq<Team>>, shuffled: seq<seq<Team>>, p: nat)
    requires p <= |shuffled|
  {
    && groups.Keys == Labels()
    && (forall i :: 0 <= i < GROUP_COUNT ==> groups[Label(i)] == Column(shuffled[..p], i))
    && GroupUnion(groups, GROUP_COUNT) == PotUnion(shuffled[..p])
  }

  /** `draw_groups`: creates the twelve empty groups A .. L, then for each pot
      shuffles its team list in place and appends its i-th team to group i.
      Group i ends as the column of i-th teams of the shuffled pots, and the
      groups together hold exactly the teams of the pots. */
  method DrawGroups(pots: seq<seq<TeamRow>>, draws: seq<seq<nat>>)
    returns (groups: map<char, seq<Team>>)
    requires ValidPotDraws(pots, draws)
    requires forall k :: 0 <= k < |pots| ==> |pots[k]| <= GROUP_COUNT
    ensures groups.Keys == Labels()
    ensures forall i :: 0 <= i < GROUP_COUNT ==> groups[Label(i)] == Column(ShuffledPots(pots, draws), i)
    ensures GroupUnion(groups, GROUP_COUNT) == PotUnion(ShuffledPots(pots, draws))
  {
    var shuffled := ShuffledPots(pots, draws);
    groups := map c | c in Labels() :: [];
    EmptyGroupsUnion(groups, GROUP_COUNT);
    assert shuffled[..0] == [];
    var p := 0;
    while p < |pots|
      invariant 0 <= p <= |pots|
      invariant DealtUpTo(groups, shuffled, p)
    {
      ghost var before := groups;
      groups := DrawPot(groups, pots[p], draws[p]);
      DealtStep(before, groups, shuffled, p);
      p := p + 1;
    }
    assert shuffled[..|pots|] == shuffled;
  }

  /** One pass of draw_groups' outer loop: the pot's team list is shuffled in
      place and dealt out. */
  method DrawPot(groups: map<char, seq<Team>>, pot: seq<TeamRow>, draw: seq<nat>)
    returns (groups': map<char, seq<Team>>)
    requires groups.Keys == Labels() && |pot| <= GROUP_COUNT && IsSwapDraw(draw, |pot|)
    ensures groups'.Keys == Labels()
    ensures forall g :: 0 <= g < GROUP_COUNT ==>
      groups'[Label(g)] == groups[Label(g)] + Entry(Shuffle(MapSeq(pot, Name), draw), g)
    ensures GroupUnion(groups', GROUP_COUNT) == GroupUnion(groups, GROUP_COUNT) + multiset(Shuffle(MapSeq(pot, Name), draw))
  {
    var names := MapSeq(pot, Name);
    var teams := new Team[|names|](j requires 0 <= j < |names| => names[j]);
    assert teams[..] == names;
    ShuffleInPlace(teams, draw);
    groups' := DealPot(groups, teams[..]);
    DealAddsPot(groups, groups', teams[..], GROUP_COUNT);
    assert teams[..][..Min(GROUP_COUNT, teams.Length)] == teams[..];
  }

  lemma DealtStep(groups: map<char, seq<Team>>, groups': map<char, seq<Team>>, shuffled: seq<seq<Team>>, p: nat)
    requires p < |shuffled| && DealtUpTo(groups, shuffled, p)
    requires groups'.Keys == Labels()
    requires forall g :: 0 <= g < GROUP_COUNT ==> groups'[Label(g)] == groups[Label(g)] + Entry(shuffled[p], g)
    requires GroupUnion(groups', GROUP_COUNT) == GroupUnion(groups, GROUP_COUNT) + multiset(shuffled[p])
    ensures DealtUpTo(groups', shuffled, p + 1)
  {
    PotUnionStep(shuffled, p);
    forall i | 0 <= i < GROUP_COUNT ensures groups'[Label(i)] == Column(shuffled[..p + 1], i) {
      ColumnStep(shuffled, p, i);
    }
  }

  /** The inner loop of draw_groups: team i of the pot is appended to group i. */
  method DealPot(groups: map<char, seq<Team>>, teams: seq<Team>) returns (groups': map<char, seq<Team>>)
    requires groups.Keys == Labels() && |teams| <= GROUP_COUNT
    ensures groups'.Keys == Labels()
    ensures forall g :: 0 <= g < GROUP_COUNT ==> groups'[Label(g)] == groups[Label(g)] + Entry(teams, g)
  {
    groups' := groups;
    var i := 0;
    while i < |teams|
      invariant 0 <= i <= |teams|
      invariant groups'.Keys == Labels()
      invariant forall g :: 0 <= g < GROUP_COUNT ==>
        groups'[Label(g)] == groups[Label(g)] + (if g < i then [teams[g]] else [])
    {
      groups' := groups'[Label(i) := groups'[Label(i)] + [teams[i]]];
      forall g | 0 <= g < GROUP_COUNT && g != i ensures Label(g) != Label(i) {
        if Label(g) == Label(i) {
          LabelInjective(g, i);
        }
      }
      i := i + 1;
    }
  }

  lemma {:induction false} EmptyGroupsUnion(groups: map<char, seq<Team>>, n: nat)
    requires n <= GROUP_COUNT && Labels() <= groups.Keys
    requires forall i :: 0 <= i < GROUP_COUNT ==> groups[Label(i)] == []
    ensures GroupUnion(groups, n) == multiset{}
  {
    if n > 0 {
      EmptyGroupsUnion(groups, n - 1);
    }
  }

  /** Dealing a pot adds its first n teams to the union of the first n groups. */
  lemma {:induction false} DealAddsPot(groups: map<char, seq<Team>>, groups': map<char, seq<Team>>, teams: seq<Team>, n: nat)
    requires n <= GROUP_COUNT && Labels() <= groups.Keys && Labels() <= groups'.Keys
    requires forall g :: 0 <= g < GROUP_COUNT ==> groups'[Label(g)] == groups[Label(g)] + Entry(teams, g)
    ensures GroupUnion(groups', n) == GroupUnion(groups, n) + multiset(teams[..Min(n, |teams|)])
  {
    if n > 0 {
      var g := n - 1;
      DealAddsPot(groups, groups', teams, g);
      PrefixStep(teams, g);
      assert multiset(groups'[Label(g)]) == multiset(groups[Label(g)]) + multiset(Entry(teams, g));
      Rearrange(GroupUnion(groups, g), multiset(teams[..Min(g, |teams|)]),
                multiset(groups[Label(g)]), multiset(Entry(teams, g)));
    }
  }

  lemma PrefixStep(teams: seq<Team>, g: nat)
    ensures multiset(teams[..Min(g + 1, |teams|)]) == multiset(teams[..Min(g, |teams|)]) + multiset(Entry(teams, g))
  {
    if g < |teams| {
      assert teams[..Min(g + 1, |teams|)] == teams[..Min(g, |teams|)] + [teams[g]];
    }
  }

  lemma Rearrange(a: multiset<Team>, b: multiset<Team>, c: multiset<Team>, d: multiset<Team>)
    ensures (a + b) + (c + d) == (a + c) + (b + d)
  {
  }

  /** With four pots of twelve every group ends with four teams, and its k-th
      member is the i-th team of shuffled pot k. */
  lemma FullDrawShape(pots: seq<seq<TeamRow>>, draws: seq<seq<nat>>, i: nat)
    requires ValidPotDraws(pots, draws)
    requires |pots| == 4 && forall k :: 0 <= k < 4 ==> |pots[k]| == 12
    requires i < GROUP_COUNT
    ensures var s := ShuffledPots(pots, draws);
      Column(s, i) == [s[0][i], s[1][i], s[2][i], s[3][i]]
  {
    ColumnOfFour(ShuffledPots(pots, draws), i);
  }

  lemma ColumnOfFour(s: seq<seq<Team>>, i: nat)
    requires |s| == 4 && forall k :: 0 <= k < 4 ==> i < |s[k]|
    ensures Column(s, i) == [s[0][i], s[1][i], s[2][i], s[3][i]]
  {
    assert s[..0] == [];
    ColumnStep(s, 0, i);
    ColumnStep(s, 1, i);
    ColumnStep(s, 2, i);
    ColumnStep(s, 3, i);
    assert s[..4] == s;
  }

  /** Lists item by item permutations of one another hold the same teams. */
  lemma {:induction false} PotUnionPermutes(a: seq<seq<Team>>, b: seq<seq<Team>>)
    requires |a| == |b| && forall k :: 0 <= k < |a| ==> multiset(a[k]) == multiset(b[k])
    ensures PotUnion(a) == PotUnion(b)
    decreases |a|
  {
    if a != [] {
      PotUnionPermutes(a[..|a| - 1], b[..|b| - 1]);
    }
  }

  /** The shuffles lose no team: the shuffled pots hold the teams of the pots. */
  lemma ShuffledPotsKeepTeams(pots: seq<seq<TeamRow>>, draws: seq<seq<nat>>)
    requires ValidPotDraws(pots, draws)
    ensures PotUnion(ShuffledPots(pots, draws)) == PotUnion(PotNames(pots))
  {
    var s, names := ShuffledPots(pots, draws), PotNames(pots);
    forall k | 0 <= k < |pots| ensures multiset(s[k]) == multiset(names[k]) {
      ShufflePermutes(MapSeq(pots[k], Name), draws[k]);
    }
    PotUnionPermutes(s, names);
  }

  /** Laid end to end, the four shuffled name lists of a 48-team field hold
      the field's names. */
  lemma FullDrawKeepsNames(field: seq<TeamRow>, draws: seq<seq<nat>>)
    requires |field| == 48 && ValidPotDraws(MakePots(field, 12), draws)
    ensures var s := ShuffledPots(MakePots(field, 12), draws);
      |s| == 4 && multiset(s[0] + s[1] + s[2] + s[3]) == multiset(MapSeq(field, Name))
  {
    var pots := MakePots(field, 12);
    var s := ShuffledPots(pots, draws);
    PotNamesConcat(field);
    forall k | 0 <= k < 4 ensures multiset(s[k]) == multiset(MapSeq(pots[k], Name)) {
      ShufflePermutes(MapSeq(pots[k], Name), draws[k]);
    }
    SortPermutes(field, Stronger);
    MapSeqPermutes(ByStrength(field), field, Name);
  }

  /** The names of the strength order are the pots' names laid end to end. */
  lemma PotNamesConcat(field: seq<TeamRow>)
    requires |field| == 48
    ensures var pots := MakePots(field, 12);
      MapSeq(ByStrength(field), Name)
        == MapSeq(pots[0], Name) + MapSeq(pots[1], Name) + MapSeq(pots[2], Name) + MapSeq(pots[3], Name)
  {
    var pots := MakePots(field, 12);
    PotsPartitionField(field);
    var x := field[0];
    MapSeqSplit(pots[0], x, pots[1], Name);
    MapSeqSplit(pots[0] + pots[1], x, pots[2], Name);
    MapSeqSplit(pots[0] + pots[1] + pots[2], x, pots[3], Name);
  }

  /** With a field of 48 differently named teams every drawn group holds four
      different teams of the field. */
  lemma FullDrawGroupsDistinct(field: seq<TeamRow>, draws: seq<seq<nat>>, i: nat)
    requires |field| == 48 && Distinct(MapSeq(field, Name))
    requires ValidPotDraws(MakePots(field, 12), draws) && i < GROUP_COUNT
    ensures var group := Column(ShuffledPots(MakePots(field, 12), draws), i);
      && |group| == 4 && Distinct(group)
      && forall t :: t in group ==> t in MapSeq(field, Name)
  {
    var pots := MakePots(field, 12);
    PotsPartitionField(field);
    var s := ShuffledPots(pots, draws);
    FullDrawShape(pots, draws, i);
    FullDrawKeepsNames(field, draws);
    var all := s[0] + s[1] + s[2] + s[3];
    DistinctMultiset(MapSeq(field, Name), all);
    var group := Column(s, i);
    assert forall k :: 0 <= k < 4 ==> group[k] == all[12 * k + i];
    forall t | t in group ensures t in MapSeq(field, Name) {
      assert t in multiset(all);
    }
  }
}
