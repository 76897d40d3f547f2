/** The C++ simulator, src/core/cxx_sim.cpp: twelve groups of four drawn by
    shuffling the team indices 0..47, a 32-team knockout seeded in the order
    the group winners, runners-up and the eight best thirds were collected,
    and a tally of champions over many runs.  Teams are identified by their
    index into the strength vector.  The random generator is replaced by its
    draws, passed in per run: the swap indices of every std::shuffle, the
    scorelines of every match, and the uniform value of every knockout match.
    `win_prob` becomes the parameter winProb. */
module CxxSim {
  import opened Common
  import opened Sorting
  import opened Knockout
  import RR = RoundRobin

  // ---------------------------------------------------------------------------
  // utilities

  /** The factorial table of the Poisson weights, KFACT[k] for k = 0..8. */
  const KFACT: seq<real> := [1.0, 1.0, 2.0, 6.0, 24.0, 120.0, 720.0, 5040.0, 40320.0]

  function Fact(k: nat): nat
  {
    if k == 0 then 1 else k * Fact(k - 1)
  }

  /** Each entry of the table is the factorial of its index. */
  lemma KFactIsFactorial()
    ensures |KFACT| == 9
    ensures forall k :: 0 <= k < |KFACT| ==> KFACT[k] == Fact(k) as real
  {
    assert Fact(8) == 40320;
  }

  // ---------------------------------------------------------------------------
  // group stage

  /** A team's record in its group: index, points, goal difference, goals for. */
  datatype TeamStat = TeamStat(id: int, pts: int, gd: int, gf: int)

  /** `rank_cmp`: a is ranked strictly ahead of b.  Points, then goal
      difference, then goals scored, all descending, and finally the lower
      index first. */
  predicate RankCmp(a: TeamStat, b: TeamStat)
  {
    if a.pts != b.pts then a.pts > b.pts
    else if a.gd != b.gd then a.gd > b.gd
    else if a.gf != b.gf then a.gf > b.gf
    else a.id < b.id
  }

  /** rank_cmp is a valid comparator for std::stable_sort. */
  lemma RankCmpIsStrictWeakOrder()
    ensures StrictWeakOrder(RankCmp)
  {
  }

  /** rank_cmp is the lexicographic order on (-pts, -gd, -gf, id): of two
      records with different indices exactly one is ranked ahead. */
  lemma RankCmpIsTotal(a: TeamStat, b: TeamStat)
    ensures RankCmp(a, b) <==>
      || a.pts > b.pts
      || (a.pts == b.pts && a.gd > b.gd)
      || (a.pts == b.pts && a.gd == b.gd && a.gf > b.gf)
      || (a.pts == b.pts && a.gd == b.gd && a.gf == b.gf && a.id < b.id)
    ensures a.id != b.id ==> (RankCmp(a, b) <==> !RankCmp(b, a))
  {
  }

  /** The records of idx's four teams after the six fixtures whose scorelines
      are `goals`, in idx order. */
  function GroupStats(idx: seq<int>, goals: seq<RR.Score>): (st: seq<TeamStat>)
    requires |idx| == 4 && |goals| == |RR.FIXTURES|
    ensures |st| == 4 && forall k :: 0 <= k < 4 ==> st[k].id == idx[k]
  {
    seq(4, k requires 0 <= k < 4 =>
      TeamStat(idx[k], RR.Points(goals, k), RR.GoalDiff(goals, k), RR.GoalsFor(goals, k)))
  }

  function Ids(st: seq<TeamStat>): (ids: seq<int>)
    ensures |ids| == |st| && forall k :: 0 <= k < |st| ==> ids[k] == st[k].id
  {
    MapSeq(st, (t: TeamStat) => t.id)
  }

  /** The group's final order: the records, shuffled with the draw js and then
      stably sorted by rank_cmp. */
  function Ranking(idx: seq<int>, goals: seq<RR.Score>, js: seq<nat>): (ranked: seq<TeamStat>)
    requires |idx| == 4 && |goals| == |RR.FIXTURES| && IsSwapDraw(js, 4)
    ensures |ranked| == 4
  {
    SortPermutes(Shuffle(GroupStats(idx, goals), js), RankCmp);
    Sort(Shuffle(GroupStats(idx, goals), js), RankCmp)
  }

  /** The four goal differences of a group add up to zero. */
  lemma GroupGoalDiffZeroSum(idx: seq<int>, goals: seq<RR.Score>)
    requires |idx| == 4 && |goals| == |RR.FIXTURES|
    ensures var st := GroupStats(idx, goals); st[0].gd + st[1].gd + st[2].gd + st[3].gd == 0
  {
    RR.GoalDiffZeroSum(goals);
  }

  /** Six fixtures at 2 or 3 points each: a group hands out 12 to 18 points. */
  lemma GroupPointsTotal(idx: seq<int>, goals: seq<RR.Score>)
    requires |idx| == 4 && |goals| == |RR.FIXTURES|
    ensures var st := GroupStats(idx, goals); 12 <= st[0].pts + st[1].pts + st[2].pts + st[3].pts <= 18
  {
    RR.TotalPointsBounds(goals);
  }

  /** The final order is sorted by rank_cmp and holds exactly the four
      records, so its indices are a permutation of idx. */
  lemma RankingSortsTheGroup(idx: seq<int>, goals: seq<RR.Score>, js: seq<nat>)
    requires |idx| == 4 && |goals| == |RR.FIXTURES| && IsSwapDraw(js, 4)
    ensures Sorted(Ranking(idx, goals, js), RankCmp)
    ensures multiset(Ranking(idx, goals, js)) == multiset(GroupStats(idx, goals))
    ensures multiset(Ids(Ranking(idx, goals, js))) == multiset(idx)
  {
    var stats := GroupStats(idx, goals);
    var shuffled := Shuffle(stats, js);
    RankCmpIsStrictWeakOrder();
    SortSorted(shuffled, RankCmp);
    SortPermutes(shuffled, RankCmp);
    ShufflePermutes(stats, js);
    var id := (t: TeamStat) => t.id;
    MapSeqPermutes(Ranking(idx, goals, js), stats, id);
    assert MapSeq(stats, id) == idx;
  }

  /** Records of teams with different indices are strictly ordered one way
      by rank_cmp. */
  lemma StatsTotallyRanked(st: seq<TeamStat>)
    requires Distinct(Ids(st))
    ensures forall x, y :: x in st && y in st && x != y ==> RankCmp(x, y) || RankCmp(y, x)
  {
    forall x, y | x in st && y in st && x != y ensures RankCmp(x, y) || RankCmp(y, x) {
      var i :| 0 <= i < |st| && st[i] == x;
      var j :| 0 <= j < |st| && st[j] == y;
      assert Ids(st)[i] != Ids(st)[j];
    }
  }

  /** Because rank_cmp ends with the index comparison, no two teams of a group
      are ever tied: the shuffle before the stable sort has no influence on
      the final order. */
  lemma RankingIgnoresShuffle(idx: seq<int>, goals: seq<RR.Score>, js: seq<nat>, js': seq<nat>)
    requires |idx| == 4 && Distinct(idx) && |goals| == |RR.FIXTURES|
    requires IsSwapDraw(js, 4) && IsSwapDraw(js', 4)
    ensures Ranking(idx, goals, js) == Ranking(idx, goals, js')
  {
    var stats := GroupStats(idx, goals);
    ShufflePermutes(stats, js);
    ShufflePermutes(stats, js');
    var shuffled := Shuffle(stats, js);
    assert Ids(stats) == idx;
    DistinctMultiset(Ids(stats), Ids(shuffled)) by {
      MapSeqPermutes(shuffled, stats, (t: TeamStat) => t.id);
    }
    StatsTotallyRanked(shuffled);
    RankCmpIsStrictWeakOrder();
    SortIgnoresInputOrder(shuffled, Shuffle(stats, js'), RankCmp);
  }

  /** The records of idx's teams after the first k fixtures. */
  predicate StatsAfter(st: seq<TeamStat>, idx: seq<int>, goals: seq<RR.Score>, k: nat)
    requires |idx| == 4 && k <= |goals| <= |RR.FIXTURES|
  {
    && |st| == 4
    && forall t :: 0 <= t < 4 ==>
         st[t] == TeamStat(idx[t], RR.Points(goals[..k], t), RR.GoalDiff(goals[..k], t), RR.GoalsFor(goals[..k], t))
  }

  /** `play_group`: plays the six fixtures of idx's teams (goals[k] is the
      scoreline of fixture k), shuffles the four records with the draw js,
      sorts them stably by rank_cmp, appends the first two indices to top2 and
      returns the third record. */
  method PlayGroup(idx: seq<int>, goals: seq<RR.Score>, js: seq<nat>, top2: seq<int>)
    returns (top2': seq<int>, third: TeamStat)
    requires |idx| == 4 && |goals| == |RR.FIXTURES| && IsSwapDraw(js, 4)
    ensures var ranked := Ranking(idx, goals, js);
      top2' == top2 + [ranked[0].id, ranked[1].id] && third == ranked[2]
  {
    var st := new TeamStat[4];
    for k := 0 to 4
      invariant forall t :: 0 <= t < k ==> st[t] == TeamStat(idx[t], 0, 0, 0)
    {
      st[k] := TeamStat(idx[k], 0, 0, 0);
    }
    PlayMatches(st, idx, goals);
    ShuffleInPlace(st, js);
    InsertionSort(st, RankCmp);
    top2' := top2 + [st[0].id, st[1].id];
    third := st[2];
  }

  /** The six matches of play_group, each adding to the records of its two teams. */
  method PlayMatches(st: array<TeamStat>, idx: seq<int>, goals: seq<RR.Score>)
    requires st.Length == 4 && |idx| == 4 && |goals| == |RR.FIXTURES|
    requires forall t :: 0 <= t < 4 ==> st[t] == TeamStat(idx[t], 0, 0, 0)
    modifies st
    ensures st[..] == GroupStats(idx, goals)
  {
    var k := 0;  // matches played so far: goals[k] is the next scoreline
    assert StatsAfter(st[..], idx, goals, 0);
    var a := 0;
    while a < 4
      invariant 0 <= a <= 4
      invariant k == (if a == 0 then 0 else if a == 1 then 3 else if a == 2 then 5 else 6)
      invariant StatsAfter(st[..], idx, goals, k)
    {
      var b := a + 1;
      while b < 4
        invariant a + 1 <= b <= 4
        invariant k == (if a == 0 then 0 else if a == 1 then 3 else if a == 2 then 5 else 6) + (b - a - 1)
        invariant StatsAfter(st[..], idx, goals, k)
      {
        assert RR.FIXTURES[k] == (a, b) by { assert k == RR.FixtureIndex(a, b); }
        PlayMatch(st, idx, goals, k, a, b);
        k := k + 1;
        b := b + 1;
      }
      a := a + 1;
    }
    assert goals[..k] == goals;
  }

  /** Match k of the group, team a against team b. */
  method PlayMatch(st: array<TeamStat>, idx: seq<int>, goals: seq<RR.Score>, k: nat, a: nat, b: nat)
    requires st.Length == 4 && |idx| == 4 && k < |goals| == |RR.FIXTURES|
    requires a < b < 4 && RR.FIXTURES[k] == (a, b)
    requires StatsAfter(st[..], idx, goals, k)
    modifies st
    ensures StatsAfter(st[..], idx, goals, k + 1)
  {
    ghost var before := st[..];
    ScoreMatch(st, a, b, goals[k]);
    MatchStep(before, st[..], idx, goals, k);
  }

  /** The record updates of one match: goals for and goal difference of both
      teams, then 3 points to the winner or 1 to each on a draw. */
  method ScoreMatch(st: array<TeamStat>, a: nat, b: nat, m: RR.Score)
    requires st.Length == 4 && a < b < 4
    modifies st
    ensures Credited(old(st[..]), st[..], (a, b), m)
  {
    var gf: int, ga: int := m.home, m.away;
    st[a] := st[a].(gf := st[a].gf + gf, gd := st[a].gd + (gf - ga));
    st[b] := st[b].(gf := st[b].gf + ga, gd := st[b].gd + (ga - gf));
    if gf > ga {
      st[a] := st[a].(pts := st[a].pts + 3);
    } else if gf < ga {
      st[b] := st[b].(pts := st[b].pts + 3);
    } else {
      st[a] := st[a].(pts := st[a].pts + 1);
      st[b] := st[b].(pts := st[b].pts + 1);
    }
  }

  /** Every record of s1 is its record in s0 plus what fixture f with
      scoreline g gives that team. */
  predicate Credited(s0: seq<TeamStat>, s1: seq<TeamStat>, f: (nat, nat), g: RR.Score)
  {
    && |s0| == 4 && |s1| == 4
    && forall t :: 0 <= t < 4 ==>
         s1[t] == s0[t].(pts := s0[t].pts + RR.FixturePoints(f, g, t),
                         gd := s0[t].gd + RR.FixtureGoalDiff(f, g, t),
                         gf := s0[t].gf + RR.FixtureGoalsFor(f, g, t))
  }

  lemma MatchStep(s0: seq<TeamStat>, s1: seq<TeamStat>, idx: seq<int>, goals: seq<RR.Score>, k: nat)
    requires |idx| == 4 && k < |goals| == |RR.FIXTURES|
    requires StatsAfter(s0, idx, goals, k) && Credited(s0, s1, RR.FIXTURES[k], goals[k])
    ensures StatsAfter(s1, idx, goals, k + 1)
  {
    forall t | 0 <= t < 4
      ensures s1[t] == TeamStat(idx[t], RR.Points(goals[..k + 1], t), RR.GoalDiff(goals[..k + 1], t),
                                RR.GoalsFor(goals[..k + 1], t))
    {
      RR.FixtureStep(goals, k, t);
    }
  }

  // ---------------------------------------------------------------------------
  // knockout

  /** The first team's win probability, win_prob(s[a], s[b]), for two team
      indices; indices outside s never occur (0.0 stands in). */
  function KnockProb(s: seq<real>, winProb: (real, real) -> real): (p: (int, int) -> real)
  {
    (a: int, b: int) => if 0 <= a < |s| && 0 <= b < |s| then winProb(s[a], s[b]) else 0.0
  }

  /** `play_knock`: halves `teams` round by round, match i of a round pitting
      teams[2i] against teams[2i+1]; the first advances when its uniform draw
      is below win_prob.  The bracket must have a power-of-two size
      (an odd round would read the second team of its last pairing past the end). */
  method PlayKnock(s: seq<real>, teams: seq<int>, winProb: (real, real) -> real, u: seq<real>)
    returns (champ: int)
    requires IsPow2(|teams|) && |teams| - 1 <= |u|
    requires forall t :: t in teams ==> 0 <= t < |s|
    ensures champ == Champion(teams, u, KnockProb(s, winProb))
    ensures champ in teams
  {
    var p := KnockProb(s, winProb);
    var alive := teams;
    var rest := u;  // the draws of the matches not yet played
    while |alive| > 1
      invariant IsPow2(|alive|) && |alive| - 1 <= |rest|
      invariant Champion(alive, rest, p) == Champion(teams, u, p)
      invariant forall t :: t in alive ==> 0 <= t < |s|
      decreases |alive|
    {
      HalfIsPow2(|alive|);
      var next := PlayKnockRound(s, alive, winProb, rest);
      RoundMembers(alive, rest, p);
      rest := rest[|alive| / 2..];
      alive := next;
    }
    champ := alive[0];
    ChampionInBracket(teams, u, p);
  }

  /** One pass of play_knock's outer loop: the winners of the pairings, in order. */
  method PlayKnockRound(s: seq<real>, alive: seq<int>, winProb: (real, real) -> real, u: seq<real>)
    returns (next: seq<int>)
    requires |alive| % 2 == 0 && |alive| / 2 <= |u|
    requires forall t :: t in alive ==> 0 <= t < |s|
    ensures next == Round(alive, u, KnockProb(s, winProb))
  {
    next := [];
    var i := 0;
    while i < |alive|
      invariant 0 <= i <= |alive| && i % 2 == 0
      invariant |next| == i / 2
      invariant forall k :: 0 <= k < i / 2 ==> next[k] == Pick(alive[2 * k], alive[2 * k + 1], u[k], KnockProb(s, winProb))
    {
      assert alive[i] in alive && alive[i + 1] in alive;
      var pA := winProb(s[alive[i]], s[alive[i + 1]]);
      next := next + [if u[i / 2] < pA then alive[i] else alive[i + 1]];
      i := i + 2;
    }
  }

  // ---------------------------------------------------------------------------
  // one tournament

  /** The draws of one `simulate_tournament_once`: the shuffle of the 48
      indices, for each group its six scorelines and the shuffle of its four
      records, the shuffle of the twelve thirds, and one uniform value per
      knockout match. */
  datatype Draws = Draws(seating: seq<nat>, goals: seq<seq<RR.Score>>, groupShuffles: seq<seq<nat>>,
                         thirdsShuffle: seq<nat>, uniforms: seq<real>)

  predicate ValidDraws(d: Draws)
  {
    && IsSwapDraw(d.seating, 48)
    && |d.goals| == 12 && (forall g :: 0 <= g < 12 ==> |d.goals[g]| == |RR.FIXTURES|)
    && |d.groupShuffles| == 12 && (forall g :: 0 <= g < 12 ==> IsSwapDraw(d.groupShuffles[g], 4))
    && IsSwapDraw(d.thirdsShuffle, 12)
    && |d.uniforms| >= 31
  }

  /** std::iota: 0, 1, ..., n - 1. */
  function Iota(n: nat): (r: seq<int>)
    ensures |r| == n && forall i :: 0 <= i < n ==> r[i] == i
  {
    seq(n, i => i)
  }

  /** The `id` array after its shuffle. */
  function Seating(d: Draws): (id: seq<int>)
    requires ValidDraws(d)
    ensures |id| == 48
  {
    Shuffle(Iota(48), d.seating)
  }

  /** Group g holds the indices at positions 4g .. 4g+3 of `id`. */
  function GroupIdx(id: seq<int>, g: nat): (idx: seq<int>)
    requires |id| == 48 && g < 12
    ensures |idx| == 4
  {
    [id[4 * g], id[4 * g + 1], id[4 * g + 2], id[4 * g + 3]]
  }

  function GroupRanking(d: Draws, g: nat): (ranked: seq<TeamStat>)
    requires ValidDraws(d) && g < 12
    ensures |ranked| == 4
  {
    Ranking(GroupIdx(Seating(d), g), d.goals[g], d.groupShuffles[g])
  }

  /** `ko32` after groups 0 .. n-1: each group's first and second. */
  function TopTwos(d: Draws, n: nat): (r: seq<int>)
    requires ValidDraws(d) && n <= 12
    ensures |r| == 2 * n
  {
    seq(2 * n, i requires 0 <= i < 2 * n => GroupRanking(d, i / 2)[i % 2].id)
  }

  /** `thirds` after groups 0 .. n-1. */
  function Thirds(d: Draws, n: nat): (r: seq<TeamStat>)
    requires ValidDraws(d) && n <= 12
    ensures |r| == n
  {
    seq(n, g requires 0 <= g < n => GroupRanking(d, g)[2])
  }

  /** The twelve thirds, shuffled and stably sorted by rank_cmp. */
  function RankedThirds(d: Draws): (r: seq<TeamStat>)
    requires ValidDraws(d)
    ensures |r| == 12
  {
    SortPermutes(Shuffle(Thirds(d, 12), d.thirdsShuffle), RankCmp);
    Sort(Shuffle(Thirds(d, 12), d.thirdsShuffle), RankCmp)
  }

  /** The knockout field: 24 top-two indices, then the 8 best thirds. */
  function Ko32(d: Draws): (ko: seq<int>)
    requires ValidDraws(d)
  {
    TopTwos(d, 12) + Ids(RankedThirds(d)[..8])
  }

  /** The champion's index in one tournament. */
  function TournamentOnce(s: seq<real>, winProb: (real, real) -> real, d: Draws): int
    requires ValidDraws(d)
  {
    Pow2Of32();
    Champion(Ko32(d), d.uniforms, KnockProb(s, winProb))
  }

  /** The shuffled `id` array is a permutation of 0..47. */
  lemma SeatingIsPermutation(d: Draws)
    requires ValidDraws(d)
    ensures Distinct(Seating(d))
    ensures forall p :: 0 <= p < 48 ==> 0 <= Seating(d)[p] < 48
    ensures forall x :: 0 <= x < 48 ==> x in Seating(d)
  {
    ShufflePermutes(Iota(48), d.seating);
    DistinctMultiset(Iota(48), Seating(d));
    forall p | 0 <= p < 48 ensures 0 <= Seating(d)[p] < 48 {
      assert Seating(d)[p] in Iota(48);
    }
    forall x | 0 <= x < 48 ensures x in Seating(d) {
      assert Iota(48)[x] == x;
    }
  }

  /** The twelve groups are four distinct teams each, no team is in two
      groups, and every index 0..47 is in one. */
  lemma GroupsPartitionTheField(d: Draws)
    requires ValidDraws(d)
    ensures forall g :: 0 <= g < 12 ==> Distinct(GroupIdx(Seating(d), g))
    ensures forall g, h, x :: 0 <= g < 12 && 0 <= h < 12 && x in GroupIdx(Seating(d), g) && x in GroupIdx(Seating(d), h) ==> g == h
    ensures forall x :: x in Iota(48) ==> exists g :: 0 <= g < 12 && x in GroupIdx(Seating(d), g)
  {
    SeatingIsPermutation(d);
    GroupsDisjoint(Seating(d));
    GroupsCover(Seating(d));
  }

  lemma GroupsDisjoint(id: seq<int>)
    requires |id| == 48 && Distinct(id)
    ensures forall g :: 0 <= g < 12 ==> Distinct(GroupIdx(id, g))
    ensures forall g, h, x :: 0 <= g < 12 && 0 <= h < 12 && x in GroupIdx(id, g) && x in GroupIdx(id, h) ==> g == h
  {
    forall g, h, x | 0 <= g < 12 && 0 <= h < 12 && x in GroupIdx(id, g) && x in GroupIdx(id, h) ensures g == h {
      var k :| 0 <= k < 4 && GroupIdx(id, g)[k] == x;
      var l :| 0 <= l < 4 && GroupIdx(id, h)[l] == x;
      assert id[4 * g + k] == id[4 * h + l];
    }
  }

  lemma GroupsCover(id: seq<int>)
    requires |id| == 48 && forall x :: 0 <= x < 48 ==> x in id
    ensures forall x :: x in Iota(48) ==> exists g :: 0 <= g < 12 && x in GroupIdx(id, g)
  {
    forall x | x in Iota(48) ensures exists g :: 0 <= g < 12 && x in GroupIdx(id, g) {
      assert x in id;
      var p :| 0 <= p < 48 && id[p] == x;
      assert GroupIdx(id, p / 4)[p % 4] == x;
    }
  }

  /** Every index of a group's ranking is one of the 48. */
  lemma GroupRankingInField(d: Draws, g: nat)
    requires ValidDraws(d) && g < 12
    ensures forall k :: 0 <= k < 4 ==> 0 <= GroupRanking(d, g)[k].id < 48
  {
    var idx := GroupIdx(Seating(d), g);
    SeatingIsPermutation(d);
    RankingSortsTheGroup(idx, d.goals[g], d.groupShuffles[g]);
    var ids := Ids(GroupRanking(d, g));
    forall k | 0 <= k < 4 ensures 0 <= GroupRanking(d, g)[k].id < 48 {
      assert ids[k] in multiset(idx);
    }
  }

  /** `ko32` has 24 + 8 = 32 entries, all team indices, so play_knock halves
      it to a single champion, who is one of them. */
  lemma Ko32Shape(s: seq<real>, winProb: (real, real) -> real, d: Draws)
    requires ValidDraws(d)
    ensures |Ko32(d)| == 32 && IsPow2(|Ko32(d)|)
    ensures Ko32(d)[..24] == TopTwos(d, 12)
    ensures forall t :: t in Ko32(d) ==> 0 <= t < 48
    ensures TournamentOnce(s, winProb, d) in Ko32(d)
  {
    Pow2Of32();
    assert Ko32(d)[..24] == TopTwos(d, 12);
    Ko32InField(d);
    ChampionInBracket(Ko32(d), d.uniforms, KnockProb(s, winProb));
  }

  lemma Ko32InField(d: Draws)
    requires ValidDraws(d)
    ensures forall t :: t in Ko32(d) ==> 0 <= t < 48
  {
    TopTwosInField(d);
    ThirdsInField(d);
    var ko := Ko32(d);
    forall t | t in ko ensures 0 <= t < 48 {
      var i :| 0 <= i < 32 && ko[i] == t;
      if i >= 24 {
        assert RankedThirds(d)[i - 24] in RankedThirds(d);
      }
    }
  }

  lemma TopTwosInField(d: Draws)
    requires ValidDraws(d)
    ensures forall i :: 0 <= i < 24 ==> 0 <= TopTwos(d, 12)[i] < 48
  {
    forall i | 0 <= i < 24 ensures 0 <= TopTwos(d, 12)[i] < 48 {
      GroupRankingInField(d, i / 2);
    }
  }

  lemma ThirdsInField(d: Draws)
    requires ValidDraws(d)
    ensures forall x :: x in RankedThirds(d) ==> 0 <= x.id < 48
  {
    var thirds := Thirds(d, 12);
    ShufflePermutes(thirds, d.thirdsShuffle);
    SortKeepsMembers(Shuffle(thirds, d.thirdsShuffle), RankCmp);
    forall x | x in RankedThirds(d) ensures 0 <= x.id < 48 {
      assert x in thirds;
      var g :| 0 <= g < 12 && thirds[g] == x;
      GroupRankingInField(d, g);
    }
  }

  /** The eight thirds taken are sorted by rank_cmp, and none of the four left
      out is ranked ahead of any of them. */
  lemma BestThirdsAreBest(d: Draws)
    requires ValidDraws(d)
    ensures Sorted(RankedThirds(d)[..8], RankCmp)
    ensures multiset(RankedThirds(d)) == multiset(Thirds(d, 12))
    ensures forall x, y :: x in RankedThirds(d)[..8] && y in RankedThirds(d)[8..] ==> !RankCmp(y, x)
  {
    RankedPrefix(Thirds(d, 12), d.thirdsShuffle, 8);
  }

  /** After shuffling and sorting, the first n are sorted and ranked no worse
      than the rest. */
  lemma RankedPrefix(t: seq<TeamStat>, js: seq<nat>, n: nat)
    requires IsSwapDraw(js, |t|) && n <= |t|
    ensures var r := Sort(Shuffle(t, js), RankCmp);
      && |r| == |t|
      && Sorted(r[..n], RankCmp)
      && multiset(r) == multiset(t)
      && forall x, y :: x in r[..n] && y in r[n..] ==> !RankCmp(y, x)
  {
    var shuffled := Shuffle(t, js);
    var r := Sort(shuffled, RankCmp);
    RankCmpIsStrictWeakOrder();
    SortSorted(shuffled, RankCmp);
    SortPermutes(shuffled, RankCmp);
    ShufflePermutes(t, js);
    SortedPrefixDominates(r, n, RankCmp);
  }

  /** `simulate_tournament_once`, with the champion's index as an int (the
      source passes it through std::to_string and std::stoi). */
  method SimulateTournamentOnce(s: seq<real>, winProb: (real, real) -> real, d: Draws)
    returns (champ: int)
    requires |s| == 48 && ValidDraws(d)
    ensures champ == TournamentOnce(s, winProb, d)
  {
    var id := new int[48];
    for i := 0 to 48
      invariant forall j :: 0 <= j < i ==> id[j] == j
    {
      id[i] := i;
    }
    assert id[..] == Iota(48);
    ShuffleInPlace(id, d.seating);
    var top2, thirds := PlayGroups(id, d);
    var ko32 := AddBestThirds(top2, thirds, d.thirdsShuffle);
    Ko32Shape(s, winProb, d);
    champ := PlayKnock(s, ko32, winProb, d.uniforms);
  }

  /** The group loop: play_group for groups 0 .. 11 in turn. */
  method PlayGroups(id: array<int>, d: Draws) returns (ko32: seq<int>, thirds: seq<TeamStat>)
    requires ValidDraws(d) && id.Length == 48 && id[..] == Seating(d)
    ensures ko32 == TopTwos(d, 12) && thirds == Thirds(d, 12)
  {
    ko32, thirds := [], [];
    for g := 0 to 12
      invariant ko32 == TopTwos(d, g) && thirds == Thirds(d, g)
    {
      var idx := [id[4 * g], id[4 * g + 1], id[4 * g + 2], id[4 * g + 3]];
      assert idx == GroupIdx(Seating(d), g);
      var third;
      ko32, third := PlayGroup(idx, d.goals[g], d.groupShuffles[g], ko32);
      thirds := thirds + [third];
      TopTwosStep(d, g);
      assert thirds == Thirds(d, g + 1);
    }
  }

  lemma TopTwosStep(d: Draws, g: nat)
    requires ValidDraws(d) && g < 12
    ensures TopTwos(d, g + 1) == TopTwos(d, g) + [GroupRanking(d, g)[0].id, GroupRanking(d, g)[1].id]
  {
    var r := TopTwos(d, g) + [GroupRanking(d, g)[0].id, GroupRanking(d, g)[1].id];
    forall i | 0 <= i < 2 * g + 2 ensures TopTwos(d, g + 1)[i] == r[i] {
      if i >= 2 * g {
        assert i / 2 == g;
      }
    }
  }

  /** The thirds are shuffled, stably sorted by rank_cmp, and the first eight
      indices appended to ko32. */
  method AddBestThirds(ko32: seq<int>, thirds: seq<TeamStat>, js: seq<nat>) returns (ko: seq<int>)
    requires |thirds| == 12 && IsSwapDraw(js, 12)
    ensures |Sort(Shuffle(thirds, js), RankCmp)| == 12
    ensures ko == ko32 + Ids(Sort(Shuffle(thirds, js), RankCmp)[..8])
  {
    var ranked := new TeamStat[12](i requires 0 <= i < 12 => thirds[i]);
    assert ranked[..] == thirds;
    ShuffleInPlace(ranked, js);
    InsertionSort(ranked, RankCmp);
    ko := ko32;
    for k := 0 to 8
      invariant ko == ko32 + Ids(ranked[..k])
    {
      assert ranked[..k + 1] == ranked[..k] + [ranked[k]];
      ko := ko + [ranked[k].id];
    }
  }

  // ---------------------------------------------------------------------------
  // simulate_many

  predicate ValidRuns(runs: seq<Draws>)
  {
    forall r :: 0 <= r < |runs| ==> ValidDraws(runs[r])
  }

  /** The champion of every run, in order. */
  function Champions(s: seq<real>, winProb: (real, real) -> real, runs: seq<Draws>): (c: seq<int>)
    requires ValidRuns(runs)
    ensures |c| == |runs|
  {
    seq(|runs|, r requires 0 <= r < |runs| => TournamentOnce(s, winProb, runs[r]))
  }

  /** The `wins` vector: how many runs each index 0..47 won. */
  function Wins(s: seq<real>, winProb: (real, real) -> real, runs: seq<Draws>): (w: seq<int>)
    requires ValidRuns(runs)
    ensures |w| == 48
  {
    Counts(Iota(48), multiset(Champions(s, winProb, runs)))
  }

  /** wins[i] / n_runs for each index. */
  function Shares(s: seq<real>, winProb: (real, real) -> real, runs: seq<Draws>): (sh: seq<real>)
    requires ValidRuns(runs) && |runs| >= 1
    ensures |sh| == 48
  {
    Scaled(Wins(s, winProb, runs), |runs| as real)
  }

  /** The dictionary that stores vals[i] under keys[i] for i in order: a
      repeated key keeps its last value. */
  function Dict(keys: seq<string>, vals: seq<real>): (d: map<string, real>)
    requires |keys| == |vals|
    ensures d.Keys == set k | k in keys
  {
    if keys == [] then map[]
    else Dict(keys[..|keys| - 1], vals[..|vals| - 1])[keys[|keys| - 1] := vals[|vals| - 1]]
  }

  /** With distinct keys every key maps to its own value. */
  lemma {:induction false} DictLookup(keys: seq<string>, vals: seq<real>)
    requires |keys| == |vals| && Distinct(keys)
    ensures forall i :: 0 <= i < |keys| ==> Dict(keys, vals)[keys[i]] == vals[i]
    decreases |keys|
  {
    if keys != [] {
      var n := |keys| - 1;
      DictLookup(keys[..n], vals[..n]);
      forall i | 0 <= i < n ensures keys[i] != keys[n] && keys[..n][i] == keys[i] && vals[..n][i] == vals[i] {
      }
    }
  }

  /** A tournament's champion is one of the 48 indices. */
  lemma ChampionInField(s: seq<real>, winProb: (real, real) -> real, d: Draws)
    requires ValidDraws(d)
    ensures 0 <= TournamentOnce(s, winProb, d) < 48
  {
    Ko32Shape(s, winProb, d);
  }

  lemma ChampionsInField(s: seq<real>, winProb: (real, real) -> real, runs: seq<Draws>)
    requires ValidRuns(runs)
    ensures forall x :: x in Champions(s, winProb, runs) ==> x in Iota(48)
  {
    var c := Champions(s, winProb, runs);
    forall x | x in c ensures x in Iota(48) {
      var r :| 0 <= r < |runs| && c[r] == x;
      ChampionInField(s, winProb, runs[r]);
      assert Iota(48)[x] == x;
    }
  }

  /** Every run's champion counts once: the wins add up to n_runs. */
  lemma WinsSumToRuns(s: seq<real>, winProb: (real, real) -> real, runs: seq<Draws>)
    requires ValidRuns(runs)
    ensures SumInts(Wins(s, winProb, runs)) == |runs|
  {
    ChampionsInField(s, winProb, runs);
    CountsSumToLength(Iota(48), Champions(s, winProb, runs));
  }

  /** The shares add up to 1. */
  lemma SharesSumToOne(s: seq<real>, winProb: (real, real) -> real, runs: seq<Draws>)
    requires ValidRuns(runs) && |runs| >= 1
    ensures SumReals(Shares(s, winProb, runs)) == 1.0
  {
    WinsSumToRuns(s, winProb, runs);
    FractionsSumToOne(Wins(s, winProb, runs), |runs|);
  }

  /** `simulate_many` over |runs| runs: counts each run's champion in `wins`,
      then maps every team name to its index's share of the runs. */
  method SimulateMany(teams: seq<string>, s: seq<real>, winProb: (real, real) -> real, runs: seq<Draws>)
    returns (d: map<string, real>)
    requires |teams| == 48 && |s| == 48 && |runs| >= 1 && ValidRuns(runs)
    ensures d == Dict(teams, Shares(s, winProb, runs))
  {
    var wins := CountWins(s, winProb, runs);
    ghost var shares := Shares(s, winProb, runs);
    d := map[];
    for i := 0 to 48
      invariant d == Dict(teams[..i], shares[..i])
    {
      assert teams[..i + 1][..i] == teams[..i] && shares[..i + 1][..i] == shares[..i];
      d := d[teams[i] := wins[i] as real / |runs| as real];
    }
    assert teams[..48] == teams && shares[..48] == shares;
  }

  /** The run loop of simulate_many: each run's champion index gains one win. */
  method CountWins(s: seq<real>, winProb: (real, real) -> real, runs: seq<Draws>) returns (wins: array<int>)
    requires |s| == 48 && ValidRuns(runs)
    ensures fresh(wins) && wins[..] == Wins(s, winProb, runs)
  {
    wins := new int[48](_ => 0);
    ghost var champs := Champions(s, winProb, runs);
    assert champs[..0] == [];
    for r := 0 to |runs|
      invariant wins.Length == 48 && forall x :: 0 <= x < 48 ==> wins[x] == multiset(champs[..r])[x]
    {
      var champ := RunOnce(s, winProb, runs, r);
      Tally(wins, champs, r, champ);
    }
    assert champs[..|runs|] == champs;
    WinsAt(s, winProb, runs);
    assert forall x :: 0 <= x < 48 ==> wins[..][x] == Wins(s, winProb, runs)[x];
  }

  /** The r-th run of the loop. */
  method RunOnce(s: seq<real>, winProb: (real, real) -> real, runs: seq<Draws>, r: nat) returns (champ: int)
    requires |s| == 48 && ValidRuns(runs) && r < |runs|
    ensures champ == Champions(s, winProb, runs)[r] && 0 <= champ < 48
  {
    champ := SimulateTournamentOnce(s, winProb, runs[r]);
    ChampionInField(s, winProb, runs[r]);
  }

  /** The r-th run's champion index gains one win. */
  method Tally(wins: array<int>, ghost champs: seq<int>, ghost r: nat, champ: int)
    requires wins.Length == 48 && r < |champs| && champ == champs[r] && 0 <= champ < 48
    requires forall x :: 0 <= x < 48 ==> wins[x] == multiset(champs[..r])[x]
    modifies wins
    ensures forall x :: 0 <= x < 48 ==> wins[x] == multiset(champs[..r + 1])[x]
  {
    CountOneMore(champs, r);
    wins[champ] := wins[champ] + 1;
  }

  lemma CountOneMore(c: seq<int>, r: nat)
    requires r < |c|
    ensures forall x :: multiset(c[..r + 1])[x] == multiset(c[..r])[x] + (if x == c[r] then 1 else 0)
  {
    assert c[..r + 1] == c[..r] + [c[r]];
  }

  /** wins[x] is the number of runs index x won. */
  lemma WinsAt(s: seq<real>, winProb: (real, real) -> real, runs: seq<Draws>)
    requires ValidRuns(runs)
    ensures forall x :: 0 <= x < 48 ==> Wins(s, winProb, runs)[x] == multiset(Champions(s, winProb, runs))[x]
  {
  }

  /** With distinct team names, the returned dictionary maps the i-th team to
      the share of the runs index i won, and those shares add up to 1. */
  lemma TeamShares(teams: seq<string>, s: seq<real>, winProb: (real, real) -> real, runs: seq<Draws>)
    requires |teams| == 48 && Distinct(teams) && |runs| >= 1 && ValidRuns(runs)
    ensures var d := Dict(teams, Shares(s, winProb, runs));
      && (forall i :: 0 <= i < 48 ==>
            d[teams[i]] == multiset(Champions(s, winProb, runs))[i] as real / |runs| as real)
      && SumReals(seq(48, i requires 0 <= i < 48 => d[teams[i]])) == 1.0
  {
    var shares := Shares(s, winProb, runs);
    DictOfShares(teams, shares);
    WinsAt(s, winProb, runs);
    SharesSumToOne(s, winProb, runs);
  }

  lemma DictOfShares(teams: seq<string>, shares: seq<real>)
    requires |teams| == 48 && |shares| == 48 && Distinct(teams)
    ensures forall i :: 0 <= i < 48 ==> Dict(teams, shares)[teams[i]] == shares[i]
    ensures seq(48, i requires 0 <= i < 48 => Dict(teams, shares)[teams[i]]) == shares
  {
    DictLookup(teams, shares);
  }
}
