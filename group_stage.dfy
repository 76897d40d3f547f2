/** The Python group stage, src/core/group_stage.py: a round-robin of six
    fixtures between four teams.  The scorelines that `rng.poisson` would draw
    are an input, one Score per fixture in schedule order; the Poisson rates of
    `expected_goals` therefore play no part. */
module GroupStage {
  import opened Common
  import opened Sorting
  import opened RoundRobin

  /** One row of the returned table: (team, points, goal difference). */
  datatype Standing = Standing(team: Team, pts: int, gd: int)

  /** A team with its tie-break key (pts, gd, strength). */
  datatype Ranked = Ranked(team: Team, pts: int, gd: int, strength: real)

  /** `a` sorts strictly ahead of `b` under `sorted(key=(pts, gd, strength),
      reverse=True)`: its key is lexicographically larger. */
  predicate Better(a: Ranked, b: Ranked)
  {
    || a.pts > b.pts
    || (a.pts == b.pts && a.gd > b.gd)
    || (a.pts == b.pts && a.gd == b.gd && a.strength > b.strength)
  }

  lemma BetterIsStrictWeakOrder()
    ensures StrictWeakOrder(Better)
  {
  }

  function RankedOf(s: Standing, strength: map<Team, real>): Ranked
    requires s.team in strength
  {
    Ranked(s.team, s.pts, s.gd, strength[s.team])
  }

  function StandingOf(r: Ranked): Standing
  {
    Standing(r.team, r.pts, r.gd)
  }

  /** The four teams, in input order, with the totals the six fixtures give them. */
  function Totals(teams: seq<Team>, strength: map<Team, real>, goals: seq<Score>): (r: seq<Ranked>)
    requires |teams| == 4 && |goals| == |FIXTURES|
    requires forall t :: t in teams ==> t in strength
    ensures |r| == 4
  {
    seq(4, t requires 0 <= t < 4 =>
      Ranked(teams[t], Points(goals, t), GoalDiff(goals, t), strength[teams[t]]))
  }

  /** The table play_group returns: the totals, stably sorted best first. */
  function GroupTable(teams: seq<Team>, strength: map<Team, real>, goals: seq<Score>): (table: seq<Standing>)
    requires |teams| == 4 && |goals| == |FIXTURES|
    requires forall t :: t in teams ==> t in strength
  {
    var ordered := Sort(Totals(teams, strength, goals), Better);
    seq(|ordered|, r requires 0 <= r < |ordered| => StandingOf(ordered[r]))
  }

  function TeamsOf(table: seq<Standing>): (ts: seq<Team>)
  {
    MapSeq(table, (s: Standing) => s.team)
  }

  /** play_group returns the four input teams, each once. */
  lemma GroupTablePermutesTeams(teams: seq<Team>, strength: map<Team, real>, goals: seq<Score>)
    requires |teams| == 4 && |goals| == |FIXTURES|
    requires forall t :: t in teams ==> t in strength
    ensures |GroupTable(teams, strength, goals)| == 4
    ensures multiset(TeamsOf(GroupTable(teams, strength, goals))) == multiset(teams)
  {
    var totals := Totals(teams, strength, goals);
    var ordered := Sort(totals, Better);
    SortPermutes(totals, Better);
    var name := (r: Ranked) => r.team;
    assert TeamsOf(GroupTable(teams, strength, goals)) == MapSeq(ordered, name);
    assert teams == MapSeq(totals, name);
    MapSeqPermutes(ordered, totals, name);
  }

  /** Each row carries exactly the points and goal difference accumulated for
      its team. */
  lemma GroupTableCarriesTotals(teams: seq<Team>, strength: map<Team, real>, goals: seq<Score>)
    requires |teams| == 4 && |goals| == |FIXTURES|
    requires forall t :: t in teams ==> t in strength
    ensures |GroupTable(teams, strength, goals)| == 4
    ensures forall r :: 0 <= r < 4 ==>
      exists t :: 0 <= t < 4 && GroupTable(teams, strength, goals)[r]
                                 == Standing(teams[t], Points(goals, t), GoalDiff(goals, t))
  {
    var totals := Totals(teams, strength, goals);
    var ordered := Sort(totals, Better);
    SortPermutes(totals, Better);
    var table := GroupTable(teams, strength, goals);
    forall r | 0 <= r < 4
      ensures exists t :: 0 <= t < 4 && table[r] == Standing(teams[t], Points(goals, t), GoalDiff(goals, t))
    {
      assert ordered[r] in multiset(totals);
      var t :| 0 <= t < 4 && ordered[r] == totals[t];
      assert table[r] == StandingOf(totals[t]);
    }
  }

  /** The table is ordered best first by (points, goal difference, strength). */
  lemma GroupTableSorted(teams: seq<Team>, strength: map<Team, real>, goals: seq<Score>)
    requires |teams| == 4 && |goals| == |FIXTURES|
    requires forall t :: t in teams ==> t in strength
    ensures |GroupTable(teams, strength, goals)| == 4
    ensures forall r :: 0 <= r < 4 ==> GroupTable(teams, strength, goals)[r].team in strength
    ensures forall r, s :: 0 <= r < s < 4 ==>
      !Better(RankedOf(GroupTable(teams, strength, goals)[s], strength),
              RankedOf(GroupTable(teams, strength, goals)[r], strength))
  {
    var totals := Totals(teams, strength, goals);
    var ordered := Sort(totals, Better);
    SortPermutes(totals, Better);
    BetterIsStrictWeakOrder();
    SortSorted(totals, Better);
    var table := GroupTable(teams, strength, goals);
    forall r | 0 <= r < 4 ensures table[r].team in strength && RankedOf(table[r], strength) == ordered[r] {
      assert ordered[r] in multiset(totals);
      var t :| 0 <= t < 4 && ordered[r] == totals[t];
    }
  }

  /** `play_group`: plays the six fixtures, accumulating 3/1/0 points and signed
      goal difference in two dictionaries, then orders the teams by (points,
      goal difference, strength), best first. */
  method PlayGroup(teams: seq<Team>, strength: map<Team, real>, goals: seq<Score>)
    returns (table: seq<Standing>)
    requires |teams| == 4 && Distinct(teams)
    requires forall t :: t in teams ==> t in strength
    requires |goals| == |FIXTURES|
    ensures table == GroupTable(teams, strength, goals)
    ensures |table| == 4 && multiset(TeamsOf(table)) == multiset(teams)
    ensures forall r :: 0 <= r < 4 ==> table[r].team in strength
    ensures forall r :: 0 <= r < 4 ==>
      exists t :: 0 <= t < 4 && table[r] == Standing(teams[t], Points(goals, t), GoalDiff(goals, t))
    ensures forall r, s :: 0 <= r < s < 4 ==>
      !Better(RankedOf(table[s], strength), RankedOf(table[r], strength))
  {
    var pts, gd := PlayFixtures(teams, goals);
    var entries := seq(4, t requires 0 <= t < 4 =>
      Ranked(teams[t], pts[teams[t]], gd[teams[t]], strength[teams[t]]));
    assert entries == Totals(teams, strength, goals);
    var ordered := Sort(entries, Better);
    table := seq(|ordered|, r requires 0 <= r < |ordered| => StandingOf(ordered[r]));
    GroupTablePermutesTeams(teams, strength, goals);
    GroupTableCarriesTotals(teams, strength, goals);
    GroupTableSorted(teams, strength, goals);
  }

  /** The dictionaries hold the totals of the first k fixtures. */
  predicate Tallied(teams: seq<Team>, pts: map<Team, int>, gd: map<Team, int>, goals: seq<Score>, k: nat)
    requires |teams| == 4 && k <= |goals| <= |FIXTURES|
  {
    && (forall t :: t in teams ==> t in pts && t in gd)
    && (forall t :: 0 <= t < 4 ==> pts[teams[t]] == Points(goals[..k], t))
    && (forall t :: 0 <= t < 4 ==> gd[teams[t]] == GoalDiff(goals[..k], t))
  }

  lemma TallyStep(teams: seq<Team>, pts: map<Team, int>, gd: map<Team, int>,
                  pts': map<Team, int>, gd': map<Team, int>, goals: seq<Score>, k: nat)
    requires |teams| == 4 && k < |goals| <= |FIXTURES|
    requires Tallied(teams, pts, gd, goals, k)
    requires forall t :: t in teams ==> t in pts' && t in gd'
    requires forall t :: 0 <= t < 4 ==> pts'[teams[t]] == pts[teams[t]] + FixturePoints(FIXTURES[k], goals[k], t)
    requires forall t :: 0 <= t < 4 ==> gd'[teams[t]] == gd[teams[t]] + FixtureGoalDiff(FIXTURES[k], goals[k], t)
    ensures Tallied(teams, pts', gd', goals, k + 1)
  {
    forall t | 0 <= t < 4
      ensures pts'[teams[t]] == Points(goals[..k + 1], t)
      ensures gd'[teams[t]] == GoalDiff(goals[..k + 1], t)
    {
      FixtureStep(goals, k, t);
    }
  }

  /** The fixture loop of play_group: the `pts` and `gd` dictionaries after
      the six fixtures. */
  method PlayFixtures(teams: seq<Team>, goals: seq<Score>)
    returns (pts: map<Team, int>, gd: map<Team, int>)
    requires |teams| == 4 && Distinct(teams)
    requires |goals| == |FIXTURES|
    ensures forall t :: t in teams ==> t in pts && t in gd
    ensures forall t :: 0 <= t < 4 ==> pts[teams[t]] == Points(goals, t)
    ensures forall t :: 0 <= t < 4 ==> gd[teams[t]] == GoalDiff(goals, t)
  {
    pts := map t | t in teams :: 0;
    gd := map t | t in teams :: 0;
    var k := 0;  // fixtures played so far: goals[k] is the next scoreline
    var i := 0;
    while i < 4
      invariant 0 <= i <= 4
      invariant k == (if i == 0 then 0 else if i == 1 then 3 else if i == 2 then 5 else 6)
      invariant Tallied(teams, pts, gd, goals, k)
    {
      var j := i + 1;
      while j < 4
        invariant i + 1 <= j <= 4
        invariant k == (if i == 0 then 0 else if i == 1 then 3 else if i == 2 then 5 else 6) + (j - i - 1)
        invariant Tallied(teams, pts, gd, goals, k)
      {
        assert FIXTURES[k] == (i, j) by { assert k == FixtureIndex(i, j); }
        var pts', gd' := PlayFixture(teams, pts, gd, i, j, goals[k]);
        TallyStep(teams, pts, gd, pts', gd', goals, k);
        pts, gd := pts', gd';
        k := k + 1;
        j := j + 1;
      }
      i := i + 1;
    }
    assert goals[..k] == goals;
  }

  /** One fixture of play_group's loop: teams[i] at home to teams[j], with
      scoreline g, updates the two dictionaries. */
  method PlayFixture(teams: seq<Team>, pts: map<Team, int>, gd: map<Team, int>, i: nat, j: nat, g: Score)
    returns (pts': map<Team, int>, gd': map<Team, int>)
    requires |teams| == 4 && Distinct(teams) && i < j < 4
    requires forall t :: t in teams ==> t in pts && t in gd
    ensures forall t :: t in teams ==> t in pts' && t in gd'
    ensures forall t :: 0 <= t < 4 ==> pts'[teams[t]] == pts[teams[t]] + FixturePoints((i, j), g, t)
    ensures forall t :: 0 <= t < 4 ==> gd'[teams[t]] == gd[teams[t]] + FixtureGoalDiff((i, j), g, t)
  {
    var home, away := teams[i], teams[j];
    var gh: int, ga: int := g.home, g.away;
    pts', gd' := pts, gd;
    if gh > ga {
      pts' := pts'[home := pts'[home] + 3];
    } else if gh == ga {
      pts' := pts'[home := pts'[home] + 1];
      pts' := pts'[away := pts'[away] + 1];
    } else {
      pts' := pts'[away := pts'[away] + 3];
    }
    gd' := gd'[home := gd'[home] + (gh - ga)];
    gd' := gd'[away := gd'[away] + (ga - gh)];
    forall t | 0 <= t < 4
      ensures teams[t] == home <==> t == i
      ensures teams[t] == away <==> t == j
    {
    }
  }
}
