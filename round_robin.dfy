/** The fixture schedule and the scoring rule of a four-team group, shared by
    the Python and the C++ group stage (src/core/group_stage.py:26-47 and
    src/core/cxx_sim.cpp:61-69).  Both run the double loop
    over i from 0 to 3 and j from i + 1 to 3, so the k-th fixture played is FIXTURES[k],
    and the k-th scoreline drawn belongs to it. */
module RoundRobin {

  /** A scoreline: goals of the first-listed team, goals of the second. */
  datatype Score = Score(home: nat, away: nat)

  /** The order in which the double loop visits the six pairs. */
  const FIXTURES: seq<(nat, nat)> := [(0, 1), (0, 2), (0, 3), (1, 2), (1, 3), (2, 3)]

  /** Position in FIXTURES of the pair (i, j) visited by the double loop. */
  function FixtureIndex(i: nat, j: nat): (k: nat)
    requires i < j < 4
    ensures k < 6 && FIXTURES[k] == (i, j)
  {
    (if i == 0 then 0 else if i == 1 then 3 else 5) + (j - i - 1)
  }

  /** Every unordered pair of the four teams is played, and each only once. */
  lemma FixturesAreTheSixPairs()
    ensures forall i: nat, j: nat :: i < j < 4 <==> (i, j) in FIXTURES
    ensures forall k, l :: 0 <= k < l < |FIXTURES| ==> FIXTURES[k] != FIXTURES[l]
    ensures forall k :: 0 <= k < |FIXTURES| ==> FIXTURES[k].0 < FIXTURES[k].1 < 4
  {
    forall i: nat, j: nat | i < j < 4 ensures (i, j) in FIXTURES {
      assert FIXTURES[FixtureIndex(i, j)] == (i, j);
    }
  }

  /** 3 points to the winner, 1 each on a draw, 0 to the loser. */
  function FixturePoints(f: (nat, nat), g: Score, t: nat): int
  {
    if t == f.0 then (if g.home > g.away then 3 else if g.home == g.away then 1 else 0)
    else if t == f.1 then (if g.home < g.away then 3 else if g.home == g.away then 1 else 0)
    else 0
  }

  function FixtureGoalDiff(f: (nat, nat), g: Score, t: nat): int
  {
    if t == f.0 then g.home - g.away else if t == f.1 then g.away - g.home else 0
  }

  function FixtureGoalsFor(f: (nat, nat), g: Score, t: nat): int
  {
    if t == f.0 then g.home else if t == f.1 then g.away else 0
  }

  /** Points of team t (its index in the group) after the fixtures whose
      scorelines are `goals`, taken in schedule order. */
  function Points(goals: seq<Score>, t: nat): int
    requires |goals| <= |FIXTURES|
  {
    if goals == [] then 0
    else Points(goals[..|goals| - 1], t) + FixturePoints(FIXTURES[|goals| - 1], goals[|goals| - 1], t)
  }

  function GoalDiff(goals: seq<Score>, t: nat): int
    requires |goals| <= |FIXTURES|
  {
    if goals == [] then 0
    else GoalDiff(goals[..|goals| - 1], t) + FixtureGoalDiff(FIXTURES[|goals| - 1], goals[|goals| - 1], t)
  }

  function GoalsFor(goals: seq<Score>, t: nat): int
    requires |goals| <= |FIXTURES|
  {
    if goals == [] then 0
    else GoalsFor(goals[..|goals| - 1], t) + FixtureGoalsFor(FIXTURES[|goals| - 1], goals[|goals| - 1], t)
  }

  function TotalPoints(goals: seq<Score>): int
    requires |goals| <= |FIXTURES|
  {
    Points(goals, 0) + Points(goals, 1) + Points(goals, 2) + Points(goals, 3)
  }

  /** Playing fixture k adds its points, goal difference and goals to the totals. */
  lemma FixtureStep(goals: seq<Score>, k: nat, t: nat)
    requires k < |goals| <= |FIXTURES|
    ensures Points(goals[..k + 1], t) == Points(goals[..k], t) + FixturePoints(FIXTURES[k], goals[k], t)
    ensures GoalDiff(goals[..k + 1], t) == GoalDiff(goals[..k], t) + FixtureGoalDiff(FIXTURES[k], goals[k], t)
    ensures GoalsFor(goals[..k + 1], t) == GoalsFor(goals[..k], t) + FixtureGoalsFor(FIXTURES[k], goals[k], t)
  {
    assert goals[..k + 1][..k] == goals[..k];
  }

  /** Number of the first n fixtures that team t plays in. */
  function Played(n: nat, t: nat): nat
    requires n <= |FIXTURES|
  {
    if n == 0 then 0
    else Played(n - 1, t) + (if t == FIXTURES[n - 1].0 || t == FIXTURES[n - 1].1 then 1 else 0)
  }

  /** A fixture hands out 3 points in all, or 1 + 1 on a draw. */
  lemma FixtureAwardsTwoOrThree(k: nat, g: Score)
    requires k < |FIXTURES|
    ensures var f := FIXTURES[k];
      var total := FixturePoints(f, g, 0) + FixturePoints(f, g, 1) + FixturePoints(f, g, 2) + FixturePoints(f, g, 3);
      (g.home == g.away ==> total == 2) && (g.home != g.away ==> total == 3)
  {
  }

  /** The group's points total lies between 2 and 3 per fixture played:
      between 12 and 18 once all six are played. */
  lemma {:induction false} TotalPointsBounds(goals: seq<Score>)
    requires |goals| <= |FIXTURES|
    ensures 2 * |goals| <= TotalPoints(goals) <= 3 * |goals|
    ensures |goals| == |FIXTURES| ==> 12 <= TotalPoints(goals) <= 18
  {
    if goals != [] {
      var n := |goals|;
      TotalPointsBounds(goals[..n - 1]);
      FixtureAwardsTwoOrThree(n - 1, goals[n - 1]);
    }
  }

  /** Goal difference is zero-sum: after every fixture the four teams' goal
      differences add up to 0. */
  lemma {:induction false} GoalDiffZeroSum(goals: seq<Score>)
    requires |goals| <= |FIXTURES|
    ensures GoalDiff(goals, 0) + GoalDiff(goals, 1) + GoalDiff(goals, 2) + GoalDiff(goals, 3) == 0
  {
    if goals != [] {
      GoalDiffZeroSum(goals[..|goals| - 1]);
    }
  }

  /** A team's points are between 0 and 3 per fixture it has played. */
  lemma {:induction false} PointsPerPlayedFixture(goals: seq<Score>, t: nat)
    requires |goals| <= |FIXTURES|
    ensures 0 <= Points(goals, t) <= 3 * Played(|goals|, t)
  {
    if goals != [] {
      PointsPerPlayedFixture(goals[..|goals| - 1], t);
    }
  }

  /** Each team plays three fixtures, so it ends with 0 to 9 points. */
  lemma PointsBounds(goals: seq<Score>, t: nat)
    requires |goals| == |FIXTURES| && t < 4
    ensures 0 <= Points(goals, t) <= 9
  {
    PointsPerPlayedFixture(goals, t);
    assert Played(6, t) == 3;
  }
}
