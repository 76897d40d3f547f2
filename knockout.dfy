/** The single-elimination knockout shared by the Python and the C++ simulator
    (src/core/tournament.py:70-84 and src/core/cxx_sim.cpp:77-91).  Each round
    pairs slots 2k and 2k+1; the first team of a pairing advances when the
    uniform draw for that match falls below its win probability.  The uniform
    draws are an input, consumed one per match in playing order. */
module Knockout {
  import opened Common

  /** n is 1, 2, 4, 8, ... */
  predicate IsPow2(n: nat)
    decreases n
  {
    n == 1 || (n >= 2 && n % 2 == 0 && IsPow2(n / 2))
  }

  /** Winner of one pairing, given the match's uniform draw u. */
  function Pick<T>(a: T, b: T, u: real, p: (T, T) -> real): T
  {
    if u < p(a, b) then a else b
  }

  /** One round: pairing k is alive[2k] against alive[2k+1], decided by u[k]. */
  function Round<T>(alive: seq<T>, u: seq<real>, p: (T, T) -> real): (next: seq<T>)
    requires |alive| / 2 <= |u|
    ensures |next| == |alive| / 2
  {
    seq(|alive| / 2, k requires 0 <= k < |alive| / 2 => Pick(alive[2 * k], alive[2 * k + 1], u[k], p))
  }

  /** The team left after halving the field round by round; round r uses the
      draws after those of the earlier rounds. */
  function Champion<T>(alive: seq<T>, u: seq<real>, p: (T, T) -> real): T
    requires IsPow2(|alive|) && |alive| - 1 <= |u|
    decreases |alive|
  {
    if |alive| == 1 then alive[0]
    else Champion(Round(alive, u, p), u[|alive| / 2..], p)
  }

  /** Number of matches a knockout of n slots plays. */
  function Matches(n: nat): nat
    requires IsPow2(n)
    decreases n
  {
    if n == 1 then 0 else n / 2 + Matches(n / 2)
  }

  /** A knockout of n slots plays n - 1 matches, so it uses n - 1 draws. */
  lemma {:induction false} MatchesIsSlotsMinusOne(n: nat)
    requires IsPow2(n)
    ensures Matches(n) == n - 1
    decreases n
  {
    if n > 1 {
      MatchesIsSlotsMinusOne(n / 2);
    }
  }

  /** Each pairing advances exactly one of its two teams: the first when the
      draw is below its win probability, the second otherwise. */
  lemma RoundAdvancesOneOfEachPair<T>(alive: seq<T>, u: seq<real>, p: (T, T) -> real)
    requires |alive| / 2 <= |u|
    ensures var next := Round(alive, u, p);
      forall k :: 0 <= k < |next| ==>
        && (next[k] == alive[2 * k] || next[k] == alive[2 * k + 1])
        && (u[k] < p(alive[2 * k], alive[2 * k + 1]) ==> next[k] == alive[2 * k])
        && (!(u[k] < p(alive[2 * k], alive[2 * k + 1])) ==> next[k] == alive[2 * k + 1])
  {
  }

  /** A power of two above 1 halves to a power of two. */
  lemma HalfIsPow2(n: nat)
    requires IsPow2(n) && n > 1
    ensures IsPow2(n / 2) && n % 2 == 0
  {
  }

  /** The 32-slot brackets of both simulators can be played out. */
  lemma Pow2Of32()
    ensures IsPow2(32)
  {
    assert IsPow2(1) && IsPow2(2) && IsPow2(4) && IsPow2(8) && IsPow2(16);
  }

  /** Every team that advances was in the round. */
  lemma RoundMembers<T>(alive: seq<T>, u: seq<real>, p: (T, T) -> real)
    requires |alive| / 2 <= |u|
    ensures forall x :: x in Round(alive, u, p) ==> x in alive
  {
    var next := Round(alive, u, p);
    forall x | x in next ensures x in alive {
      var k :| 0 <= k < |next| && next[k] == x;
      assert alive[2 * k] in alive && alive[2 * k + 1] in alive;
    }
  }

  /** The champion is one of the teams of the bracket. */
  lemma {:induction false} ChampionInBracket<T>(alive: seq<T>, u: seq<real>, p: (T, T) -> real)
    requires IsPow2(|alive|) && |alive| - 1 <= |u|
    ensures Champion(alive, u, p) in alive
    decreases |alive|
  {
    if |alive| > 1 {
      var next := Round(alive, u, p);
      ChampionInBracket(next, u[|alive| / 2..], p);
      RoundMembers(alive, u, p);
    }
  }

  /** Only the draws of the first n - 1 matches matter. */
  lemma {:induction false} ChampionUsesFirstDraws<T>(alive: seq<T>, u: seq<real>, v: seq<real>, p: (T, T) -> real)
    requires IsPow2(|alive|) && |alive| - 1 <= |u| && |alive| - 1 <= |v|
    requires u[..|alive| - 1] == v[..|alive| - 1]
    ensures Champion(alive, u, p) == Champion(alive, v, p)
    decreases |alive|
  {
    var n := |alive|;
    if n > 1 {
      HalfIsPow2(n);
      assert forall k :: 0 <= k < n / 2 ==> u[k] == v[k] by {
        forall k | 0 <= k < n / 2 ensures u[k] == v[k] {
          assert u[..n - 1][k] == v[..n - 1][k];
        }
      }
      assert Round(alive, u, p) == Round(alive, v, p);
      assert u[n / 2..][..n / 2 - 1] == v[n / 2..][..n / 2 - 1] by {
        forall k | 0 <= k < n / 2 - 1 ensures u[n / 2..][k] == v[n / 2..][k] {
          assert u[..n - 1][n / 2 + k] == v[..n - 1][n / 2 + k];
        }
      }
      ChampionUsesFirstDraws(Round(alive, u, p), u[n / 2..], v[n / 2..], p);
    }
  }

  /** Two probability tables that agree on every pairing of bracket teams
      produce the same champion. */
  lemma {:induction false} ChampionDependsOnBracketPairs<T>(alive: seq<T>, u: seq<real>, p: (T, T) -> real, q: (T, T) -> real)
    requires IsPow2(|alive|) && |alive| - 1 <= |u|
    requires forall a, b :: a in alive && b in alive ==> p(a, b) == q(a, b)
    ensures Champion(alive, u, p) == Champion(alive, u, q)
    decreases |alive|
  {
    if |alive| > 1 {
      var next := Round(alive, u, p);
      assert next == Round(alive, u, q) by {
        forall k | 0 <= k < |next| ensures next[k] == Round(alive, u, q)[k] {
          assert alive[2 * k] in alive && alive[2 * k + 1] in alive;
        }
      }
      RoundMembers(alive, u, p);
      ChampionDependsOnBracketPairs(next, u[|alive| / 2..], p, q);
    }
  }

  /** What the knockout loop does with any number of slots: a round with an
      odd number of teams, or an empty bracket, fails with an index error
      (reading the partner of the last team of an odd round, or the first team of an empty one); otherwise rounds are played until one team
      is left. */
  function Outcome<T>(alive: seq<T>, u: seq<real>, p: (T, T) -> real): Result<T, string>
    requires |alive| - 1 <= |u|
    decreases |alive|
  {
    if |alive| == 0 then Err("IndexError")
    else if |alive| == 1 then Ok(alive[0])
    else if |alive| % 2 == 1 then Err("IndexError")
    else Outcome(Round(alive, u, p), u[|alive| / 2..], p)
  }

  /** The knockout finishes exactly when the bracket has a power-of-two
      number of slots, and then its winner is the champion. */
  lemma {:induction false} OutcomeIsChampion<T>(alive: seq<T>, u: seq<real>, p: (T, T) -> real)
    requires |alive| - 1 <= |u|
    ensures Outcome(alive, u, p).Ok? <==> IsPow2(|alive|)
    ensures Outcome(alive, u, p).Ok? ==> Outcome(alive, u, p).value == Champion(alive, u, p)
    decreases |alive|
  {
    if |alive| > 1 && |alive| % 2 == 0 {
      OutcomeIsChampion(Round(alive, u, p), u[|alive| / 2..], p);
    }
  }
}
