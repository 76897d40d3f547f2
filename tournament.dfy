/** The Python tournament, src/core/tournament.py: the win-probability matrix,
    the fixed bracket template, the bracket builder, the knockout, the
    qualification from the group tables, and the Monte-Carlo tally of
    simulate_many.  The home-win probability of `match_probabilities` is an
    opaque parameter; the draws of the random generator are inputs. */
module Tournament {
  import opened Common
  import opened Sorting
  import opened Knockout
  import RR = RoundRobin
  import GS = GroupStage
  import GD = GroupDraw

  // ---------------------------------------------------------------------------
  // _win_matrix

  /** The table _win_matrix fills: 0.5 on the diagonal, the opaque home-win
      probability of strength i against strength j elsewhere. */
  function WinTable(strength: seq<real>, home: (real, real) -> real): (m: seq<seq<real>>)
    ensures |m| == |strength| && forall i :: 0 <= i < |m| ==> |m[i]| == |strength|
  {
    seq(|strength|, i requires 0 <= i < |strength| =>
      seq(|strength|, j requires 0 <= j < |strength| =>
        if i == j then 0.5 else home(strength[i], strength[j])))
  }

  /** The rows of a matrix, as values. */
  function Rows(P: array2<real>): (m: seq<seq<real>>)
    reads P
    ensures |m| == P.Length0 && forall i :: 0 <= i < P.Length0 ==> |m[i]| == P.Length1
    ensures forall i, j :: 0 <= i < P.Length0 && 0 <= j < P.Length1 ==> m[i][j] == P[i, j]
  {
    seq(P.Length0, i requires 0 <= i < P.Length0 reads P =>
      seq(P.Length1, j requires 0 <= j < P.Length1 reads P => P[i, j]))
  }

  /** `_win_matrix`: an N x N array, filled row by row. */
  method WinMatrix(strength: seq<real>, home: (real, real) -> real) returns (P: array2<real>)
    ensures fresh(P) && P.Length0 == |strength| && P.Length1 == |strength|
    ensures Rows(P) == WinTable(strength, home)
  {
    var n := |strength|;
    P := new real[n, n];
    var i := 0;
    while i < n
      invariant 0 <= i <= n
      invariant forall r, c :: 0 <= r < i && 0 <= c < n ==> P[r, c] == WinTable(strength, home)[r][c]
    {
      var j := 0;
      while j < n
        invariant 0 <= j <= n
        invariant forall r, c :: 0 <= r < i && 0 <= c < n ==> P[r, c] == WinTable(strength, home)[r][c]
        invariant forall c :: 0 <= c < j ==> P[i, c] == WinTable(strength, home)[i][c]
      {
        if i == j {
          P[i, j] := 0.5;
        } else {
          P[i, j] := home(strength[i], strength[j]);
        }
        j := j + 1;
      }
      i := i + 1;
    }
    forall r | 0 <= r < n ensures Rows(P)[r] == WinTable(strength, home)[r] {
    }
  }

  /** P[team_to_idx[a], team_to_idx[b]] as a function of two teams. */
  function MatrixProb(m: seq<seq<real>>, idx: map<Team, nat>): (Team, Team) -> real
  {
    (a: Team, b: Team) =>
      if a in idx && b in idx && idx[a] < |m| && idx[b] < |m[idx[a]]| then m[idx[a]][idx[b]] else 0.0
  }

  /** The diagonal is never read by a knockout between different teams: with
      an index map that sends different teams to different rows, a pairing of
      a and b reads the home-win probability of a's strength against b's. */
  lemma DiagonalNeverUsed(strength: seq<real>, home: (real, real) -> real, idx: map<Team, nat>, a: Team, b: Team)
    requires a in idx && b in idx && idx[a] < |strength| && idx[b] < |strength|
    requires a != b && idx[a] != idx[b]
    ensures MatrixProb(WinTable(strength, home), idx)(a, b) == home(strength[idx[a]], strength[idx[b]])
  {
  }

  // ---------------------------------------------------------------------------
  // _simulate_knockout

  /** `_simulate_knockout`: plays rounds until one team is left; the match of
      alive[i] against alive[i+1] uses the next uniform draw and the matrix
      entry of the two teams' indices. */
  method SimulateKnockout(teams: seq<Team>, P: array2<real>, idx: map<Team, nat>, u: seq<real>)
    returns (r: Result<Team, string>)
    requires |teams| - 1 <= |u|
    requires forall t :: t in teams ==> t in idx && idx[t] < P.Length0 && idx[t] < P.Length1
    ensures r == Outcome(teams, u, MatrixProb(Rows(P), idx))
  {
    var alive := teams;
    var rest := u;  // the draws not yet consumed
    while |alive| > 1
      invariant |alive| - 1 <= |rest|
      invariant forall t :: t in alive ==> t in teams
      invariant Outcome(alive, rest, MatrixProb(Rows(P), idx)) == Outcome(teams, u, MatrixProb(Rows(P), idx))
      decreases |alive|
    {
      if |alive| % 2 == 1 {
        return Err("IndexError");
      }
      var next := PlayRound(alive, P, idx, rest);
      alive, rest := next, rest[|alive| / 2..];
    }
    if |alive| == 0 {
      r := Err("IndexError");
    } else {
      r := Ok(alive[0]);
    }
  }

  /** One pass of the inner loop of `_simulate_knockout`. */
  method PlayRound(alive: seq<Team>, P: array2<real>, idx: map<Team, nat>, u: seq<real>)
    returns (next: seq<Team>)
    requires |alive| % 2 == 0 && |alive| / 2 <= |u|
    requires forall t :: t in alive ==> t in idx && idx[t] < P.Length0 && idx[t] < P.Length1
    ensures next == Round(alive, u, MatrixProb(Rows(P), idx))
    ensures forall t :: t in next ==> t in alive
  {
    ghost var p := MatrixProb(Rows(P), idx);
    next := [];
    var i := 0;
    while i < |alive|
      invariant 0 <= i <= |alive| && i % 2 == 0
      invariant |next| == i / 2
      invariant forall k :: 0 <= k < i / 2 ==> next[k] == Pick(alive[2 * k], alive[2 * k + 1], u[k], p)
      invariant forall t :: t in next ==> t in alive
    {
      var a, b := alive[i], alive[i + 1];
      assert a in alive && b in alive;
      assert P[idx[a], idx[b]] == p(a, b);
      if u[i / 2] < P[idx[a], idx[b]] {
        next := next + [a];
      } else {
        next := next + [b];
      }
      i := i + 2;
    }
  }

  // ---------------------------------------------------------------------------
  // The bracket template

  /** The source's round-of-32 template: (group, finishing position). */
  const BRACKET_ORDER: seq<(char, nat)> := [
    ('A', 1), ('C', 2), ('E', 1), ('G', 2), ('B', 1), ('D', 2), ('F', 1), ('H', 2),
    ('C', 1), ('A', 2), ('G', 1), ('E', 2), ('D', 1), ('B', 2), ('H', 1), ('F', 2)]

  /** The template the module's docstring describes: the winners and
      runners-up of all twelve groups, groups I .. L paired the way A .. H are. */
  const FULL_BRACKET_ORDER: seq<(char, nat)> := BRACKET_ORDER + [
    ('I', 1), ('K', 2), ('J', 1), ('L', 2), ('K', 1), ('I', 2), ('L', 1), ('J', 2)]

  /** What a template needs of the qualified teams: each entry's group is a
      key, and its position is within that group's list. */
  predicate TemplateFits(qualified: map<char, seq<Team>>, template: seq<(char, nat)>)
  {
    forall k :: 0 <= k < |template| ==>
      template[k].0 in qualified && 1 <= template[k].1 <= |qualified[template[k].0]|
  }

  /** The template's slots: entry (grp, pos) is the team finishing in place pos
      of group grp. */
  function TemplateSlots(qualified: map<char, seq<Team>>, template: seq<(char, nat)>): (slots: seq<Team>)
    requires TemplateFits(qualified, template)
    ensures |slots| == |template|
  {
    seq(|template|, k requires 0 <= k < |template| => qualified[template[k].0][template[k].1 - 1])
  }

  /** The bracket `_knockout_bracket` returns: the template slots followed by
      the shuffled thirds, or the failure of the check that there are 32 slots. */
  function Bracket(qualified: map<char, seq<Team>>, thirds: seq<Team>, draw: seq<nat>,
                   template: seq<(char, nat)>): Result<seq<Team>, string>
    requires TemplateFits(qualified, template) && IsSwapDraw(draw, |thirds|)
  {
    var slots := TemplateSlots(qualified, template) + Shuffle(thirds, draw);
    if |slots| == 32 then Ok(slots) else Err("AssertionError: len(slots) == 32")
  }

  /** The bracket succeeds exactly when the template and the thirds fill 32
      slots; then slot k below |template| is qualified[grp][pos - 1] of entry
      k, and the remaining slots are the thirds in some order. */
  lemma BracketShape(qualified: map<char, seq<Team>>, thirds: seq<Team>, draw: seq<nat>, template: seq<(char, nat)>)
    requires TemplateFits(qualified, template) && IsSwapDraw(draw, |thirds|)
    ensures Bracket(qualified, thirds, draw, template).Ok? <==> |template| + |thirds| == 32
    ensures Bracket(qualified, thirds, draw, template).Ok? ==>
      var slots := Bracket(qualified, thirds, draw, template).value;
      && |slots| == 32
      && (forall k :: 0 <= k < |template| ==> slots[k] == qualified[template[k].0][template[k].1 - 1])
      && multiset(slots[|template|..]) == multiset(thirds)
  {
    var slots := TemplateSlots(qualified, template) + Shuffle(thirds, draw);
    ShufflePermutes(thirds, draw);
    assert slots[|template|..] == Shuffle(thirds, draw);
  }

  /** `_knockout_bracket`: appends the template slots one by one, shuffles the
      caller's thirds list in place, and extends the slots with it. */
  method KnockoutBracket(qualified: map<char, seq<Team>>, thirds: array<Team>, draw: seq<nat>,
                         template: seq<(char, nat)>) returns (r: Result<seq<Team>, string>)
    requires TemplateFits(qualified, template) && IsSwapDraw(draw, thirds.Length)
    modifies thirds
    ensures thirds[..] == Shuffle(old(thirds[..]), draw)
    ensures r == Bracket(qualified, old(thirds[..]), draw, template)
  {
    var slots: seq<Team> := [];
    var k := 0;
    while k < |template|
      invariant 0 <= k <= |template|
      invariant slots == TemplateSlots(qualified, template)[..k]
    {
      var (grp, pos) := template[k];
      slots := slots + [qualified[grp][pos - 1]];
      k := k + 1;
    }
    assert TemplateSlots(qualified, template)[..k] == TemplateSlots(qualified, template);
    ShuffleInPlace(thirds, draw);
    slots := slots + thirds[..];
    if |slots| == 32 {
      r := Ok(slots);
    } else {
      r := Err("AssertionError: len(slots) == 32");
    }
  }

  /** Every entry of the template is a group between 'A' and `last` and a finishing
      place 1 or 2, no entry repeats, and every such (group, place) appears. */
  predicate CoversGroups(template: seq<(char, nat)>, last: char)
  {
    && (forall k :: 0 <= k < |template| ==> 'A' <= template[k].0 <= last && 1 <= template[k].1 <= 2)
    && (forall k, l :: 0 <= k < l < |template| ==> template[k] != template[l])
    && (forall c: char, pos: nat :: 'A' <= c <= last && 1 <= pos <= 2 ==> (c, pos) in template)
  }

  /** Every round-of-32 pairing sets a group winner against the runner-up of
      another group. */
  predicate WinnerMeetsRunnerUp(template: seq<(char, nat)>)
  {
    forall k :: 0 <= k < |template| / 2 ==>
      template[2 * k].1 == 1 && template[2 * k + 1].1 == 2 && template[2 * k].0 != template[2 * k + 1].0
  }

  /** Position in a template of group c's winner (place 1) or runner-up
      (place 2), read from a table indexed by group. */
  function SlotOf(winners: seq<nat>, runnersUp: seq<nat>, c: char, pos: nat): nat
    requires |winners| == |runnersUp| && 'A' <= c && (c as int - 'A' as int) < |winners|
  {
    if pos == 1 then winners[c as int - 'A' as int] else runnersUp[c as int - 'A' as int]
  }

  const WINNER_SLOTS: seq<nat> := [0, 4, 8, 12, 2, 6, 10, 14, 16, 18, 20, 22]
  const RUNNER_UP_SLOTS: seq<nat> := [9, 13, 1, 5, 11, 15, 3, 7, 21, 23, 17, 19]

  /** A slot table that finds every (group, place) of the range in the template
      and sends every entry back to its own position proves CoversGroups. */
  lemma CoversBySlots(template: seq<(char, nat)>, last: char, winners: seq<nat>, runnersUp: seq<nat>)
    requires 'A' <= last <= 'Z' && |winners| == |runnersUp| == last as int - 'A' as int + 1
    requires forall k :: 0 <= k < |template| ==> 'A' <= template[k].0 <= last && 1 <= template[k].1 <= 2
    requires forall k :: 0 <= k < |template| ==> SlotOf(winners, runnersUp, template[k].0, template[k].1) == k
    requires forall g :: 0 <= g < |winners| ==> winners[g] < |template| && runnersUp[g] < |template|
    requires forall g :: 0 <= g < |winners| ==> template[winners[g]] == (Label(g), 1)
    requires forall g :: 0 <= g < |winners| ==> template[runnersUp[g]] == (Label(g), 2)
    ensures CoversGroups(template, last)
  {
    forall c: char, pos: nat | 'A' <= c <= last && 1 <= pos <= 2 ensures (c, pos) in template {
      var g := c as int - 'A' as int;
      assert Label(g) == c;
      if pos == 1 {
        assert template[winners[g]] == (c, pos);
      } else {
        assert template[runnersUp[g]] == (c, pos);
      }
    }
  }

  /** The slot tables find the places of groups A .. H in the source's
      template, and of groups A .. L in the corrected one. */
  lemma SlotsFindPlaces()
    ensures forall g :: 0 <= g < 8 ==> WINNER_SLOTS[g] < 16 && BRACKET_ORDER[WINNER_SLOTS[g]] == (Label(g), 1)
    ensures forall g :: 0 <= g < 8 ==> RUNNER_UP_SLOTS[g] < 16 && BRACKET_ORDER[RUNNER_UP_SLOTS[g]] == (Label(g), 2)
    ensures forall g :: 0 <= g < 12 ==> WINNER_SLOTS[g] < 24 && FULL_BRACKET_ORDER[WINNER_SLOTS[g]] == (Label(g), 1)
    ensures forall g :: 0 <= g < 12 ==> RUNNER_UP_SLOTS[g] < 24 && FULL_BRACKET_ORDER[RUNNER_UP_SLOTS[g]] == (Label(g), 2)
  {
  }

  /** Every entry of the source's template is sent back to its own position. */
  lemma SlotsInvertAToH()
    ensures forall k :: 0 <= k < 16 ==> 'A' <= BRACKET_ORDER[k].0 <= 'H' && 1 <= BRACKET_ORDER[k].1 <= 2
    ensures forall k :: 0 <= k < 16 ==> SlotOf(WINNER_SLOTS[..8], RUNNER_UP_SLOTS[..8], BRACKET_ORDER[k].0, BRACKET_ORDER[k].1) == k
  {
  }

  /** The same for the eight entries the corrected template adds. */
  lemma SlotsInvertIToL()
    ensures forall k :: 16 <= k < 24 ==> 'I' <= FULL_BRACKET_ORDER[k].0 <= 'L' && 1 <= FULL_BRACKET_ORDER[k].1 <= 2
    ensures forall k :: 16 <= k < 24 ==> SlotOf(WINNER_SLOTS, RUNNER_UP_SLOTS, FULL_BRACKET_ORDER[k].0, FULL_BRACKET_ORDER[k].1) == k
  {
  }

  /** The source's template holds the winners and runners-up of groups A .. H
      only: 16 slots, so with the 8 best thirds the bracket has 24 teams. */
  lemma BracketOrderCoversAToH()
    ensures |BRACKET_ORDER| == 16 && CoversGroups(BRACKET_ORDER, 'H')
  {
    SlotsFindPlaces();
    SlotsInvertAToH();
    CoversBySlots(BRACKET_ORDER, 'H', WINNER_SLOTS[..8], RUNNER_UP_SLOTS[..8]);
  }

  /** The corrected template holds the winner and the runner-up of each of
      the twelve groups exactly once: 24 slots. */
  lemma FullBracketOrderCoversAll()
    ensures |FULL_BRACKET_ORDER| == 24 && CoversGroups(FULL_BRACKET_ORDER, 'L')
  {
    SlotsFindPlaces();
    SlotsInvertAToH();
    SlotsInvertIToL();
    assert forall k :: 0 <= k < 16 ==> FULL_BRACKET_ORDER[k] == BRACKET_ORDER[k];
    CoversBySlots(FULL_BRACKET_ORDER, 'L', WINNER_SLOTS, RUNNER_UP_SLOTS);
  }

  /** In both templates every round-of-32 pairing sets a group winner against
      the runner-up of another group. */
  lemma TemplatesPairWinnersWithRunnersUp()
    ensures WinnerMeetsRunnerUp(BRACKET_ORDER) && WinnerMeetsRunnerUp(FULL_BRACKET_ORDER)
  {
  }

  // ---------------------------------------------------------------------------
  // The field and its lookup tables

  /** The team names of the strength table, in row order. */
  function Names(field: seq<GD.TeamRow>): (names: seq<Team>)
    ensures |names| == |field| && forall i :: 0 <= i < |field| ==> names[i] == field[i].team
  {
    MapSeq(field, GD.Name)
  }

  /** The strengths of the strength table, in row order. */
  function Strengths(field: seq<GD.TeamRow>): (strength: seq<real>)
    ensures |strength| == |field| && forall i :: 0 <= i < |field| ==> strength[i] == field[i].strength
  {
    MapSeq(field, (r: GD.TeamRow) => r.strength)
  }

  /** The strength lookup the group stage uses, keyed by team name: one key per
      name, holding the strength of the last row of that name. */
  function StrengthMap(field: seq<GD.TeamRow>): (m: map<Team, real>)
    ensures m.Keys == set t | t in Names(field)
  {
    map t | t in Names(field) :: LastStrength(field, t)
  }

  /** Strength of the last row named t. */
  function LastStrength(field: seq<GD.TeamRow>, t: Team): real
  {
    if field == [] then 0.0
    else if field[|field| - 1].team == t then field[|field| - 1].strength
    else LastStrength(field[..|field| - 1], t)
  }

  /** The lookup from team name to its row index (a later row wins when a
      name repeats). */
  function IndexMap(names: seq<Team>): map<Team, nat>
  {
    if names == [] then map[] else IndexMap(names[..|names| - 1])[names[|names| - 1] := |names| - 1]
  }

  /** With distinct names, row i's name maps to row i's strength. */
  lemma {:induction false} StrengthMapLookup(field: seq<GD.TeamRow>, i: nat)
    requires Distinct(Names(field)) && i < |field|
    ensures field[i].team in StrengthMap(field) && StrengthMap(field)[field[i].team] == field[i].strength
  {
    LastStrengthLookup(field, i);
  }

  lemma {:induction false} LastStrengthLookup(field: seq<GD.TeamRow>, i: nat)
    requires Distinct(Names(field)) && i < |field|
    ensures LastStrength(field, field[i].team) == field[i].strength
    decreases |field|
  {
    var n := |field|;
    if i < n - 1 {
      var init := field[..n - 1];
      assert Names(init) == Names(field)[..n - 1];
      assert Names(field)[i] != Names(field)[n - 1];
      LastStrengthLookup(init, i);
    }
  }

  /** With distinct names, name i maps to i. */
  lemma {:induction false} IndexMapLookup(names: seq<Team>, i: nat)
    requires Distinct(names) && i < |names|
    ensures names[i] in IndexMap(names) && IndexMap(names)[names[i]] == i
    decreases |names|
  {
    var n := |names|;
    if i < n - 1 {
      assert names[i] != names[n - 1];
      IndexMapLookup(names[..n - 1], i);
    }
  }

  /** Every name of the field is a key of both lookup tables, and its index
      is a row of the field. */
  predicate FieldMapsHold(field: seq<GD.TeamRow>)
  {
    forall t :: t in Names(field) ==>
      t in StrengthMap(field) && t in IndexMap(Names(field)) && IndexMap(Names(field))[t] < |field|
  }

  lemma FieldMaps(field: seq<GD.TeamRow>)
    requires Distinct(Names(field))
    ensures FieldMapsHold(field)
  {
    var names := Names(field);
    forall i | 0 <= i < |names| ensures names[i] in IndexMap(names) && IndexMap(names)[names[i]] < |names| {
      IndexMapLookup(names, i);
    }
  }

  // ---------------------------------------------------------------------------
  // One tournament

  /** The random draws of one run: a shuffle per pot, six scorelines per
      group in group order, the shuffle of the best thirds, and one uniform
      draw per knockout match in playing order. */
  datatype RunDraws = RunDraws(potDraws: seq<seq<nat>>, goals: seq<seq<RR.Score>>,
                               thirdsDraw: seq<nat>, uniforms: seq<real>)

  /** 48 teams with distinct names. */
  predicate ValidField(field: seq<GD.TeamRow>)
  {
    |field| == 48 && Distinct(Names(field))
  }

  predicate ValidRun(field: seq<GD.TeamRow>, d: RunDraws)
  {
    && GD.ValidPotDraws(GD.MakePots(field, 12), d.potDraws)
    && |d.goals| == 12 && (forall g :: 0 <= g < 12 ==> |d.goals[g]| == |RR.FIXTURES|)
    && IsSwapDraw(d.thirdsDraw, 8)
    && |d.uniforms| >= 31
  }

  /** A bracket template names groups 'A' .. 'L' and places 1 or 2. */
  predicate ValidTemplate(template: seq<(char, nat)>)
  {
    forall k :: 0 <= k < |template| ==> 'A' <= template[k].0 <= 'L' && 1 <= template[k].1 <= 2
  }

  lemma DrawnGroupsDistinct(field: seq<GD.TeamRow>, draws: seq<seq<nat>>)
    requires ValidField(field) && GD.ValidPotDraws(GD.MakePots(field, 12), draws)
    ensures forall g :: 0 <= g < 12 ==>
      var group := GD.Column(GD.ShuffledPots(GD.MakePots(field, 12), draws), g);
      && |group| == 4 && Distinct(group) && forall t :: t in group ==> t in Names(field)
  {
    forall g | 0 <= g < 12
      ensures var group := GD.Column(GD.ShuffledPots(GD.MakePots(field, 12), draws), g);
        && |group| == 4 && Distinct(group) && forall t :: t in group ==> t in Names(field)
    {
      GD.FullDrawGroupsDistinct(field, draws, g);
    }
  }

  /** The groups `draw_groups` forms, 'A' .. 'L' in order: four different
      teams of the field each. */
  function DrawnGroups(field: seq<GD.TeamRow>, d: RunDraws): (groups: seq<seq<Team>>)
    requires ValidField(field) && ValidRun(field, d)
    ensures |groups| == 12
    ensures forall g :: 0 <= g < 12 ==>
      |groups[g]| == 4 && Distinct(groups[g]) && forall t :: t in groups[g] ==> t in Names(field)
  {
    DrawnGroupsDistinct(field, d.potDraws);
    seq(12, g requires 0 <= g < 12 => GD.Column(GD.ShuffledPots(GD.MakePots(field, 12), d.potDraws), g))
  }

  lemma TablesShape(groups: seq<seq<Team>>, strength: map<Team, real>, goals: seq<seq<RR.Score>>)
    requires |groups| == 12 && |goals| == 12
    requires forall g :: 0 <= g < 12 ==>
      |groups[g]| == 4 && |goals[g]| == |RR.FIXTURES| && forall t :: t in groups[g] ==> t in strength
    ensures forall g :: 0 <= g < 12 ==>
      var table := GS.GroupTable(groups[g], strength, goals[g]);
      |table| == 4 && forall r :: 0 <= r < 4 ==> table[r].team in groups[g]
  {
    forall g | 0 <= g < 12
      ensures var table := GS.GroupTable(groups[g], strength, goals[g]);
        |table| == 4 && forall r :: 0 <= r < 4 ==> table[r].team in groups[g]
    {
      GS.GroupTablePermutesTeams(groups[g], strength, goals[g]);
      var table := GS.GroupTable(groups[g], strength, goals[g]);
      forall r | 0 <= r < 4 ensures table[r].team in groups[g] {
        assert GS.TeamsOf(table)[r] in multiset(groups[g]);
      }
    }
  }

  /** The twelve tables of `play_group`, group 'A' first. */
  function Tables(field: seq<GD.TeamRow>, d: RunDraws): (tables: seq<seq<GS.Standing>>)
    requires ValidField(field) && ValidRun(field, d)
    ensures |tables| == 12
    ensures forall g :: 0 <= g < 12 ==>
      |tables[g]| == 4 && forall r :: 0 <= r < 4 ==> tables[g][r].team in DrawnGroups(field, d)[g]
  {
    var groups := DrawnGroups(field, d);
    FieldMaps(field);
    TablesShape(groups, StrengthMap(field), d.goals);
    seq(12, g requires 0 <= g < 12 => GS.GroupTable(groups[g], StrengthMap(field), d.goals[g]))
  }

  /** `qualified`: group letter to the first two teams of its table. */
  function Qualified(tables: seq<seq<GS.Standing>>): map<char, seq<Team>>
    requires |tables| == 12 && forall g :: 0 <= g < 12 ==> |tables[g]| >= 2
  {
    QualifiedUpTo(tables, 12)
  }

  /** The qualified teams of the first n groups. */
  function QualifiedUpTo(tables: seq<seq<GS.Standing>>, n: nat): map<char, seq<Team>>
    requires n <= |tables| <= 26 && forall g :: 0 <= g < n ==> |tables[g]| >= 2
  {
    map g | 0 <= g < n :: Label(g) := [tables[g][0].team, tables[g][1].team]
  }

  lemma QualifiedStep(tables: seq<seq<GS.Standing>>, n: nat)
    requires n < |tables| <= 26 && forall g :: 0 <= g <= n ==> |tables[g]| >= 2
    ensures QualifiedUpTo(tables, n + 1) == QualifiedUpTo(tables, n)[Label(n) := [tables[n][0].team, tables[n][1].team]]
  {
  }

  /** `thirds`: each group's third-placed team with its (pts, gd, strength) key. */
  function Thirds(tables: seq<seq<GS.Standing>>, strength: map<Team, real>): (thirds: seq<GS.Ranked>)
    requires |tables| == 12 && forall g :: 0 <= g < 12 ==> |tables[g]| >= 3 && tables[g][2].team in strength
    ensures |thirds| == 12
  {
    seq(12, g requires 0 <= g < 12 => GS.RankedOf(tables[g][2], strength))
  }

  function RankedName(r: GS.Ranked): Team
  {
    r.team
  }

  /** `best_thirds`: the names of the first eight of the thirds sorted best
      first by (pts, gd, strength). */
  function BestThirds(thirds: seq<GS.Ranked>): (best: seq<Team>)
    ensures |best| == GD.Min(8, |thirds|)
  {
    SortPermutes(thirds, GS.Better);
    MapSeq(Sort(thirds, GS.Better)[..GD.Min(8, |thirds|)], RankedName)
  }

  /** The best thirds are the first min(8, n) of the thirds ordered best
      first: each of them is a third, and none of the thirds left out is
      strictly better than any of them. */
  lemma BestThirdsAreBest(thirds: seq<GS.Ranked>)
    ensures var ordered := Sort(thirds, GS.Better);
      var m := GD.Min(8, |thirds|);
      && multiset(ordered) == multiset(thirds) && m <= |ordered|
      && (forall k :: 0 <= k < m ==> BestThirds(thirds)[k] == ordered[k].team)
      && (forall k, l :: 0 <= k < l < m ==> !GS.Better(ordered[l], ordered[k]))
      && (forall x, y :: x in ordered[..m] && y in ordered[m..] ==> !GS.Better(y, x))
  {
    SortPermutes(thirds, GS.Better);
    GS.BetterIsStrictWeakOrder();
    SortSorted(thirds, GS.Better);
    SortedPrefixDominates(Sort(thirds, GS.Better), GD.Min(8, |thirds|), GS.Better);
  }

  /** A template over groups 'A' .. 'L' and places 1, 2 can always be read
      off the qualified teams. */
  lemma QualifiedFitsTemplate(tables: seq<seq<GS.Standing>>, template: seq<(char, nat)>)
    requires |tables| == 12 && forall g :: 0 <= g < 12 ==> |tables[g]| >= 2
    requires ValidTemplate(template)
    ensures TemplateFits(Qualified(tables), template)
  {
    forall k | 0 <= k < |template|
      ensures template[k].0 in Qualified(tables) && 1 <= template[k].1 <= |Qualified(tables)[template[k].0]|
    {
      var g := template[k].0 as int - 'A' as int;
      assert Label(g) == template[k].0;
    }
  }

  /** The R32 bracket of a run, as `_knockout_bracket` builds it. */
  function RunBracket(field: seq<GD.TeamRow>, template: seq<(char, nat)>, d: RunDraws): Result<seq<Team>, string>
    requires ValidField(field) && ValidTemplate(template) && ValidRun(field, d)
  {
    var tables := Tables(field, d);
    FieldMaps(field);
    QualifiedFitsTemplate(tables, template);
    Bracket(Qualified(tables), BestThirds(Thirds(tables, StrengthMap(field))), d.thirdsDraw, template)
  }

  /** The champion of one run, or the error that ends it. */
  function RunChampion(field: seq<GD.TeamRow>, home: (real, real) -> real, template: seq<(char, nat)>,
                       d: RunDraws): Result<Team, string>
    requires ValidField(field) && ValidTemplate(template) && ValidRun(field, d)
  {
    match RunBracket(field, template, d)
    case Err(e) => Err(e)
    case Ok(slots) => Outcome(slots, d.uniforms, MatrixProb(WinTable(Strengths(field), home), IndexMap(Names(field))))
  }

  /** Slots read off the tables hold teams of the tables. */
  lemma BracketFromTables(tables: seq<seq<GS.Standing>>, strength: map<Team, real>, template: seq<(char, nat)>,
                          draw: seq<nat>, pool: seq<Team>)
    requires |tables| == 12
    requires forall g :: 0 <= g < 12 ==> |tables[g]| == 4 && forall r :: 0 <= r < 4 ==> tables[g][r].team in pool
    requires forall g :: 0 <= g < 12 ==> tables[g][2].team in strength
    requires TemplateFits(Qualified(tables), template) && IsSwapDraw(draw, 8)
    ensures var b := Bracket(Qualified(tables), BestThirds(Thirds(tables, strength)), draw, template);
      b.Ok? ==> forall t :: t in b.value ==> t in pool
  {
    var q := Qualified(tables);
    var thirds := Thirds(tables, strength);
    var best := BestThirds(thirds);
    BracketShape(q, best, draw, template);
    forall k | 0 <= k < |template| ensures TemplateSlots(q, template)[k] in pool {
      var g := template[k].0 as int - 'A' as int;
      assert Label(g) == template[k].0;
    }
    BestThirdsFromTables(tables, strength, pool);
    ShufflePermutes(best, draw);
  }

  /** The best thirds are third-placed teams of the tables. */
  lemma BestThirdsFromTables(tables: seq<seq<GS.Standing>>, strength: map<Team, real>, pool: seq<Team>)
    requires |tables| == 12
    requires forall g :: 0 <= g < 12 ==> |tables[g]| == 4 && tables[g][2].team in pool && tables[g][2].team in strength
    ensures forall t :: t in BestThirds(Thirds(tables, strength)) ==> t in pool
  {
    var thirds := Thirds(tables, strength);
    var best := BestThirds(thirds);
    BestThirdsAreBest(thirds);
    var ordered := Sort(thirds, GS.Better);
    forall t | t in best ensures t in pool {
      var j :| 0 <= j < 8 && best[j] == t;
      assert ordered[j] in multiset(thirds);
      var h :| 0 <= h < 12 && thirds[h] == ordered[j];
    }
  }

  /** A run's bracket exists exactly when the template has 24 slots, and
      then every slot holds a team of the field. */
  lemma RunBracketTeams(field: seq<GD.TeamRow>, template: seq<(char, nat)>, d: RunDraws)
    requires ValidField(field) && ValidTemplate(template) && ValidRun(field, d)
    ensures RunBracket(field, template, d).Ok? <==> |template| == 24
    ensures RunBracket(field, template, d).Ok? ==>
      |RunBracket(field, template, d).value| == 32 &&
      forall t :: t in RunBracket(field, template, d).value ==> t in Names(field)
  {
    var tables := Tables(field, d);
    FieldMaps(field);
    QualifiedFitsTemplate(tables, template);
    var thirds := Thirds(tables, StrengthMap(field));
    BracketShape(Qualified(tables), BestThirds(thirds), d.thirdsDraw, template);
    BracketFromTables(tables, StrengthMap(field), template, d.thirdsDraw, Names(field));
  }

  /** A run crowns a champion exactly when the template has 24 slots (24
      group winners and runners-up plus 8 thirds make the 32 the knockout
      needs), and the champion is then a team of the field. */
  lemma RunChampionOk(field: seq<GD.TeamRow>, home: (real, real) -> real, template: seq<(char, nat)>, d: RunDraws)
    requires ValidField(field) && ValidTemplate(template) && ValidRun(field, d)
    ensures RunChampion(field, home, template, d).Ok? <==> |template| == 24
    ensures RunChampion(field, home, template, d).Ok? ==> RunChampion(field, home, template, d).value in Names(field)
  {
    RunBracketTeams(field, template, d);
    if |template| == 24 {
      var slots := RunBracket(field, template, d).value;
      var p := MatrixProb(WinTable(Strengths(field), home), IndexMap(Names(field)));
      Pow2Of32();
      OutcomeIsChampion(slots, d.uniforms, p);
      ChampionInBracket(slots, d.uniforms, p);
    }
  }

  /** Step 2 of a run: `play_group` for every group in the dictionary's
      order 'A' .. 'L'. */
  method PlayGroups(groups: map<char, seq<Team>>, ghost members: seq<seq<Team>>, strength: map<Team, real>,
                    goals: seq<seq<RR.Score>>)
    returns (results: map<char, seq<GS.Standing>>)
    requires |members| == 12 && |goals| == 12
    requires forall g :: 0 <= g < 12 ==> Label(g) in groups && groups[Label(g)] == members[g]
    requires forall g :: 0 <= g < 12 ==> |members[g]| == 4 && Distinct(members[g]) && |goals[g]| == |RR.FIXTURES|
    requires forall g :: 0 <= g < 12 ==> forall t :: t in members[g] ==> t in strength
    ensures forall g :: 0 <= g < 12 ==>
      Label(g) in results && results[Label(g)] == GS.GroupTable(members[g], strength, goals[g])
  {
    results := map[];
    var g := 0;
    while g < 12
      invariant 0 <= g <= 12
      invariant forall h :: 0 <= h < g ==>
        Label(h) in results && results[Label(h)] == GS.GroupTable(members[h], strength, goals[h])
    {
      var table := GS.PlayGroup(groups[Label(g)], strength, goals[g]);
      results := results[Label(g) := table];
      g := g + 1;
    }
  }

  /** Step 3 of a run: the first two of every table qualify, and every
      group's third is kept with its tie-break key. */
  method Qualify(results: map<char, seq<GS.Standing>>, ghost tables: seq<seq<GS.Standing>>, strength: map<Team, real>)
    returns (qualified: map<char, seq<Team>>, thirds: seq<GS.Ranked>)
    requires |tables| == 12
    requires forall g :: 0 <= g < 12 ==> Label(g) in results && results[Label(g)] == tables[g]
    requires forall g :: 0 <= g < 12 ==> |tables[g]| == 4 && tables[g][2].team in strength
    ensures qualified == Qualified(tables)
    ensures thirds == Thirds(tables, strength)
  {
    qualified := map[];
    thirds := [];
    var g := 0;
    while g < 12
      invariant 0 <= g <= 12
      invariant qualified == QualifiedUpTo(tables, g)
      invariant |thirds| == g && forall h :: 0 <= h < g ==> thirds[h] == GS.RankedOf(tables[h][2], strength)
    {
      var table := results[Label(g)];
      QualifiedStep(tables, g);
      qualified := qualified[Label(g) := [table[0].team, table[1].team]];
      thirds := thirds + [GS.Ranked(table[2].team, table[2].pts, table[2].gd, strength[table[2].team])];
      g := g + 1;
    }
  }

  /** One pass of the loop of `simulate_many`: draw, play the groups,
      qualify, build the bracket and play the knockout. */
  method PlayRun(field: seq<GD.TeamRow>, home: (real, real) -> real, template: seq<(char, nat)>,
                 pots: seq<seq<GD.TeamRow>>, strength: map<Team, real>, P: array2<real>, idx: map<Team, nat>,
                 d: RunDraws)
    returns (r: Result<Team, string>)
    requires ValidField(field) && ValidTemplate(template) && ValidRun(field, d)
    requires pots == GD.MakePots(field, 12) && strength == StrengthMap(field) && idx == IndexMap(Names(field))
    requires P.Length0 == 48 && P.Length1 == 48 && Rows(P) == WinTable(Strengths(field), home)
    ensures r == RunChampion(field, home, template, d)
  {
    var qualified, thirds := GroupPhase(field, d, pots, strength);
    FieldMaps(field);
    r := KnockoutPhase(field, home, template, d, qualified, thirds, P, idx);
  }

  /** Steps 1 to 3 of a run: the draw, the twelve groups and qualification. */
  method GroupPhase(field: seq<GD.TeamRow>, d: RunDraws, pots: seq<seq<GD.TeamRow>>, strength: map<Team, real>)
    returns (qualified: map<char, seq<Team>>, thirds: seq<GS.Ranked>)
    requires ValidField(field) && ValidRun(field, d)
    requires pots == GD.MakePots(field, 12) && strength == StrengthMap(field)
    ensures qualified == Qualified(Tables(field, d))
    ensures thirds == Thirds(Tables(field, d), strength)
  {
    var groups := GD.DrawGroups(pots, d.potDraws);
    ghost var members := DrawnGroups(field, d);
    ghost var tables := Tables(field, d);
    assert forall g :: 0 <= g < 12 ==> groups[Label(g)] == members[g];
    assert forall g :: 0 <= g < 12 ==> tables[g] == GS.GroupTable(members[g], strength, d.goals[g]);
    FieldMaps(field);
    var results := PlayGroups(groups, members, strength, d.goals);
    qualified, thirds := Qualify(results, tables, strength);
  }

  /** Step 4 of a run: the bracket and the knockout. */
  method KnockoutPhase(field: seq<GD.TeamRow>, home: (real, real) -> real, template: seq<(char, nat)>, d: RunDraws,
                       qualified: map<char, seq<Team>>, thirds: seq<GS.Ranked>, P: array2<real>, idx: map<Team, nat>)
    returns (r: Result<Team, string>)
    requires ValidField(field) && ValidTemplate(template) && ValidRun(field, d)
    requires qualified == Qualified(Tables(field, d))
    requires FieldMapsHold(field) && thirds == Thirds(Tables(field, d), StrengthMap(field))
    requires idx == IndexMap(Names(field))
    requires P.Length0 == 48 && P.Length1 == 48 && Rows(P) == WinTable(Strengths(field), home)
    ensures r == RunChampion(field, home, template, d)
  {
    var best := BestThirds(thirds);
    var bestArray := new Team[8](i requires 0 <= i < 8 => best[i]);
    assert bestArray[..] == best;
    QualifiedFitsTemplate(Tables(field, d), template);
    var bracket := KnockoutBracket(qualified, bestArray, d.thirdsDraw, template);
    assert bracket == RunBracket(field, template, d);
    RunBracketTeams(field, template, d);
    if bracket.Err? {
      r := Err(bracket.error);
    } else {
      FieldMaps(field);
      r := SimulateKnockout(bracket.value, P, idx, d.uniforms);
    }
  }

  // ---------------------------------------------------------------------------
  // simulate_many

  predicate ValidRuns(field: seq<GD.TeamRow>, runs: seq<RunDraws>)
  {
    forall i :: 0 <= i < |runs| ==> ValidRun(field, runs[i])
  }

  /** The outcome of every run, in order. */
  function RunResults(field: seq<GD.TeamRow>, home: (real, real) -> real, template: seq<(char, nat)>,
                      runs: seq<RunDraws>): (rs: seq<Result<Team, string>>)
    requires ValidField(field) && ValidTemplate(template) && ValidRuns(field, runs)
    ensures |rs| == |runs|
  {
    seq(|runs|, i requires 0 <= i < |runs| => RunChampion(field, home, template, runs[i]))
  }

  /** The champions of the runs in order, or the error that stops the loop. */
  function Champions(field: seq<GD.TeamRow>, home: (real, real) -> real, template: seq<(char, nat)>,
                     runs: seq<RunDraws>): Result<seq<Team>, string>
    requires ValidField(field) && ValidTemplate(template) && ValidRuns(field, runs)
  {
    Collect(RunResults(field, home, template, runs))
  }

  /** The loop finishes exactly when there are no runs or every run reaches a
      champion, which is when the template has 24 slots; then there is one
      champion per run, each a team of the field. */
  lemma ChampionsOk(field: seq<GD.TeamRow>, home: (real, real) -> real, template: seq<(char, nat)>,
                    runs: seq<RunDraws>)
    requires ValidField(field) && ValidTemplate(template) && ValidRuns(field, runs)
    ensures Champions(field, home, template, runs).Ok? <==> (|runs| == 0 || |template| == 24)
    ensures Champions(field, home, template, runs).Ok? ==>
      |Champions(field, home, template, runs).value| == |runs| &&
      forall t :: t in Champions(field, home, template, runs).value ==> t in Names(field)
  {
    var rs := RunResults(field, home, template, runs);
    forall i | 0 <= i < |runs|
      ensures rs[i].Ok? <==> |template| == 24
      ensures rs[i].Ok? ==> rs[i].value in Names(field)
    {
      RunChampionOk(field, home, template, runs[i]);
    }
    CollectOk(rs);
    if |runs| > 0 && |template| != 24 {
      assert !rs[0].Ok?;
    }
  }

  /** The result table: team, share of the runs it won. */
  function ChampionTable(names: seq<Team>, champs: seq<Team>, n: nat): (rows: seq<(Team, real)>)
    requires n > 0
    ensures |rows| == |names|
  {
    seq(|names|, i requires 0 <= i < |names| => (names[i], multiset(champs)[names[i]] as real / n as real))
  }

  function Prob(row: (Team, real)): real
  {
    row.1
  }

  /** The order of the result table: a higher share of titles goes first. */
  predicate HigherProb(a: (Team, real), b: (Team, real))
  {
    a.1 > b.1
  }

  lemma HigherProbIsStrictWeakOrder()
    ensures StrictWeakOrder(HigherProb)
  {
  }

  /** One champion per run, each among the names: the shares add up to 1. */
  lemma ChampionTableSumsToOne(names: seq<Team>, champs: seq<Team>, n: nat)
    requires n > 0 && |champs| == n && Distinct(names) && forall t :: t in champs ==> t in names
    ensures SumReals(MapSeq(ChampionTable(names, champs, n), Prob)) == 1.0
  {
    SharesAreScaledCounts(names, champs, n);
    CountsSumToLength(names, champs);
    FractionsSumToOne(Counts(names, multiset(champs)), n);
  }

  lemma SharesAreScaledCounts(names: seq<Team>, champs: seq<Team>, n: nat)
    requires n > 0
    ensures MapSeq(ChampionTable(names, champs, n), Prob) == Scaled(Counts(names, multiset(champs)), n as real)
  {
    var shares := MapSeq(ChampionTable(names, champs, n), Prob);
    var scaled := Scaled(Counts(names, multiset(champs)), n as real);
    forall i | 0 <= i < |names| ensures shares[i] == scaled[i] {
    }
  }

  /** `simulate_many`: `n_runs` tournaments, a tally of champions, and the
      table of winning shares, most likely champion first.  It fails with the
      bracket's assertion exactly when the loop does. */
  method SimulateMany(field: seq<GD.TeamRow>, home: (real, real) -> real, template: seq<(char, nat)>,
                      runs: seq<RunDraws>)
    returns (r: Result<seq<(Team, real)>, string>)
    requires ValidField(field) && ValidTemplate(template) && ValidRuns(field, runs) && |runs| >= 1
    ensures r.Err? <==> Champions(field, home, template, runs).Err?
    ensures r.Ok? ==>
      && multiset(r.value) == multiset(ChampionTable(Names(field), Champions(field, home, template, runs).value, |runs|))
      && Sorted(r.value, HigherProb)
      && SumReals(MapSeq(r.value, Prob)) == 1.0
  {
    var teams := Names(field);
    var idx := IndexMap(teams);
    var P := WinMatrix(Strengths(field), home);
    var tally := TallyChampions(field, home, template, runs, P, idx);
    if tally.Err? {
      return Err(tally.error);
    }
    var winCount := tally.value;
    ghost var champs := Champions(field, home, template, runs).value;
    ChampionsOk(field, home, template, runs);
    var rows := ShareRows(teams, winCount, |runs|);
    TalliedRows(teams, winCount, champs, |runs|);
    SortedTable(teams, champs, |runs|);
    r := Ok(Sort(rows, HigherProb));
  }

  /** One row per team: the team and its number of titles divided by the
      number of runs. */
  function ShareRows(teams: seq<Team>, winCount: map<Team, int>, n: nat): (rows: seq<(Team, real)>)
    requires n > 0 && forall t :: t in teams ==> t in winCount
  {
    seq(|teams|, i requires 0 <= i < |teams| => (teams[i], winCount[teams[i]] as real / n as real))
  }

  /** A tally of the champions gives the champion table. */
  lemma TalliedRows(teams: seq<Team>, winCount: map<Team, int>, champs: seq<Team>, n: nat)
    requires n > 0 && forall t :: t in teams ==> t in winCount && winCount[t] == multiset(champs)[t]
    ensures ShareRows(teams, winCount, n) == ChampionTable(teams, champs, n)
  {
  }

  /** The sorted champion table keeps its rows, is ordered by share, and its
      shares add up to 1. */
  lemma SortedTable(names: seq<Team>, champs: seq<Team>, n: nat)
    requires n > 0 && |champs| == n && Distinct(names) && forall t :: t in champs ==> t in names
    ensures var ordered := Sort(ChampionTable(names, champs, n), HigherProb);
      && multiset(ordered) == multiset(ChampionTable(names, champs, n))
      && Sorted(ordered, HigherProb)
      && SumReals(MapSeq(ordered, Prob)) == 1.0
  {
    SortedShares(ChampionTable(names, champs, n));
    ChampionTableSumsToOne(names, champs, n);
  }

  /** The sorted table is a permutation of the table, ordered, and its
      shares have the same sum. */
  lemma SortedShares(rows: seq<(Team, real)>)
    ensures multiset(Sort(rows, HigherProb)) == multiset(rows)
    ensures Sorted(Sort(rows, HigherProb), HigherProb)
    ensures SumReals(MapSeq(Sort(rows, HigherProb), Prob)) == SumReals(MapSeq(rows, Prob))
  {
    var ordered := Sort(rows, HigherProb);
    SortPermutes(rows, HigherProb);
    HigherProbIsStrictWeakOrder();
    SortSorted(rows, HigherProb);
    MapSeqPermutes(ordered, rows, Prob);
    SumRealsPermutes(MapSeq(ordered, Prob), MapSeq(rows, Prob));
  }

  /** The loop of `simulate_many`: each run's champion gains one title in
      the tally. */
  method TallyChampions(field: seq<GD.TeamRow>, home: (real, real) -> real, template: seq<(char, nat)>,
                        runs: seq<RunDraws>, P: array2<real>, idx: map<Team, nat>)
    returns (r: Result<map<Team, int>, string>)
    requires ValidField(field) && ValidTemplate(template) && ValidRuns(field, runs)
    requires idx == IndexMap(Names(field))
    requires P.Length0 == 48 && P.Length1 == 48 && Rows(P) == WinTable(Strengths(field), home)
    ensures r.Err? <==> Champions(field, home, template, runs).Err?
    ensures r.Ok? ==> forall t :: t in Names(field) ==>
      t in r.value && r.value[t] == multiset(Champions(field, home, template, runs).value)[t]
  {
    var teams := Names(field);
    var winCount := map t | t in teams :: 0;
    var pots := GD.MakePots(field, 12);
    var strength := StrengthMap(field);
    ghost var rs := RunResults(field, home, template, runs);
    ghost var champs: seq<Team> := [];
    var n := 0;
    while n < |runs|
      invariant 0 <= n <= |runs|
      invariant Collect(rs[..n]) == Ok(champs)
      invariant forall t :: t in teams ==> t in winCount && winCount[t] == multiset(champs)[t]
    {
      var champ := PlayRun(field, home, template, pots, strength, P, idx, runs[n]);
      assert champ == rs[n];
      CollectStep(rs, n);
      if champ.Err? {
        CollectErr(rs, n);
        return Err(champ.error);
      }
      RunChampionOk(field, home, template, runs[n]);
      TallyStep(teams, winCount, champs, champ.value);
      winCount := winCount[champ.value := winCount[champ.value] + 1];
      champs := champs + [champ.value];
      n := n + 1;
    }
    assert rs[..n] == rs;
    r := Ok(winCount);
  }

  /** Adding one title for the latest champion keeps the tally of the
      champions so far. */
  lemma TallyStep(teams: seq<Team>, winCount: map<Team, int>, champs: seq<Team>, c: Team)
    requires c in teams && forall t :: t in teams ==> t in winCount && winCount[t] == multiset(champs)[t]
    ensures forall t :: t in teams ==>
      t in winCount[c := winCount[c] + 1] && winCount[c := winCount[c] + 1][t] == multiset(champs + [c])[t]
  {
  }

  /** As written, with the 16-slot template, every call of `simulate_many`
      fails: the bracket holds 16 + 8 = 24 teams, not 32. */
  lemma AsWrittenSimulateManyFails(field: seq<GD.TeamRow>, home: (real, real) -> real, runs: seq<RunDraws>)
    requires ValidField(field) && ValidRuns(field, runs) && |runs| >= 1
    ensures ValidTemplate(BRACKET_ORDER)
    ensures Champions(field, home, BRACKET_ORDER, runs).Err?
  {
    BracketOrderCoversAToH();
    ChampionsOk(field, home, BRACKET_ORDER, runs);
  }

  /** With the corrected 24-slot template every run crowns a champion of the
      field. */
  lemma CorrectedSimulateManySucceeds(field: seq<GD.TeamRow>, home: (real, real) -> real, runs: seq<RunDraws>)
    requires ValidField(field) && ValidRuns(field, runs)
    ensures ValidTemplate(FULL_BRACKET_ORDER)
    ensures Champions(field, home, FULL_BRACKET_ORDER, runs).Ok?
    ensures |Champions(field, home, FULL_BRACKET_ORDER, runs).value| == |runs|
  {
    FullBracketOrderCoversAll();
    ChampionsOk(field, home, FULL_BRACKET_ORDER, runs);
  }
}
