/** Vig stripping, src/core/vig.py: decimal odds become implied probabilities
    (their reciprocals), which are rescaled to add up to 1, either across the
    home / away / draw prices of one head-to-head row or across every outright
    price of one bookmaker.  A spreadsheet cell is a Value; floating point is
    modelled by `real`. */
module Vig {
  import opened Common
  import opened Sorting

  /** A cell of a pandas row: NaN, a number, or text. */
  datatype Value = Missing | Num(x: real) | Text(s: string)

  /** `decimal_to_prob`: the probability a decimal price implies. */
  function DecimalToProb(decimal: real): (p: real)
    requires decimal != 0.0
    ensures p * decimal == 1.0
  {
    1.0 / decimal
  }

  /** Even money, 2.0, implies a probability of one half. */
  lemma EvenMoneyIsHalf()
    ensures DecimalToProb(2.0) == 0.5
  {
  }

  /** The implied probability of every price. */
  function Reciprocals(odds: seq<real>): (ps: seq<real>)
    requires forall i :: 0 <= i < |odds| ==> odds[i] != 0.0
    ensures |ps| == |odds| && forall i :: 0 <= i < |odds| ==> ps[i] == DecimalToProb(odds[i])
  {
    seq(|odds|, i requires 0 <= i < |odds| => DecimalToProb(odds[i]))
  }

  /** Every probability divided by their common sum. */
  function Normalise(ps: seq<real>): (adj: seq<real>)
    requires SumReals(ps) != 0.0
    ensures |adj| == |ps|
  {
    seq(|ps|, i requires 0 <= i < |ps| => ps[i] / SumReals(ps))
  }

  lemma {:induction false} DividedSum(ps: seq<real>, d: real)
    requires d != 0.0
    ensures SumReals(seq(|ps|, i requires 0 <= i < |ps| => ps[i] / d)) == SumReals(ps) / d
    decreases |ps|
  {
    if ps != [] {
      var init := ps[..|ps| - 1];
      DividedSum(init, d);
      assert seq(|ps|, i requires 0 <= i < |ps| => ps[i] / d)[..|ps| - 1]
          == seq(|init|, i requires 0 <= i < |init| => init[i] / d);
      AddQuotients(SumReals(init), ps[|ps| - 1], d);
    }
  }

  /** The rescaled probabilities add up to 1. */
  lemma NormaliseSumsToOne(ps: seq<real>)
    requires SumReals(ps) != 0.0
    ensures SumReals(Normalise(ps)) == 1.0
  {
    var total := SumReals(ps);
    DividedSum(ps, total);
    assert Normalise(ps) == seq(|ps|, i requires 0 <= i < |ps| => ps[i] / total);
    assert total / total == 1.0;
  }

  /** p is a divided by t. */
  predicate ShareOf(p: real, a: real, t: real)
  {
    p * t == a
  }

  /** p and q stand in the ratio a : b. */
  predicate SameRatio(p: real, q: real, a: real, b: real)
  {
    p * b == q * a
  }

  /** Every rescaled entry times the sum gives back the entry. */
  lemma NormaliseTimesTotal(ps: seq<real>)
    requires SumReals(ps) != 0.0
    ensures forall i :: 0 <= i < |ps| ==> ShareOf(Normalise(ps)[i], ps[i], SumReals(ps))
  {
    var t := SumReals(ps);
    var adj := Normalise(ps);
    forall i | 0 <= i < |ps| ensures ShareOf(adj[i], ps[i], t) {
      QuotientTimes(adj[i], ps[i], t);
    }
  }

  /** Rescaling keeps ratios: every entry is divided by the same sum. */
  lemma NormaliseKeepsRatios(ps: seq<real>)
    requires SumReals(ps) != 0.0
    ensures forall i, j :: 0 <= i < |ps| && 0 <= j < |ps| ==> SameRatio(Normalise(ps)[i], Normalise(ps)[j], ps[i], ps[j])
  {
    var t := SumReals(ps);
    var adj := Normalise(ps);
    forall i, j | 0 <= i < |ps| && 0 <= j < |ps| ensures SameRatio(adj[i], adj[j], ps[i], ps[j]) {
      CrossRatio(adj[i], adj[j], ps[i], ps[j], t);
    }
  }

  lemma QuotientTimes(p: real, a: real, t: real)
    requires t != 0.0 && p == a / t
    ensures ShareOf(p, a, t)
  {
  }

  /** p = a / t and q = b / t stand in the same ratio as a and b. */
  lemma CrossRatio(p: real, q: real, a: real, b: real, t: real)
    requires t != 0.0 && p == a / t && q == b / t
    ensures SameRatio(p, q, a, b)
  {
    QuotientTimes(p, a, t);
    QuotientTimes(q, b, t);
    calc {
      p * b;
      p * (q * t);
      { SameScale(p, q, t); }
      q * (p * t);
      q * a;
    }
  }

  lemma SameScale(p: real, q: real, t: real)
    ensures p * (q * t) == q * (p * t)
  {
  }

  // ---------------------------------------------------------------------------
  // strip_vig_h2h

  /** The price columns, in the order both loops visit them, and the
      probability columns that go with them ("_odds" becomes "_prob"). */
  const ODDS_COLS: seq<string> := ["home_odds", "away_odds", "draw_odds"]
  const PROB_COLS: seq<string> := ["home_prob", "away_prob", "draw_prob"]

  function OddsCol(k: nat): string
    requires k < 3
  {
    ODDS_COLS[k]
  }

  function ProbCol(k: nat): string
    requires k < 3
  {
    PROB_COLS[k]
  }

  /** Each probability column is the price column with "_odds" replaced by
      "_prob", and the six names are pairwise different. */
  lemma ColumnsDiffer()
    ensures forall k :: 0 <= k < 3 ==>
      |OddsCol(k)| > 5 && OddsCol(k)[|OddsCol(k)| - 5..] == "_odds" &&
      ProbCol(k) == OddsCol(k)[..|OddsCol(k)| - 5] + "_prob"
    ensures forall j, k :: 0 <= j < 3 && 0 <= k < 3 ==> OddsCol(j) != ProbCol(k)
    ensures forall j, k :: 0 <= j < 3 && 0 <= k < 3 && j != k ==> ProbCol(j) != ProbCol(k) && OddsCol(j) != OddsCol(k)
  {
  }

  /** Every price column exists and holds a number or NaN. */
  predicate OddsColumnsOk(cells: map<string, Value>)
  {
    forall k :: 0 <= k < 3 ==> OddsCol(k) in cells && !cells[OddsCol(k)].Text?
  }

  /** No price is 0 (its reciprocal would be infinite). */
  predicate NonZeroOdds(cells: map<string, Value>)
  {
    forall k :: 0 <= k < 3 && OddsCol(k) in cells && cells[OddsCol(k)].Num? ==> cells[OddsCol(k)].x != 0.0
  }

  /** `odds`: the non-missing prices among the first k columns, in column order. */
  function Present(cells: map<string, Value>, k: nat): (odds: seq<real>)
    requires OddsColumnsOk(cells) && k <= 3
    ensures |odds| <= k
  {
    if k == 0 then []
    else Present(cells, k - 1) + (if cells[OddsCol(k - 1)].Num? then [cells[OddsCol(k - 1)].x] else [])
  }

  lemma {:induction false} PresentNonZero(cells: map<string, Value>, k: nat)
    requires OddsColumnsOk(cells) && NonZeroOdds(cells) && k <= 3
    ensures forall i :: 0 <= i < |Present(cells, k)| ==> Present(cells, k)[i] != 0.0
  {
    if k > 0 {
      PresentNonZero(cells, k - 1);
    }
  }

  /** A present price j sits in `odds` at the running index i the write loop
      has reached when it visits column j: the number of present columns
      before it. */
  lemma {:induction false} PresentIndex(cells: map<string, Value>, j: nat, k: nat)
    requires OddsColumnsOk(cells) && j < k <= 3 && cells[OddsCol(j)].Num?
    ensures |Present(cells, j)| < |Present(cells, k)|
    ensures Present(cells, k)[|Present(cells, j)|] == cells[OddsCol(j)].x
    decreases k
  {
    if j < k - 1 {
      PresentIndex(cells, j, k - 1);
    }
  }

  /** The row after the write loop has visited the first k columns. */
  function Written(cells: map<string, Value>, adj: seq<real>, k: nat): map<string, Value>
    requires OddsColumnsOk(cells) && k <= 3 && |Present(cells, k)| <= |adj|
    decreases k
  {
    if k == 0 then cells
    else
      var m := Written(cells, adj, k - 1);
      if cells[OddsCol(k - 1)].Num? then m[ProbCol(k - 1) := Num(adj[|Present(cells, k - 1)|])] else m
  }

  /** Column j is one the write loop fills: among the first k, present. */
  predicate Fills(cells: map<string, Value>, key: string, k: nat)
    requires OddsColumnsOk(cells) && k <= 3
  {
    exists j :: 0 <= j < k && key == ProbCol(j) && cells[OddsCol(j)].Num?
  }

  /** The write loop puts adj[i] into the probability column of the i-th
      present price and touches nothing else. */
  lemma WrittenCells(cells: map<string, Value>, adj: seq<real>, k: nat)
    requires OddsColumnsOk(cells) && k <= 3 && |Present(cells, k)| <= |adj|
    ensures forall j :: 0 <= j < k && cells[OddsCol(j)].Num? ==>
      && |Present(cells, j)| < |Present(cells, k)|
      && ProbCol(j) in Written(cells, adj, k) && Written(cells, adj, k)[ProbCol(j)] == Num(adj[|Present(cells, j)|])
    ensures forall key :: key in Written(cells, adj, k) <==> key in cells || Fills(cells, key, k)
    ensures forall key :: key in cells && !Fills(cells, key, k) ==> Written(cells, adj, k)[key] == cells[key]
  {
    WrittenFilled(cells, adj, k);
    WrittenKeeps(cells, adj, k);
  }

  lemma {:induction false} WrittenFilled(cells: map<string, Value>, adj: seq<real>, k: nat)
    requires OddsColumnsOk(cells) && k <= 3 && |Present(cells, k)| <= |adj|
    ensures forall j :: 0 <= j < k && cells[OddsCol(j)].Num? ==>
      && |Present(cells, j)| < |Present(cells, k)|
      && ProbCol(j) in Written(cells, adj, k) && Written(cells, adj, k)[ProbCol(j)] == Num(adj[|Present(cells, j)|])
    decreases k
  {
    if k > 0 {
      WrittenFilled(cells, adj, k - 1);
      ColumnsDiffer();
      forall j | 0 <= j < k && cells[OddsCol(j)].Num? ensures |Present(cells, j)| < |Present(cells, k)| {
        PresentIndex(cells, j, k);
      }
    }
  }

  lemma {:induction false} WrittenKeeps(cells: map<string, Value>, adj: seq<real>, k: nat)
    requires OddsColumnsOk(cells) && k <= 3 && |Present(cells, k)| <= |adj|
    ensures forall key :: key in Written(cells, adj, k) <==> key in cells || Fills(cells, key, k)
    ensures forall key :: key in cells && !Fills(cells, key, k) ==> Written(cells, adj, k)[key] == cells[key]
    decreases k
  {
    if k > 0 {
      WrittenKeeps(cells, adj, k - 1);
      FillsStep(cells, k);
    }
  }

  lemma FillsStep(cells: map<string, Value>, k: nat)
    requires OddsColumnsOk(cells) && 0 < k <= 3
    ensures forall key :: Fills(cells, key, k) <==> Fills(cells, key, k - 1) || (key == ProbCol(k - 1) && cells[OddsCol(k - 1)].Num?)
  {
    forall key ensures Fills(cells, key, k) <==> Fills(cells, key, k - 1) || (key == ProbCol(k - 1) && cells[OddsCol(k - 1)].Num?) {
      if Fills(cells, key, k) {
        var j :| 0 <= j < k && key == ProbCol(j) && cells[OddsCol(j)].Num?;
        assert j < k - 1 ==> Fills(cells, key, k - 1);
      }
    }
  }

  /** `strip_vig_h2h` on a row given as its cells: fails like the source when
      a price column is absent (KeyError, raised while `odds` is collected) or
      holds text (TypeError, raised by decimal_to_prob); returns the row
      untouched when the reciprocals add up to 0; otherwise fills the
      probability columns of the present prices with the rescaled values. */
  function StripVigH2H(cells: map<string, Value>): Result<map<string, Value>, string>
    requires NonZeroOdds(cells)
  {
    if exists k :: 0 <= k < 3 && OddsCol(k) !in cells then Err("KeyError")
    else if exists k :: 0 <= k < 3 && cells[OddsCol(k)].Text? then Err("TypeError")
    else
      PresentNonZero(cells, 3);
      var probs := Reciprocals(Present(cells, 3));
      if SumReals(probs) == 0.0 then Ok(cells)
      else Ok(Written(cells, Normalise(probs), 3))
  }

  /** The row is rejected exactly when a price column is absent or not numeric. */
  lemma H2HFails(cells: map<string, Value>)
    requires NonZeroOdds(cells)
    ensures StripVigH2H(cells).Err? <==> !OddsColumnsOk(cells)
    ensures StripVigH2H(cells) == Err("KeyError") <==> exists k :: 0 <= k < 3 && OddsCol(k) !in cells
  {
  }

  /** With no usable reciprocals (their sum is 0; in particular when every
      price is missing) the row comes back as it was. */
  lemma H2HZeroSumUnchanged(cells: map<string, Value>)
    requires NonZeroOdds(cells) && OddsColumnsOk(cells)
    requires (PresentNonZero(cells, 3); SumReals(Reciprocals(Present(cells, 3))) == 0.0)
    ensures StripVigH2H(cells) == Ok(cells)
  {
  }

  lemma {:induction false} AllMissingSumsToZero(cells: map<string, Value>, k: nat)
    requires OddsColumnsOk(cells) && k <= 3
    requires forall j :: 0 <= j < k ==> cells[OddsCol(j)].Missing?
    ensures Present(cells, k) == []
  {
    if k > 0 {
      AllMissingSumsToZero(cells, k - 1);
    }
  }

  /** The sum of the reciprocals is 0 when every price is missing. */
  lemma H2HAllMissingUnchanged(cells: map<string, Value>)
    requires forall k :: 0 <= k < 3 ==> OddsCol(k) in cells && cells[OddsCol(k)].Missing?
    ensures StripVigH2H(cells) == Ok(cells)
  {
    AllMissingSumsToZero(cells, 3);
  }

  /** Otherwise each present price's probability column gets its reciprocal
      divided by the common sum, columns of missing prices are not written,
      and every other cell is kept. */
  lemma H2HRescales(cells: map<string, Value>)
    requires NonZeroOdds(cells) && OddsColumnsOk(cells)
    requires (PresentNonZero(cells, 3); SumReals(Reciprocals(Present(cells, 3))) != 0.0)
    ensures StripVigH2H(cells).Ok?
    ensures var r := StripVigH2H(cells).value;
      var total := SumReals(Reciprocals(Present(cells, 3)));
      && (forall j :: 0 <= j < 3 && cells[OddsCol(j)].Num? ==>
            ProbCol(j) in r && r[ProbCol(j)] == Num(DecimalToProb(cells[OddsCol(j)].x) / total))
      && (forall key :: key in r <==> key in cells || Fills(cells, key, 3))
      && (forall key :: key in cells && !Fills(cells, key, 3) ==> r[key] == cells[key])
  {
    H2HFillsPresent(cells);
    WrittenKeeps(cells, Normalise(Reciprocals(Present(cells, 3))), 3);
  }

  lemma H2HFillsPresent(cells: map<string, Value>)
    requires NonZeroOdds(cells) && OddsColumnsOk(cells)
    requires (PresentNonZero(cells, 3); SumReals(Reciprocals(Present(cells, 3))) != 0.0)
    ensures StripVigH2H(cells).Ok?
    ensures var r := StripVigH2H(cells).value;
      var total := SumReals(Reciprocals(Present(cells, 3)));
      forall j :: 0 <= j < 3 && cells[OddsCol(j)].Num? ==>
        ProbCol(j) in r && r[ProbCol(j)] == Num(DecimalToProb(cells[OddsCol(j)].x) / total)
  {
    var probs := Reciprocals(Present(cells, 3));
    var adj := Normalise(probs);
    WrittenFilled(cells, adj, 3);
    forall j | 0 <= j < 3 && cells[OddsCol(j)].Num?
      ensures adj[|Present(cells, j)|] == DecimalToProb(cells[OddsCol(j)].x) / SumReals(probs)
    {
      PresentIndex(cells, j, 3);
    }
  }

  /** When all three prices are quoted and positive, the three probabilities
      add up to 1. */
  lemma H2HThreeWaySumsToOne(cells: map<string, Value>)
    requires NonZeroOdds(cells)
    requires forall k :: 0 <= k < 3 ==> OddsCol(k) in cells && cells[OddsCol(k)].Num?
    requires forall k :: 0 <= k < 3 ==> cells[OddsCol(k)].x > 0.0
    ensures StripVigH2H(cells).Ok?
    ensures var r := StripVigH2H(cells).value;
      && (forall k :: 0 <= k < 3 ==> ProbCol(k) in r && r[ProbCol(k)].Num?)
      && r[ProbCol(0)].x + r[ProbCol(1)].x + r[ProbCol(2)].x == 1.0
  {
    PresentNonZero(cells, 3);
    var probs := Reciprocals(Present(cells, 3));
    assert |Present(cells, 0)| == 0 && |Present(cells, 1)| == 1 && |Present(cells, 2)| == 2;
    assert Present(cells, 3) == [cells[OddsCol(0)].x, cells[OddsCol(1)].x, cells[OddsCol(2)].x];
    SumOfThree(probs);
    var a, b, c := DecimalToProb(cells[OddsCol(0)].x), DecimalToProb(cells[OddsCol(1)].x), DecimalToProb(cells[OddsCol(2)].x);
    assert a > 0.0 && b > 0.0 && c > 0.0;
    assert SumReals(probs) == a + b + c;
    H2HFillsPresent(cells);
    var r := StripVigH2H(cells).value;
    assert r[ProbCol(0)] == Num(a / (a + b + c));
    assert r[ProbCol(1)] == Num(b / (a + b + c));
    assert r[ProbCol(2)] == Num(c / (a + b + c));
    ThreeShares(a, b, c);
  }

  /** The probability cells of the present prices among the first k columns,
      in column order. */
  function FilledProbs(r: map<string, Value>, cells: map<string, Value>, k: nat): (ps: seq<real>)
    requires OddsColumnsOk(cells) && k <= 3
    requires forall j :: 0 <= j < k && cells[OddsCol(j)].Num? ==> ProbCol(j) in r && r[ProbCol(j)].Num?
    ensures |ps| == |Present(cells, k)|
  {
    if k == 0 then []
    else FilledProbs(r, cells, k - 1) + (if cells[OddsCol(k - 1)].Num? then [r[ProbCol(k - 1)].x] else [])
  }

  /** When the i-th present price's column holds adj[i], the filled cells in
      column order are the first values of adj. */
  lemma {:induction false} FilledProbsPrefix(r: map<string, Value>, cells: map<string, Value>, adj: seq<real>, k: nat)
    requires OddsColumnsOk(cells) && k <= 3 && |Present(cells, k)| <= |adj|
    requires forall j :: 0 <= j < k && cells[OddsCol(j)].Num? ==>
      |Present(cells, j)| < |adj| && ProbCol(j) in r && r[ProbCol(j)] == Num(adj[|Present(cells, j)|])
    ensures FilledProbs(r, cells, k) == adj[..|Present(cells, k)|]
    decreases k
  {
    if k > 0 {
      FilledProbsPrefix(r, cells, adj, k - 1);
      var n := |Present(cells, k - 1)|;
      if cells[OddsCol(k - 1)].Num? {
        assert adj[..n + 1] == adj[..n] + [adj[n]];
      }
    }
  }

  /** Whenever the row is rescaled, the probabilities written for its present
      prices add up to 1, however many of the three prices are quoted. */
  lemma H2HSumsToOne(cells: map<string, Value>)
    requires NonZeroOdds(cells) && OddsColumnsOk(cells)
    requires (PresentNonZero(cells, 3); SumReals(Reciprocals(Present(cells, 3))) != 0.0)
    ensures StripVigH2H(cells).Ok?
    ensures var r := StripVigH2H(cells).value;
      && (forall j :: 0 <= j < 3 && cells[OddsCol(j)].Num? ==> ProbCol(j) in r && r[ProbCol(j)].Num?)
      && SumReals(FilledProbs(r, cells, 3)) == 1.0
  {
    var probs := Reciprocals(Present(cells, 3));
    var adj := Normalise(probs);
    var r := Written(cells, adj, 3);
    WrittenFilled(cells, adj, 3);
    FilledProbsPrefix(r, cells, adj, 3);
    assert adj[..|Present(cells, 3)|] == adj;
    NormaliseSumsToOne(probs);
  }

  lemma ThreeShares(a: real, b: real, c: real)
    requires a + b + c != 0.0
    ensures a / (a + b + c) + b / (a + b + c) + c / (a + b + c) == 1.0
  {
    var t := a + b + c;
    assert a / t + b / t + c / t == (a + b + c) / t;
  }

  lemma SumOfThree(s: seq<real>)
    requires |s| == 3
    ensures SumReals(s) == s[0] + s[1] + s[2]
  {
    assert s[..2][..1] == [s[0]] && s[..2][..1][..0] == [];
    assert SumReals(s[..2][..1]) == s[0];
    assert SumReals(s[..2]) == s[0] + s[1];
  }

  /** A pandas row, updated in place by strip_vig_h2h. */
  class Row {
    var cells: map<string, Value>

    constructor(cells: map<string, Value>)
      ensures this.cells == cells
    {
      this.cells := cells;
    }
  }

  /** `strip_vig_h2h`: collects the non-missing prices, and unless their
      reciprocals add up to 0 writes the rescaled values into the row with a
      running index, returning the same row. */
  method StripVigH2HRow(row: Row) returns (r: Result<Row, string>)
    requires NonZeroOdds(row.cells)
    modifies row
    ensures StripVigH2H(old(row.cells)).Ok? ==> r == Ok(row) && row.cells == StripVigH2H(old(row.cells)).value
    ensures StripVigH2H(old(row.cells)).Err? ==> r == Err(StripVigH2H(old(row.cells)).error) && row.cells == old(row.cells)
  {
    var odds := CollectOdds(row.cells);
    if odds.Err? {
      return Err(odds.error);
    }
    PresentNonZero(row.cells, 3);
    var probs := Reciprocals(odds.value);
    if SumReals(probs) == 0.0 {
      return Ok(row);
    }
    WriteProbs(row, Normalise(probs));
    r := Ok(row);
  }

  /** The prices of the row that are not missing, in column order, checked
      the way the source reads them: an absent column fails first (while the
      prices are gathered), text fails second (when its reciprocal is taken). */
  method CollectOdds(cells: map<string, Value>) returns (odds: Result<seq<real>, string>)
    requires NonZeroOdds(cells)
    ensures odds.Err? <==> StripVigH2H(cells).Err?
    ensures odds.Err? ==> odds.error == StripVigH2H(cells).error
    ensures odds.Ok? ==> OddsColumnsOk(cells) && odds.value == Present(cells, 3)
  {
    for k := 0 to 3
      invariant forall j :: 0 <= j < k ==> OddsCol(j) in cells
    {
      if OddsCol(k) !in cells {
        return Err("KeyError");
      }
    }
    var found: seq<real> := [];
    for k := 0 to 3
      invariant forall j :: 0 <= j < k ==> !cells[OddsCol(j)].Text?
      invariant OddsColumnsOk(cells) ==> found == Present(cells, k)
    {
      match cells[OddsCol(k)]
      case Missing =>
      case Num(x) => found := found + [x];
      case Text(_) => return Err("TypeError");
    }
    odds := Ok(found);
  }

  /** The write loop: for each present price, in column order, its
      probability column receives the next rescaled value. */
  method WriteProbs(row: Row, adj: seq<real>)
    requires OddsColumnsOk(row.cells) && |adj| == |Present(row.cells, 3)|
    modifies row
    ensures row.cells == Written(old(row.cells), adj, 3)
  {
    ghost var cells := row.cells;
    var i := 0;
    for k := 0 to 3
      invariant i == |Present(cells, k)|
      invariant row.cells == Written(cells, adj, k)
    {
      WrittenCells(cells, adj, k);
      ColumnsDiffer();
      assert !Fills(cells, OddsCol(k), k);
      if row.cells[OddsCol(k)].Num? {
        PresentIndex(cells, k, 3);
        row.cells := row.cells[ProbCol(k) := Num(adj[i])];
        i := i + 1;
      }
    }
  }

  // ---------------------------------------------------------------------------
  // strip_vig_outrights

  /** One row of the outrights table: its bookmaker, its decimal price, and
      its other cells. */
  datatype Quote = Quote(bookmaker: string, decimalOdds: real, cells: map<string, Value>)

  /** The column the rescaled probability is written to. */
  const IMPLIED_PROB: string := "implied_prob"

  /** Python's string order: lexicographic by code point. */
  predicate StrLess(a: string, b: string)
    decreases |a|
  {
    if a == [] then b != []
    else if b == [] then false
    else if a[0] != b[0] then a[0] < b[0]
    else StrLess(a[1..], b[1..])
  }

  lemma {:induction false} StrLessIrreflexive(a: string)
    ensures !StrLess(a, a)
    decreases |a|
  {
    if a != [] {
      StrLessIrreflexive(a[1..]);
    }
  }

  lemma {:induction false} StrLessTransitive(a: string, b: string, c: string)
    requires StrLess(a, b) && StrLess(b, c)
    ensures StrLess(a, c)
    decreases |a|
  {
    if a != [] && a[0] == b[0] && b[0] == c[0] {
      StrLessTransitive(a[1..], b[1..], c[1..]);
    }
  }

  lemma {:induction false} StrLessTotal(a: string, b: string)
    ensures a == b || StrLess(a, b) || StrLess(b, a)
    decreases |a|
  {
    if a != [] && b != [] && a[0] == b[0] {
      StrLessTotal(a[1..], b[1..]);
      assert a == [a[0]] + a[1..] && b == [b[0]] + b[1..];
    }
  }

  /** The group keys are sorted with a strict total order. */
  lemma StrLessIsStrictWeakOrder()
    ensures StrictWeakOrder(StrLess)
    ensures forall a, b :: a == b || StrLess(a, b) || StrLess(b, a)
  {
    forall a ensures !StrLess(a, a) {
      StrLessIrreflexive(a);
    }
    forall a, b, c | StrLess(a, b) && StrLess(b, c) ensures StrLess(a, c) {
      StrLessTransitive(a, b, c);
    }
    forall a, b ensures a == b || StrLess(a, b) || StrLess(b, a) {
      StrLessTotal(a, b);
    }
    forall a, b, c | StrLess(a, c) ensures StrLess(a, b) || StrLess(b, c) {
      StrLessTotal(a, b);
      StrLessTotal(b, c);
      if StrLess(b, a) {
        StrLessTransitive(b, a, c);
      }
    }
  }

  function Bookmakers(df: seq<Quote>): (bs: seq<string>)
    ensures |bs| == |df| && forall i :: 0 <= i < |df| ==> bs[i] == df[i].bookmaker
  {
    MapSeq(df, (q: Quote) => q.bookmaker)
  }

  /** The distinct items of s, in order of first occurrence. */
  function Dedup(s: seq<string>): (d: seq<string>)
    ensures Distinct(d) && forall x :: x in d <==> x in s
  {
    if s == [] then []
    else
      var d := Dedup(s[..|s| - 1]);
      assert s == s[..|s| - 1] + [s[|s| - 1]];
      if s[|s| - 1] in d then d else d + [s[|s| - 1]]
  }

  /** The keys the grouping by bookmaker visits: the distinct bookmakers in
      ascending order. */
  function GroupKeys(df: seq<Quote>): seq<string>
  {
    Sort(Dedup(Bookmakers(df)), StrLess)
  }

  lemma GroupKeysSpec(df: seq<Quote>)
    ensures Sorted(GroupKeys(df), StrLess) && Distinct(GroupKeys(df))
    ensures forall b :: b in GroupKeys(df) <==> b in Bookmakers(df)
    ensures forall k, l :: 0 <= k < l < |GroupKeys(df)| ==> StrLess(GroupKeys(df)[k], GroupKeys(df)[l])
  {
    var d := Dedup(Bookmakers(df));
    StrLessIsStrictWeakOrder();
    SortSorted(d, StrLess);
    SortPermutes(d, StrLess);
    SortKeepsMembers(d, StrLess);
    DistinctMultiset(d, GroupKeys(df));
    var keys := GroupKeys(df);
    forall k, l | 0 <= k < l < |keys| ensures StrLess(keys[k], keys[l]) {
      assert keys[k] != keys[l] && !StrLess(keys[l], keys[k]);
    }
  }

  /** The rows of one bookmaker, in their order in the table. */
  function Group(df: seq<Quote>, b: string): (grp: seq<Quote>)
    ensures forall i :: 0 <= i < |grp| ==> grp[i].bookmaker == b && grp[i] in df
  {
    if df == [] then []
    else
      var init := Group(df[..|df| - 1], b);
      assert forall q :: q in df[..|df| - 1] ==> q in df;
      if df[|df| - 1].bookmaker == b then init + [df[|df| - 1]] else init
  }

  /** A bookmaker's group has one row per occurrence of its name. */
  lemma {:induction false} GroupSize(df: seq<Quote>, b: string)
    ensures |Group(df, b)| == multiset(Bookmakers(df))[b]
    decreases |df|
  {
    if df != [] {
      var init := df[..|df| - 1];
      GroupSize(init, b);
      assert Bookmakers(df) == Bookmakers(init) + [df[|df| - 1].bookmaker];
    }
  }

  predicate PositiveOdds(df: seq<Quote>)
  {
    forall i :: 0 <= i < |df| ==> df[i].decimalOdds > 0.0
  }

  function Odds(grp: seq<Quote>): (odds: seq<real>)
    ensures |odds| == |grp| && forall i :: 0 <= i < |grp| ==> odds[i] == grp[i].decimalOdds
  {
    MapSeq(grp, (q: Quote) => q.decimalOdds)
  }

  lemma {:induction false} PositiveSum(ps: seq<real>)
    requires ps != [] && forall i :: 0 <= i < |ps| ==> ps[i] > 0.0
    ensures SumReals(ps) > 0.0
    decreases |ps|
  {
    if |ps| > 1 {
      PositiveSum(ps[..|ps| - 1]);
    }
  }

  /** A nonempty group of positive prices has a positive reciprocal sum. */
  lemma GroupSumPositive(grp: seq<Quote>)
    requires grp != [] && PositiveOdds(grp)
    ensures SumReals(Reciprocals(Odds(grp))) > 0.0
  {
    var ps := Reciprocals(Odds(grp));
    forall i | 0 <= i < |ps| ensures ps[i] > 0.0 {
      assert ps[i] * grp[i].decimalOdds == 1.0;
    }
    PositiveSum(ps);
  }

  /** `tmp`: a copy of the group with "implied_prob" set to the rescaled
      reciprocals. */
  function Priced(grp: seq<Quote>): (tmp: seq<Quote>)
    requires PositiveOdds(grp)
    ensures |tmp| == |grp|
  {
    if grp == [] then []
    else
      GroupSumPositive(grp);
      var adj := Normalise(Reciprocals(Odds(grp)));
      seq(|grp|, i requires 0 <= i < |grp| => grp[i].(cells := grp[i].cells[IMPLIED_PROB := Num(adj[i])]))
  }

  lemma GroupPositive(df: seq<Quote>, b: string)
    requires PositiveOdds(df)
    ensures PositiveOdds(Group(df, b))
  {
    var grp := Group(df, b);
    forall i | 0 <= i < |grp| ensures grp[i].decimalOdds > 0.0 {
      assert grp[i] in df;
    }
  }

  /** The per-bookmaker copies in the order the loop appends them to `out`. */
  function Blocks(df: seq<Quote>): (out: seq<seq<Quote>>)
    requires PositiveOdds(df)
    ensures |out| == |GroupKeys(df)|
  {
    var keys := GroupKeys(df);
    seq(|keys|, k requires 0 <= k < |keys| => GroupPositive(df, keys[k]); Priced(Group(df, keys[k])))
  }

  /** The blocks laid end to end, renumbered from 0. */
  function Flatten(bs: seq<seq<Quote>>): seq<Quote>
  {
    if bs == [] then [] else Flatten(bs[..|bs| - 1]) + bs[|bs| - 1]
  }

  function Lengths(bs: seq<seq<Quote>>): (ls: seq<int>)
    ensures |ls| == |bs| && forall k :: 0 <= k < |bs| ==> ls[k] == |bs[k]|
  {
    seq(|bs|, k requires 0 <= k < |bs| => |bs[k]|)
  }

  lemma {:induction false} FlattenLength(bs: seq<seq<Quote>>)
    ensures |Flatten(bs)| == SumInts(Lengths(bs))
    decreases |bs|
  {
    if bs != [] {
      FlattenLength(bs[..|bs| - 1]);
      assert Lengths(bs)[..|bs| - 1] == Lengths(bs[..|bs| - 1]);
    }
  }

  /** `strip_vig_outrights`: fails like pd.concat on an empty list when the
      table has no rows; otherwise the per-bookmaker copies, concatenated. */
  function StripVigOutrights(df: seq<Quote>): Result<seq<Quote>, string>
    requires PositiveOdds(df)
  {
    if Blocks(df) == [] then Err("ValueError") else Ok(Flatten(Blocks(df)))
  }

  /** Only an empty table is rejected. */
  lemma OutrightsFails(df: seq<Quote>)
    requires PositiveOdds(df)
    ensures StripVigOutrights(df).Err? <==> df == []
  {
    GroupKeysSpec(df);
    if df != [] {
      assert df[0].bookmaker in Bookmakers(df);
    }
  }

  /** The output has as many rows as the input. */
  lemma OutrightsKeepRowCount(df: seq<Quote>)
    requires PositiveOdds(df) && df != []
    ensures StripVigOutrights(df).Ok? && |StripVigOutrights(df).value| == |df|
  {
    OutrightsFails(df);
    var keys := GroupKeys(df);
    var blocks := Blocks(df);
    GroupKeysSpec(df);
    FlattenLength(blocks);
    forall k | 0 <= k < |keys| ensures Lengths(blocks)[k] == Counts(keys, multiset(Bookmakers(df)))[k] {
      GroupSize(df, keys[k]);
    }
    assert Lengths(blocks) == Counts(keys, multiset(Bookmakers(df)));
    CountsSumToLength(keys, Bookmakers(df));
  }

  /** Block k holds the rows of the k-th bookmaker in ascending order, in
      table order, with their other cells copied, and "implied_prob" set to
      the reciprocal of the price divided by the bookmaker's reciprocal sum. */
  lemma BlockCopiesRows(df: seq<Quote>, k: nat)
    requires PositiveOdds(df) && k < |GroupKeys(df)|
    ensures var grp := Group(df, GroupKeys(df)[k]);
      var block := Blocks(df)[k];
      && grp != [] && |block| == |grp|
      && (GroupSumPositive(grp); forall i :: 0 <= i < |grp| ==>
            && block[i].bookmaker == GroupKeys(df)[k] && block[i].decimalOdds == grp[i].decimalOdds
            && block[i].cells[IMPLIED_PROB]
                 == Num(DecimalToProb(grp[i].decimalOdds) / SumReals(Reciprocals(Odds(grp))))
            && (forall c :: c != IMPLIED_PROB ==>
                  (c in block[i].cells <==> c in grp[i].cells) &&
                  (c in grp[i].cells ==> block[i].cells[c] == grp[i].cells[c])))
  {
    var b := GroupKeys(df)[k];
    GroupKeysSpec(df);
    GroupSize(df, b);
    GroupPositive(df, b);
    assert b in GroupKeys(df);
    assert b in Bookmakers(df);
    assert b in multiset(Bookmakers(df));
  }

  /** Each bookmaker's implied probabilities add up to 1. */
  lemma BlockSumsToOne(df: seq<Quote>, k: nat)
    requires PositiveOdds(df) && k < |GroupKeys(df)|
    ensures var block := Blocks(df)[k];
      && (forall i :: 0 <= i < |block| ==> IMPLIED_PROB in block[i].cells && block[i].cells[IMPLIED_PROB].Num?)
      && SumReals(seq(|block|, i requires 0 <= i < |block| => block[i].cells[IMPLIED_PROB].x)) == 1.0
  {
    var grp := Group(df, GroupKeys(df)[k]);
    BlockCopiesRows(df, k);
    GroupSumPositive(grp);
    var probs := Reciprocals(Odds(grp));
    var block := Blocks(df)[k];
    assert seq(|block|, i requires 0 <= i < |block| => block[i].cells[IMPLIED_PROB].x) == Normalise(probs);
    NormaliseSumsToOne(probs);
  }

  /** `strip_vig_outrights`: the loop over the bookmaker groups appends one
      rescaled copy per group to `out`, which is then concatenated. */
  method StripVigOutrightsTable(df: seq<Quote>) returns (r: Result<seq<Quote>, string>)
    requires PositiveOdds(df)
    ensures r == StripVigOutrights(df)
  {
    var keys := GroupKeys(df);
    var out: seq<seq<Quote>> := [];
    for k := 0 to |keys|
      invariant out == Blocks(df)[..k]
    {
      var grp := Group(df, keys[k]);
      GroupPositive(df, keys[k]);
      var tmp := Priced(grp);
      assert tmp == Blocks(df)[k];
      assert Blocks(df)[..k + 1] == Blocks(df)[..k] + [tmp];
      out := out + [tmp];
    }
    assert out == Blocks(df);
    if out == [] {
      return Err("ValueError");
    }
    r := Ok(Flatten(out));
  }
}
