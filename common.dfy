/** Shared vocabulary of the simulator model: optional values, results with an
    error case, group labels, sums, and the shuffles that the random generators
    perform.  Every random draw is an input: a shuffle of n items is given by
    the swap positions a Fisher–Yates pass draws. */
module Common {

  datatype Option<+T> = None | Some(value: T)

  datatype Result<+T, +E> = Ok(value: T) | Err(error: E)

  /** A team is known by its name. */
  type Team = string

  /** chr(ord('A') + i): the label of the i-th group. */
  function Label(i: nat): (c: char)
    requires i < 26
    ensures 'A' <= c <= 'Z' && c as int - 'A' as int == i
  {
    ('A' as int + i) as char
  }

  lemma LabelInjective(i: nat, j: nat)
    requires i < 26 && j < 26 && Label(i) == Label(j)
    ensures i == j
  {
  }

  function SumInts(s: seq<int>): int
  {
    if s == [] then 0 else SumInts(s[..|s| - 1]) + s[|s| - 1]
  }

  function SumReals(s: seq<real>): real
  {
    if s == [] then 0.0 else SumReals(s[..|s| - 1]) + s[|s| - 1]
  }

  lemma {:induction false} SumRealsAppend(s: seq<real>, t: seq<real>)
    ensures SumReals(s + t) == SumReals(s) + SumReals(t)
    decreases |t|
  {
    if t == [] {
      assert s + t == s;
    } else {
      assert (s + t)[..|s + t| - 1] == s + t[..|t| - 1];
      SumRealsAppend(s, t[..|t| - 1]);
    }
  }

  /** Sums are independent of order. */
  lemma {:induction false} SumRealsPermutes(a: seq<real>, b: seq<real>)
    requires multiset(a) == multiset(b)
    ensures SumReals(a) == SumReals(b)
    decreases |a|
  {
    if a == [] {
      assert |b| == |multiset(b)| == 0;
    } else {
      var x := a[|a| - 1];
      assert x in multiset(b);
      var k :| 0 <= k < |b| && b[k] == x;
      RemoveMatching(a, b, k);
      SumRealsPermutes(a[..|a| - 1], b[..k] + b[k + 1..]);
      assert b == b[..k] + [x] + b[k + 1..];
      SumRealsAppend(b[..k] + [x], b[k + 1..]);
      SumRealsAppend(b[..k], [x]);
      SumRealsAppend(b[..k], b[k + 1..]);
      assert (b[..k] + [x])[..k] == b[..k];
    }
  }

  /** The values of a sequence of results, or the first error among them. */
  function Collect<T>(rs: seq<Result<T, string>>): Result<seq<T>, string>
    decreases |rs|
  {
    if rs == [] then Ok([])
    else match Collect(rs[..|rs| - 1])
      case Err(e) => Err(e)
      case Ok(vs) =>
        match rs[|rs| - 1]
        case Err(e) => Err(e)
        case Ok(v) => Ok(vs + [v])
  }

  /** Collecting succeeds exactly when every result is a value, and then
      yields those values in order. */
  lemma {:induction false} CollectOk<T>(rs: seq<Result<T, string>>)
    ensures Collect(rs).Ok? <==> forall i :: 0 <= i < |rs| ==> rs[i].Ok?
    ensures Collect(rs).Ok? ==>
      |Collect(rs).value| == |rs| && forall i :: 0 <= i < |rs| ==> Collect(rs).value[i] == rs[i].value
    decreases |rs|
  {
    if rs != [] {
      var init := rs[..|rs| - 1];
      CollectOk(init);
      assert forall i :: 0 <= i < |init| ==> init[i] == rs[i];
    }
  }

  /** Collecting one result more extends the values or ends with its error. */
  lemma CollectStep<T>(rs: seq<Result<T, string>>, n: nat)
    requires n < |rs| && Collect(rs[..n]).Ok?
    ensures rs[n].Err? ==> Collect(rs[..n + 1]) == Err(rs[n].error)
    ensures rs[n].Ok? ==> Collect(rs[..n + 1]) == Ok(Collect(rs[..n]).value + [rs[n].value])
  {
    assert rs[..n + 1][..n] == rs[..n];
  }

  /** One error among the results makes collecting fail. */
  lemma CollectErr<T>(rs: seq<Result<T, string>>, n: nat)
    requires n < |rs| && rs[n].Err?
    ensures Collect(rs).Err?
  {
    CollectOk(rs);
  }

  /** How often each of `keys` occurs in m, in key order. */
  function Counts<T>(keys: seq<T>, m: multiset<T>): (c: seq<int>)
    ensures |c| == |keys| && forall i :: 0 <= i < |keys| ==> c[i] == m[keys[i]]
  {
    seq(|keys|, i requires 0 <= i < |keys| => m[keys[i]])
  }

  /** One more occurrence of x raises the total count of distinct keys by one
      when x is a key, and leaves it alone otherwise. */
  lemma {:induction false} CountsAdd<T>(keys: seq<T>, m: multiset<T>, x: T)
    requires Distinct(keys)
    ensures SumInts(Counts(keys, m + multiset{x})) == SumInts(Counts(keys, m)) + (if x in keys then 1 else 0)
    decreases |keys|
  {
    if keys != [] {
      var init := keys[..|keys| - 1];
      assert Counts(keys, m + multiset{x})[..|keys| - 1] == Counts(init, m + multiset{x});
      assert Counts(keys, m)[..|keys| - 1] == Counts(init, m);
      CountsAdd(init, m, x);
      assert x in keys <==> x in init || x == keys[|keys| - 1];
      assert x == keys[|keys| - 1] ==> x !in init;
    }
  }

  /** Counting the items of c over distinct keys that include all of them
      accounts for every item once. */
  lemma {:induction false} CountsSumToLength<T>(keys: seq<T>, c: seq<T>)
    requires Distinct(keys) && forall x :: x in c ==> x in keys
    ensures SumInts(Counts(keys, multiset(c))) == |c|
    decreases |c|
  {
    if c == [] {
      assert forall i :: 0 <= i < |keys| ==> Counts(keys, multiset(c))[i] == 0;
      ZeroSum(Counts(keys, multiset(c)));
    } else {
      var init := c[..|c| - 1];
      assert c == init + [c[|c| - 1]];
      CountsSumToLength(keys, init);
      CountsAdd(keys, multiset(init), c[|c| - 1]);
    }
  }

  lemma {:induction false} ZeroSum(s: seq<int>)
    requires forall i :: 0 <= i < |s| ==> s[i] == 0
    ensures SumInts(s) == 0
    decreases |s|
  {
    if s != [] {
      ZeroSum(s[..|s| - 1]);
    }
  }

  /** [a[i] / d for each i] */
  function Scaled(a: seq<int>, d: real): (r: seq<real>)
    requires d != 0.0
    ensures |r| == |a| && forall i :: 0 <= i < |a| ==> r[i] == a[i] as real / d
  {
    seq(|a|, i requires 0 <= i < |a| => a[i] as real / d)
  }

  /** Dividing every item by d divides the sum by d. */
  lemma {:induction false} ScaledSum(a: seq<int>, d: real)
    requires d != 0.0
    ensures SumReals(Scaled(a, d)) == SumInts(a) as real / d
    decreases |a|
  {
    if a != [] {
      var init := a[..|a| - 1];
      assert Scaled(a, d)[..|a| - 1] == Scaled(init, d);
      ScaledSum(init, d);
      AddQuotients(SumInts(init) as real, a[|a| - 1] as real, d);
    }
  }

  lemma AddQuotients(x: real, y: real, d: real)
    requires d != 0.0
    ensures x / d + y / d == (x + y) / d
  {
  }

  /** Counts that add up to n, each divided by n, add up to 1. */
  lemma FractionsSumToOne(w: seq<int>, n: nat)
    requires n >= 1 && SumInts(w) == n
    ensures SumReals(Scaled(w, n as real)) == 1.0
  {
    ScaledSum(w, n as real);
    var x := n as real;
    assert SumInts(w) as real == x;
    assert x / x == 1.0;
  }

  /** f applied to every item of s, in order. */
  function MapSeq<A, B>(s: seq<A>, f: A -> B): (r: seq<B>)
    ensures |r| == |s| && forall i :: 0 <= i < |s| ==> r[i] == f(s[i])
  {
    seq(|s|, i requires 0 <= i < |s| => f(s[i]))
  }

  lemma MapSeqSplit<A, B>(lo: seq<A>, x: A, hi: seq<A>, f: A -> B)
    ensures MapSeq(lo + [x] + hi, f) == MapSeq(lo, f) + [f(x)] + MapSeq(hi, f)
    ensures MapSeq(lo + hi, f) == MapSeq(lo, f) + MapSeq(hi, f)
  {
  }

  /** Mapping a sequence with one element cut out. */
  lemma MapSeqRemove<A, B>(b: seq<A>, k: nat, f: A -> B)
    requires k < |b|
    ensures multiset(MapSeq(b, f)) == multiset(MapSeq(b[..k] + b[k + 1..], f)) + multiset{f(b[k])}
  {
    var lo, hi := b[..k], b[k + 1..];
    assert b == lo + [b[k]] + hi;
    MapSeqSplit(lo, b[k], hi, f);
  }

  /** Cutting the last element of a and an equal element of b out of two
      permutations of one another leaves two permutations of one another. */
  lemma RemoveMatching<A>(a: seq<A>, b: seq<A>, k: nat)
    requires multiset(a) == multiset(b) && 0 < |a| && k < |b| && b[k] == a[|a| - 1]
    ensures multiset(a[..|a| - 1]) == multiset(b[..k] + b[k + 1..])
  {
    var x, a', lo, hi := a[|a| - 1], a[..|a| - 1], b[..k], b[k + 1..];
    assert a == a' + [x];
    assert b == lo + [x] + hi;
    assert multiset(a') + multiset{x} == multiset(lo + hi) + multiset{x};
    forall y ensures multiset(a')[y] == multiset(lo + hi)[y] {
      assert (multiset(a') + multiset{x})[y] == (multiset(lo + hi) + multiset{x})[y];
    }
  }

  /** Applying f to each element of two permutations of one another gives two
      permutations of one another. */
  lemma {:induction false} MapSeqPermutes<A, B>(a: seq<A>, b: seq<A>, f: A -> B)
    requires multiset(a) == multiset(b)
    ensures multiset(MapSeq(a, f)) == multiset(MapSeq(b, f))
    decreases |a|
  {
    assert |a| == |b| by { assert |multiset(a)| == |multiset(b)|; }
    if |a| > 0 {
      var x := a[|a| - 1];
      assert x in multiset(b);
      var k :| 0 <= k < |b| && b[k] == x;
      var a', b' := a[..|a| - 1], b[..k] + b[k + 1..];
      RemoveMatching(a, b, k);
      MapSeqPermutes(a', b', f);
      MapSeqRemove(b, k, f);
      assert MapSeq(a, f) == MapSeq(a', f) + [f(x)];
    }
  }

  // ---------------------------------------------------------------------------
  // Shuffles

  /** The random part of one Fisher–Yates pass over n items: in step k
      (k = 0 .. n-1) position n-1-k is swapped with position js[k], drawn
      uniformly from 0 .. n-1-k.  There are exactly n! such sequences, one per
      permutation. */
  predicate IsSwapDraw(js: seq<nat>, n: nat)
  {
    |js| == n && forall k :: 0 <= k < n ==> js[k] < n - k
  }

  /** s with positions i and j exchanged. */
  function Swap<T>(s: seq<T>, i: nat, j: nat): (r: seq<T>)
    requires i < |s| && j < |s|
    ensures |r| == |s|
  {
    seq(|s|, k requires 0 <= k < |s| => if k == i then s[j] else if k == j then s[i] else s[k])
  }

  lemma SwapPermutes<T>(s: seq<T>, i: nat, j: nat)
    requires i < |s| && j < |s|
    ensures multiset(Swap(s, i, j)) == multiset(s)
  {
    assert Swap(s, i, j) == s[i := s[j]][j := s[i]];
  }

  /** The sequence after the first `steps` swaps of the pass. */
  function ShuffleSteps<T>(s: seq<T>, js: seq<nat>, steps: nat): (r: seq<T>)
    requires IsSwapDraw(js, |s|) && steps <= |s|
    ensures |r| == |s|
  {
    if steps == 0 then s
    else Swap(ShuffleSteps(s, js, steps - 1), |s| - steps, js[steps - 1])
  }

  /** The order a shuffle leaves s in, given its draws. */
  function Shuffle<T>(s: seq<T>, js: seq<nat>): (r: seq<T>)
    requires IsSwapDraw(js, |s|)
    ensures |r| == |s|
  {
    ShuffleSteps(s, js, |s|)
  }

  lemma {:induction false} ShuffleStepsPermutes<T>(s: seq<T>, js: seq<nat>, steps: nat)
    requires IsSwapDraw(js, |s|) && steps <= |s|
    ensures multiset(ShuffleSteps(s, js, steps)) == multiset(s)
  {
    if steps > 0 {
      ShuffleStepsPermutes(s, js, steps - 1);
      SwapPermutes(ShuffleSteps(s, js, steps - 1), |s| - steps, js[steps - 1]);
    }
  }

  /** A shuffle neither loses nor duplicates an item. */
  lemma ShufflePermutes<T>(s: seq<T>, js: seq<nat>)
    requires IsSwapDraw(js, |s|)
    ensures multiset(Shuffle(s, js)) == multiset(s)
    ensures forall x :: x in Shuffle(s, js) <==> x in s
  {
    ShuffleStepsPermutes(s, js, |s|);
    forall x ensures x in Shuffle(s, js) <==> x in s {
      assert x in Shuffle(s, js) <==> x in multiset(Shuffle(s, js));
      assert x in s <==> x in multiset(s);
    }
  }

  /** rng.shuffle / std::shuffle: reorders the array in place. */
  method ShuffleInPlace<T>(a: array<T>, js: seq<nat>)
    requires IsSwapDraw(js, a.Length)
    modifies a
    ensures a[..] == Shuffle(old(a[..]), js)
  {
    ghost var s := a[..];
    var n := a.Length;
    var k := 0;
    while k < n
      invariant 0 <= k <= n
      invariant a[..] == ShuffleSteps(s, js, k)
    {
      var i := n - 1 - k;
      var j := js[k];
      a[i], a[j] := a[j], a[i];
      k := k + 1;
    }
  }

  /** Items pairwise distinct. */
  predicate Distinct<T(==)>(s: seq<T>)
  {
    forall i, j :: 0 <= i < j < |s| ==> s[i] != s[j]
  }

  lemma DistinctMultiset<T>(s: seq<T>, t: seq<T>)
    requires Distinct(s) && multiset(s) == multiset(t)
    ensures Distinct(t)
  {
    forall i, j | 0 <= i < j < |t| ensures t[i] != t[j] {
      if t[i] == t[j] {
        assert |t| == |s| by { assert |multiset(t)| == |multiset(s)|; }
        var x := t[i];
        assert multiset(t)[x] >= 2 by {
          assert t == t[..i] + [x] + t[i + 1..j] + [x] + t[j + 1..];
        }
        DistinctCountAtMostOne(s, x);
        assert false;
      }
    }
  }

  lemma {:induction false} DistinctCountAtMostOne<T>(s: seq<T>, x: T)
    requires Distinct(s)
    ensures multiset(s)[x] <= 1
  {
    if s != [] {
      var init := s[..|s| - 1];
      assert s == init + [s[|s| - 1]];
      DistinctCountAtMostOne(init, x);
      if s[|s| - 1] == x {
        assert x !in init;
      }
    }
  }
}
