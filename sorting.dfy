/** Stable sorting, as Python's `sorted` and C++'s `std::stable_sort` do it.
    An order is given by a "strictly before" relation; elements that are not
    strictly ordered either way keep the order they had in the input. */
module Sorting {

  /** The properties a comparator must have for a sort to be well defined:
      irreflexive, transitive, and transitive in its incomparability. */
  ghost predicate StrictWeakOrder<T(!new)>(before: (T, T) -> bool)
  {
    && (forall x :: !before(x, x))
    && (forall x, y, z :: before(x, y) && before(y, z) ==> before(x, z))
    && (forall x, y, z :: before(x, z) ==> before(x, y) || before(y, z))
  }

  /** No element is strictly before one that precedes it. */
  predicate Sorted<T>(s: seq<T>, before: (T, T) -> bool)
  {
    forall i, j :: 0 <= i < j < |s| ==> !before(s[j], s[i])
  }

  /** Insert x into s from the back: x moves left past every element it is
      strictly before, and stops behind the first one it is not. */
  function Insert<T>(s: seq<T>, x: T, before: (T, T) -> bool): (r: seq<T>)
    decreases |s|
  {
    if s == [] || !before(x, s[|s| - 1]) then s + [x]
    else Insert(s[..|s| - 1], x, before) + [s[|s| - 1]]
  }

  /** Insertion sort: the elements of s are inserted one after the other. */
  function Sort<T>(s: seq<T>, before: (T, T) -> bool): (r: seq<T>)
    decreases |s|
  {
    if s == [] then [] else Insert(Sort(s[..|s| - 1], before), s[|s| - 1], before)
  }

  lemma {:induction false} InsertPermutes<T>(s: seq<T>, x: T, before: (T, T) -> bool)
    ensures multiset(Insert(s, x, before)) == multiset(s) + multiset{x}
    ensures |Insert(s, x, before)| == |s| + 1
    decreases |s|
  {
    if s == [] || !before(x, s[|s| - 1]) {
    } else {
      var init := s[..|s| - 1];
      InsertPermutes(init, x, before);
      assert s == init + [s[|s| - 1]];
    }
  }

  /** The sort neither loses nor duplicates an element. */
  lemma {:induction false} SortPermutes<T>(s: seq<T>, before: (T, T) -> bool)
    ensures multiset(Sort(s, before)) == multiset(s)
    ensures |Sort(s, before)| == |s|
    decreases |s|
  {
    if s != [] {
      var init := s[..|s| - 1];
      SortPermutes(init, before);
      InsertPermutes(Sort(init, before), s[|s| - 1], before);
      assert s == init + [s[|s| - 1]];
    }
  }

  lemma SortKeepsMembers<T>(s: seq<T>, before: (T, T) -> bool)
    ensures forall x :: x in Sort(s, before) <==> x in s
  {
    SortPermutes(s, before);
    forall x ensures x in Sort(s, before) <==> x in s {
      assert x in Sort(s, before) <==> x in multiset(Sort(s, before));
      assert x in s <==> x in multiset(s);
    }
  }

  lemma {:induction false} InsertSorted<T(!new)>(s: seq<T>, x: T, before: (T, T) -> bool)
    requires StrictWeakOrder(before) && Sorted(s, before)
    ensures Sorted(Insert(s, x, before), before)
    decreases |s|
  {
    if s == [] {
    } else if !before(x, s[|s| - 1]) {
      var r := s + [x];
      forall i, j | 0 <= i < j < |r| ensures !before(r[j], r[i]) {
        if j == |s| {
          // x is not before the last element, which is not before s[i]
          assert !before(s[|s| - 1], s[i]);
        }
      }
    } else {
      var init := s[..|s| - 1];
      var last := s[|s| - 1];
      InsertSorted(init, x, before);
      InsertPermutes(init, x, before);
      var t := Insert(init, x, before);
      var r := t + [last];
      forall i, j | 0 <= i < j < |r| ensures !before(r[j], r[i]) {
        if j == |t| {
          assert r[i] in multiset(init) + multiset{x} by {
            assert r[i] in t;
            assert r[i] in multiset(t);
          }
          if r[i] != x {
            assert r[i] in init;
            var k :| 0 <= k < |init| && init[k] == r[i];
            assert s[k] == r[i] && s[|s| - 1] == last;
          }
        }
      }
    }
  }

  /** The sort orders its output. */
  lemma {:induction false} SortSorted<T(!new)>(s: seq<T>, before: (T, T) -> bool)
    requires StrictWeakOrder(before)
    ensures Sorted(Sort(s, before), before)
    decreases |s|
  {
    if s != [] {
      SortSorted(s[..|s| - 1], before);
      InsertSorted(Sort(s[..|s| - 1], before), s[|s| - 1], before);
    }
  }

  /** In a sorted sequence nothing after position k is strictly before
      anything up to k: a prefix holds the best elements. */
  lemma SortedPrefixDominates<T>(s: seq<T>, k: nat, before: (T, T) -> bool)
    requires Sorted(s, before) && k <= |s|
    ensures forall x, y :: x in s[..k] && y in s[k..] ==> !before(y, x)
  {
    forall x, y | x in s[..k] && y in s[k..] ensures !before(y, x) {
      var i :| 0 <= i < k && s[i] == x;
      var j :| k <= j < |s| && s[j] == y;
    }
  }

  /** Under an order that is total on the elements of a (any two different
      ones are strictly ordered one way), a sorted sequence is determined by
      its contents. */
  lemma {:induction false} SortedUnique<T>(a: seq<T>, b: seq<T>, before: (T, T) -> bool)
    requires Sorted(a, before) && Sorted(b, before) && multiset(a) == multiset(b)
    requires forall x, y :: x in a && y in a && x != y ==> before(x, y) || before(y, x)
    ensures a == b
    decreases |a|
  {
    assert |a| == |b| by { assert |multiset(a)| == |multiset(b)|; }
    if a != [] {
      SortedHeadsAgree(a, b, before);
      SortedTails(a, b, before);
      SortedUnique(a[1..], b[1..], before);
      assert a == [a[0]] + a[1..] && b == [b[0]] + b[1..];
    }
  }

  lemma SortedHeadsAgree<T>(a: seq<T>, b: seq<T>, before: (T, T) -> bool)
    requires Sorted(a, before) && Sorted(b, before) && multiset(a) == multiset(b)
    requires forall x, y :: x in a && y in a && x != y ==> before(x, y) || before(y, x)
    requires a != [] && b != []
    ensures a[0] == b[0]
  {
    assert b[0] in multiset(a) && a[0] in multiset(b);
    var i :| 0 <= i < |a| && a[i] == b[0];
    var j :| 0 <= j < |b| && b[j] == a[0];
    // b[0] sits at i in a, a[0] at j in b: neither is strictly before the other
    assert i == 0 || !before(b[0], a[0]);
    assert j == 0 || !before(a[0], b[0]);
  }

  lemma SortedTails<T>(a: seq<T>, b: seq<T>, before: (T, T) -> bool)
    requires Sorted(a, before) && Sorted(b, before) && multiset(a) == multiset(b)
    requires forall x, y :: x in a && y in a && x != y ==> before(x, y) || before(y, x)
    requires a != [] && b != [] && a[0] == b[0]
    ensures Sorted(a[1..], before) && Sorted(b[1..], before)
    ensures multiset(a[1..]) == multiset(b[1..])
    ensures forall x, y :: x in a[1..] && y in a[1..] && x != y ==> before(x, y) || before(y, x)
  {
    DropHead(a, before);
    DropHead(b, before);
    forall x, y | x in a[1..] && y in a[1..] && x != y ensures before(x, y) || before(y, x) {
      assert x in a && y in a;
    }
  }

  lemma DropHead<T>(a: seq<T>, before: (T, T) -> bool)
    requires Sorted(a, before) && a != []
    ensures Sorted(a[1..], before)
    ensures multiset(a[1..]) == multiset(a) - multiset{a[0]}
  {
    assert a == [a[0]] + a[1..];
    forall i, j | 0 <= i < j < |a| - 1 ensures !before(a[1..][j], a[1..][i]) {
      assert a[1..][j] == a[j + 1] && a[1..][i] == a[i + 1];
    }
  }

  /** Such an order leaves nothing to the input order: two inputs with the
      same contents sort to the same sequence. */
  lemma SortIgnoresInputOrder<T(!new)>(s: seq<T>, t: seq<T>, before: (T, T) -> bool)
    requires StrictWeakOrder(before) && multiset(s) == multiset(t)
    requires forall x, y :: x in s && y in s && x != y ==> before(x, y) || before(y, x)
    ensures Sort(s, before) == Sort(t, before)
  {
    SortPermutes(s, before);
    SortPermutes(t, before);
    SortSorted(s, before);
    SortSorted(t, before);
    SortKeepsMembers(s, before);
    SortedUnique(Sort(s, before), Sort(t, before), before);
  }

  /** std::stable_sort on an array: sorts it in place by insertion. */
  method InsertionSort<T>(a: array<T>, before: (T, T) -> bool)
    modifies a
    ensures a[..] == Sort(old(a[..]), before)
  {
    ghost var s := a[..];
    var n := a.Length;
    var i := 0;
    while i < n
      invariant 0 <= i <= n
      invariant a[..i] == Sort(s[..i], before)
      invariant a[i..] == s[i..]
    {
      assert a[i] == s[i] by { assert a[i..][0] == s[i..][0]; }
      InsertLast(a, i, before);
      assert s[..i + 1][..i] == s[..i];
      assert a[i + 1..] == s[i + 1..];
      i := i + 1;
    }
    assert a[..] == a[..n] && s == s[..n];
  }

  /** One pass of insertion sort: a[i] sinks into the prefix a[..i]. */
  method InsertLast<T>(a: array<T>, i: nat, before: (T, T) -> bool)
    requires i < a.Length
    modifies a
    ensures a[..i + 1] == Insert(old(a[..i]), old(a[i]), before)
    ensures a[i + 1..] == old(a[i + 1..])
  {
    ghost var s := a[..];
    ghost var sorted := s[..i];
    ghost var x := s[i];
    var j := i;
    assert a[..] == Sinking(s, i, j);
    assert sorted[..j] == sorted && sorted[j..] == [];
    while j > 0 && before(a[j], a[j - 1])
      invariant 0 <= j <= i
      invariant a[..] == Sinking(s, i, j)
      invariant Insert(sorted, x, before) == Insert(sorted[..j], x, before) + sorted[j..]
    {
      SinkingAt(s, i, j);
      InsertMovesPast(sorted, j, x, before);
      a[j - 1], a[j] := a[j], a[j - 1];
      SinkStep(s, i, j);
      j := j - 1;
    }
    SinkingAt(s, i, j);
    InsertStops(sorted, j, x, before);
    SinkDone(s, i, j);
  }

  /** The array while s[i] sinks: it has reached position j, and the elements
      it passed have moved up by one. */
  ghost function Sinking<T>(s: seq<T>, i: nat, j: nat): seq<T>
    requires j <= i < |s|
  {
    s[..j] + [s[i]] + s[j..i] + s[i + 1..]
  }

  lemma SinkingAt<T>(s: seq<T>, i: nat, j: nat)
    requires j <= i < |s|
    ensures |Sinking(s, i, j)| == |s|
    ensures Sinking(s, i, j)[j] == s[i]
    ensures j > 0 ==> Sinking(s, i, j)[j - 1] == s[..i][j - 1]
  {
  }

  lemma SinkStep<T>(s: seq<T>, i: nat, j: nat)
    requires 0 < j <= i < |s|
    ensures Sinking(s, i, j)[j - 1 := s[i]][j := s[j - 1]] == Sinking(s, i, j - 1)
  {
    var l := Sinking(s, i, j)[j - 1 := s[i]][j := s[j - 1]];
    var r := Sinking(s, i, j - 1);
    forall m | 0 <= m < |s| ensures l[m] == r[m] {
      if m < j - 1 {
      } else if m <= j {
      } else if m <= i {
      } else {
      }
    }
  }

  lemma SinkDone<T>(s: seq<T>, i: nat, j: nat)
    requires j <= i < |s|
    ensures Sinking(s, i, j)[..i + 1] == s[..i][..j] + [s[i]] + s[..i][j..]
    ensures Sinking(s, i, j)[i + 1..] == s[i + 1..]
  {
    assert s[..i][..j] == s[..j] && s[..i][j..] == s[j..i];
  }

  /** x is strictly before s[j-1], so it moves past it. */
  lemma InsertMovesPast<T>(s: seq<T>, j: nat, x: T, before: (T, T) -> bool)
    requires 0 < j <= |s| && before(x, s[j - 1])
    ensures Insert(s[..j], x, before) + s[j..] == Insert(s[..j - 1], x, before) + s[j - 1..]
  {
    assert s[..j][..j - 1] == s[..j - 1];
    assert s[j - 1..] == [s[j - 1]] + s[j..];
  }

  /** x is not strictly before s[j-1], so it stops behind it. */
  lemma InsertStops<T>(s: seq<T>, j: nat, x: T, before: (T, T) -> bool)
    requires j <= |s| && (j == 0 || !before(x, s[j - 1]))
    ensures Insert(s[..j], x, before) == s[..j] + [x]
  {
  }
}
