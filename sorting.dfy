/**
 * `Array.prototype.sort` with a comparator: a stable sort by a total preorder
 * `leq` (`leq(a, b)` means the comparator does not put `b` before `a`). The
 * repository sorts fresh arrays in expression chains (a function here) and
 * caller-owned arrays in place (a method on an `array`).
 */
module Sorting {
  /** `leq` is total and transitive, as a consistent comparator is. */
  ghost predicate TotalPreorder<T(!new)>(leq: (T, T) -> bool)
  {
    (forall a, b :: leq(a, b) || leq(b, a))
    && (forall a, b, c :: leq(a, b) && leq(b, c) ==> leq(a, c))
  }

  /** `leq` orders distinct elements strictly, as a comparison of the elements themselves does. */
  ghost predicate Antisymmetric<T(!new)>(leq: (T, T) -> bool)
  {
    forall a, b :: leq(a, b) && leq(b, a) ==> a == b
  }

  ghost predicate Sorted<T>(s: seq<T>, leq: (T, T) -> bool)
  {
    forall i, j :: 0 <= i < j < |s| ==> leq(s[i], s[j])
  }

  /** Inserts `x` before the first element it is not after: earlier equal elements stay first. */
  function Insert<T>(x: T, s: seq<T>, leq: (T, T) -> bool): (r: seq<T>)
    ensures |r| == |s| + 1
    ensures multiset(r) == multiset(s) + multiset{x}
  {
    if |s| == 0 then [x]
    else if leq(x, s[0]) then [x] + s
    else
      var tail := Insert(x, s[1..], leq);
      assert s == [s[0]] + s[1..];
      [s[0]] + tail
  }

  /** A stable insertion sort. */
  function Sort<T>(s: seq<T>, leq: (T, T) -> bool): (r: seq<T>)
    ensures |r| == |s|
    ensures multiset(r) == multiset(s)
  {
    if |s| == 0 then []
    else
      assert s == [s[0]] + s[1..];
      Insert(s[0], Sort(s[1..], leq), leq)
  }

  lemma {:induction false} InsertSorted<T(!new)>(x: T, s: seq<T>, leq: (T, T) -> bool)
    requires TotalPreorder(leq) && Sorted(s, leq)
    ensures Sorted(Insert(x, s, leq), leq)
  {
    if |s| > 0 && !leq(x, s[0]) {
      InsertSorted(x, s[1..], leq);
      HeadBeforeInsert(x, s, leq);
      assert Insert(x, s, leq) == [s[0]] + Insert(x, s[1..], leq);
    } else if |s| > 0 {
      forall j | 0 <= j < |s| ensures leq(x, s[j]) {
        if j > 0 { assert leq(s[0], s[j]); }
      }
    }
  }

  /** When `x` goes after the head, the head comes before everything it is inserted into. */
  lemma HeadBeforeInsert<T(!new)>(x: T, s: seq<T>, leq: (T, T) -> bool)
    requires TotalPreorder(leq) && Sorted(s, leq) && |s| > 0 && !leq(x, s[0])
    ensures forall j :: 0 <= j < |s| ==> leq(s[0], Insert(x, s[1..], leq)[j])
  {
    var tail := Insert(x, s[1..], leq);
    forall j | 0 <= j < |tail| ensures leq(s[0], tail[j]) {
      assert tail[j] in multiset(tail);
      if tail[j] != x {
        assert tail[j] in multiset(s[1..]);
        var k :| 0 <= k < |s[1..]| && s[1..][k] == tail[j];
        assert s[k + 1] == tail[j];
      }
    }
  }

  /** The sort returns its input's elements in order. */
  lemma {:induction false} SortSorted<T(!new)>(s: seq<T>, leq: (T, T) -> bool)
    requires TotalPreorder(leq)
    ensures Sorted(Sort(s, leq), leq)
  {
    if |s| > 0 {
      SortSorted(s[1..], leq);
      InsertSorted(s[0], Sort(s[1..], leq), leq);
    }
  }

  /** Sorts `a` in place (insertion sort by adjacent swaps). */
  method SortInPlace<T(!new)>(a: array<T>, leq: (T, T) -> bool)
    requires TotalPreorder(leq)
    modifies a
    ensures Sorted(a[..], leq)
    ensures multiset(a[..]) == multiset(old(a[..]))
  {
    var i := 0;
    while i < a.Length
      invariant 0 <= i <= a.Length
      invariant Sorted(a[..i], leq)
      invariant multiset(a[..]) == multiset(old(a[..]))
    {
      SinkLast(a, i, leq);
      i := i + 1;
    }
    assert a[..] == a[..a.Length];
  }

  /** Moves `a[i]` down past the elements it comes before, so that `a[..i + 1]` is sorted. */
  method SinkLast<T(!new)>(a: array<T>, i: nat, leq: (T, T) -> bool)
    requires TotalPreorder(leq) && i < a.Length && Sorted(a[..i], leq)
    modifies a
    ensures Sorted(a[..i + 1], leq)
    ensures multiset(a[..]) == multiset(old(a[..]))
  {
    assert forall k, l :: 0 <= k < l < i ==> leq(a[k], a[l]) by {
      forall k, l | 0 <= k < l < i ensures leq(a[k], a[l]) {
        assert a[..i][k] == a[k] && a[..i][l] == a[l];
      }
    }
    var j := i;
    while j > 0 && !leq(a[j - 1], a[j])
      invariant 0 <= j <= i
      invariant forall k, l :: 0 <= k < l <= i && k != j && l != j ==> leq(a[k], a[l])
      invariant forall l :: j < l <= i ==> leq(a[j], a[l])
      invariant multiset(a[..]) == multiset(old(a[..]))
    {
      a[j - 1], a[j] := a[j], a[j - 1];
      j := j - 1;
    }
    assert forall k :: 0 <= k < j ==> leq(a[k], a[j]) by {
      forall k | 0 <= k < j ensures leq(a[k], a[j]) {
        if k < j - 1 { assert leq(a[k], a[j - 1]); }
      }
    }
    assert forall k, l :: 0 <= k < l <= i ==> leq(a[k], a[l]);
  }

  /** Under an antisymmetric order there is one sorted arrangement of a multiset. */
  lemma {:induction false} SortedUnique<T(!new)>(a: seq<T>, b: seq<T>, leq: (T, T) -> bool)
    requires TotalPreorder(leq) && Antisymmetric(leq)
    requires Sorted(a, leq) && Sorted(b, leq) && multiset(a) == multiset(b)
    ensures a == b
    decreases |a|
  {
    assert |a| == |multiset(a)| == |multiset(b)| == |b|;
    if |a| > 0 {
      SortedHeads(a, b, leq);
      TailMultisets(a, b);
      assert Sorted(a[1..], leq) && Sorted(b[1..], leq);
      SortedUnique(a[1..], b[1..], leq);
      assert a == [a[0]] + a[1..] && b == [b[0]] + b[1..];
    }
  }

  lemma SortedHeads<T(!new)>(a: seq<T>, b: seq<T>, leq: (T, T) -> bool)
    requires Antisymmetric(leq) && Sorted(a, leq) && Sorted(b, leq)
    requires |a| > 0 && |b| > 0 && multiset(a) == multiset(b)
    ensures a[0] == b[0]
  {
    assert a[0] in multiset(b);
    var j :| 0 <= j < |b| && b[j] == a[0];
    assert b[0] in multiset(a);
    var k :| 0 <= k < |a| && a[k] == b[0];
    assert j > 0 ==> leq(b[0], b[j]);
    assert k > 0 ==> leq(a[0], a[k]);
  }

  lemma TailMultisets<T>(a: seq<T>, b: seq<T>)
    requires |a| > 0 && |b| > 0 && a[0] == b[0] && multiset(a) == multiset(b)
    ensures multiset(a[1..]) == multiset(b[1..])
  {
    assert a == [a[0]] + a[1..] && b == [b[0]] + b[1..];
    var x := a[0];
    assert multiset(a) == multiset{x} + multiset(a[1..]);
    assert multiset(b) == multiset{x} + multiset(b[1..]);
    forall y ensures multiset(a[1..])[y] == multiset(b[1..])[y] {
      assert multiset(a)[y] == multiset{x}[y] + multiset(a[1..])[y];
      assert multiset(b)[y] == multiset{x}[y] + multiset(b[1..])[y];
    }
  }

  /** A sorted permutation of `s` is the one `Sort` returns. */
  lemma SortedIsSort<T(!new)>(s: seq<T>, r: seq<T>, leq: (T, T) -> bool)
    requires TotalPreorder(leq) && Antisymmetric(leq)
    requires Sorted(r, leq) && multiset(r) == multiset(s)
    ensures r == Sort(s, leq)
  {
    SortSorted(s, leq);
    SortedUnique(r, Sort(s, leq), leq);
  }
}
