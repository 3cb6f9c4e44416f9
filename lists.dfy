/**
 * `Array.prototype.filter` and the order-preserving sub-lists it yields.
 */
module Lists {
  /** `a` is `b` with some elements left out, the rest in their order. */
  predicate Sublist<T(==)>(a: seq<T>, b: seq<T>)
    decreases |b|
  {
    if |a| == 0 then true
    else if |b| == 0 then false
    else if a[0] == b[0] then Sublist(a[1..], b[1..])
    else Sublist(a, b[1..])
  }

  lemma {:induction false} SublistSkip<T>(a: seq<T>, b: seq<T>, x: T)
    requires Sublist(a, b)
    ensures Sublist(a, b + [x])
    decreases |b|
  {
    if |a| > 0 {
      assert (b + [x])[1..] == b[1..] + [x];
      if a[0] == b[0] {
        SublistSkip(a[1..], b[1..], x);
      } else {
        SublistSkip(a, b[1..], x);
      }
    }
  }

  lemma {:induction false} SublistLast<T>(b: seq<T>, x: T)
    ensures Sublist([x], b + [x])
    decreases |b|
  {
    if |b| == 0 {
      assert [x][1..] == [];
    } else if b[0] != x {
      assert (b + [x])[1..] == b[1..] + [x];
      SublistLast(b[1..], x);
    } else {
      assert [x][1..] == [];
    }
  }

  lemma {:induction false} SublistSnoc<T>(a: seq<T>, b: seq<T>, x: T)
    requires Sublist(a, b)
    ensures Sublist(a + [x], b + [x])
    decreases |b|
  {
    if |a| == 0 {
      assert a + [x] == [x];
      SublistLast(b, x);
    } else {
      assert (a + [x])[0] == a[0] && (a + [x])[1..] == a[1..] + [x];
      assert (b + [x])[1..] == b[1..] + [x];
      if a[0] == b[0] {
        SublistSnoc(a[1..], b[1..], x);
      } else {
        SublistSnoc(a, b[1..], x);
      }
    }
  }

  /** Every element of a sub-list is an element of the list. */
  lemma {:induction false} SublistIn<T>(a: seq<T>, b: seq<T>, x: T)
    requires Sublist(a, b) && x in a
    ensures x in b
    decreases |b|
  {
    if a[0] == b[0] {
      if x != a[0] {
        assert x in a[1..];
        SublistIn(a[1..], b[1..], x);
      }
    } else {
      SublistIn(a, b[1..], x);
    }
  }

  /** `s.filter(p)` */
  function Filter<T(!new)>(s: seq<T>, p: T -> bool): (r: seq<T>)
    ensures |r| <= |s|
    ensures forall x :: x in r <==> x in s && p(x)
  {
    if |s| == 0 then []
    else
      var front := Filter(s[..|s| - 1], p);
      assert forall x :: x in s <==> x in s[..|s| - 1] || x == s[|s| - 1];
      front + (if p(s[|s| - 1]) then [s[|s| - 1]] else [])
  }

  lemma FilterSnoc<T(!new)>(s: seq<T>, x: T, p: T -> bool)
    ensures Filter(s + [x], p) == Filter(s, p) + (if p(x) then [x] else [])
  {
    assert (s + [x])[..|s|] == s;
  }

  /** A filter keeps every copy of what it keeps and nothing else. */
  lemma {:induction false} FilterMultiset<T(!new)>(s: seq<T>, p: T -> bool)
    ensures forall x :: multiset(Filter(s, p))[x] == if p(x) then multiset(s)[x] else 0
    decreases |s|
  {
    if |s| > 0 {
      var front := s[..|s| - 1];
      FilterMultiset(front, p);
      assert s == front + [s[|s| - 1]];
    }
  }

  /** A filter keeps the order of what it keeps. */
  lemma {:induction false} FilterSublist<T(!new)>(s: seq<T>, p: T -> bool)
    ensures Sublist(Filter(s, p), s)
  {
    if |s| > 0 {
      var front := s[..|s| - 1];
      var x := s[|s| - 1];
      FilterSublist(front, p);
      assert s == front + [x];
      if p(x) {
        assert Filter(s, p) == Filter(front, p) + [x];
        SublistSnoc(Filter(front, p), front, x);
      } else {
        assert Filter(s, p) == Filter(front, p);
        SublistSkip(Filter(front, p), front, x);
      }
    }
  }

  /** Filtering what passes the filter changes nothing. */
  lemma {:induction false} FilterIdempotent<T(!new)>(s: seq<T>, p: T -> bool)
    ensures Filter(Filter(s, p), p) == Filter(s, p)
  {
    if |s| > 0 {
      var front := s[..|s| - 1];
      FilterIdempotent(front, p);
      var g := Filter(front, p);
      if p(s[|s| - 1]) {
        var f := g + [s[|s| - 1]];
        assert Filter(s, p) == f;
        assert f[..|f| - 1] == g && f[|f| - 1] == s[|s| - 1];
        assert Filter(f, p) == Filter(g, p) + [s[|s| - 1]];
      } else {
        assert Filter(s, p) == g;
      }
    }
  }

  /** The number of elements satisfying `p`. */
  function Count<T>(s: seq<T>, p: T -> bool): (n: nat)
    ensures n <= |s|
  {
    if |s| == 0 then 0 else Count(s[..|s| - 1], p) + (if p(s[|s| - 1]) then 1 else 0)
  }

  /** `s.filter(p).length` */
  lemma {:induction false} FilterCount<T(!new)>(s: seq<T>, p: T -> bool)
    ensures |Filter(s, p)| == Count(s, p)
  {
    if |s| > 0 {
      FilterCount(s[..|s| - 1], p);
    }
  }

  /** Elements satisfying one of two exclusive, exhaustive tests are counted once each. */
  lemma {:induction false} CountSplit<T>(s: seq<T>, p: T -> bool, q: T -> bool)
    requires forall i :: 0 <= i < |s| ==> p(s[i]) != q(s[i])
    ensures Count(s, p) + Count(s, q) == |s|
  {
    if |s| > 0 {
      var front := s[..|s| - 1];
      assert forall i :: 0 <= i < |front| ==> front[i] == s[i];
      CountSplit(front, p, q);
    }
  }

  /** A weaker test counts at least as many elements. */
  lemma {:induction false} CountMono<T>(s: seq<T>, p: T -> bool, q: T -> bool)
    requires forall i :: 0 <= i < |s| && p(s[i]) ==> q(s[i])
    ensures Count(s, p) <= Count(s, q)
  {
    if |s| > 0 {
      var front := s[..|s| - 1];
      assert forall i :: 0 <= i < |front| ==> front[i] == s[i];
      CountMono(front, p, q);
    }
  }

  /** A sub-list stays one when an element is put in front of the list. */
  lemma {:induction false} SublistCons<T>(a: seq<T>, b: seq<T>, x: T)
    requires Sublist(a, b)
    ensures Sublist(a, [x] + b)
    decreases |b|, 1
  {
    assert ([x] + b)[1..] == b;
    if |a| > 0 && a[0] == x {
      SublistTail(a, b);
    }
  }

  /** Dropping the first element of a sub-list leaves a sub-list. */
  lemma {:induction false} SublistTail<T>(a: seq<T>, b: seq<T>)
    requires Sublist(a, b) && |a| > 0
    ensures Sublist(a[1..], b)
    decreases |b|, 0
  {
    if a[0] == b[0] {
      SublistCons(a[1..], b[1..], b[0]);
      assert [b[0]] + b[1..] == b;
    } else {
      SublistTail(a, b[1..]);
      SublistCons(a[1..], b[1..], b[0]);
      assert [b[0]] + b[1..] == b;
    }
  }

  /** A filter that keeps every element returns the list. */
  lemma {:induction false} FilterAll<T(!new)>(s: seq<T>, p: T -> bool)
    requires forall i :: 0 <= i < |s| ==> p(s[i])
    ensures Filter(s, p) == s
  {
    if |s| > 0 {
      var front := s[..|s| - 1];
      assert forall i :: 0 <= i < |front| ==> front[i] == s[i];
      FilterAll(front, p);
      assert p(s[|s| - 1]);
      assert Filter(s, p) == Filter(front, p) + [s[|s| - 1]];
      assert s == front + [s[|s| - 1]];
    }
  }
}
