/**
 * Insertion-ordered records and Maps (JavaScript objects and `Map`s), as
 * sequences of key/value pairs. Assigning an existing key keeps its position;
 * a new key goes last.
 */
module Assoc {
  import opened Options

  function Keys<K, V>(m: seq<(K, V)>): (r: seq<K>)
    ensures |r| == |m| && forall i :: 0 <= i < |m| ==> r[i] == m[i].0
  {
    if |m| == 0 then [] else [m[0].0] + Keys(m[1..])
  }

  predicate DistinctKeys<K(==), V>(m: seq<(K, V)>)
  {
    forall i, j :: 0 <= i < j < |m| ==> m[i].0 != m[j].0
  }

  predicate HasKey<K(==), V>(m: seq<(K, V)>, k: K) { k in Keys(m) }

  /** `m[k]`: the value of the first entry with key `k`. */
  function Get<K(==), V>(m: seq<(K, V)>, k: K): (r: Option<V>)
    ensures r.None? <==> !HasKey(m, k)
    ensures r.Some? ==> exists i :: 0 <= i < |m| && m[i] == (k, r.value)
  {
    if |m| == 0 then None
    else if m[0].0 == k then Some(m[0].1)
    else Get(m[1..], k)
  }

  /** `m[k] = v` */
  function Put<K(==), V>(m: seq<(K, V)>, k: K, v: V): (r: seq<(K, V)>)
  {
    if |m| == 0 then [(k, v)]
    else if m[0].0 == k then [(k, v)] + m[1..]
    else [m[0]] + Put(m[1..], k, v)
  }

  lemma {:induction false} PutGet<K, V>(m: seq<(K, V)>, k: K, v: V, k': K)
    ensures Get(Put(m, k, v), k') == if k' == k then Some(v) else Get(m, k')
  {
    if |m| > 0 && m[0].0 != k {
      PutGet(m[1..], k, v, k');
    }
  }

  /** Assignment keeps existing keys in place and appends a new one. */
  lemma PutKeys<K, V>(m: seq<(K, V)>, k: K, v: V)
    ensures Keys(Put(m, k, v)) == if HasKey(m, k) then Keys(m) else Keys(m) + [k]
    ensures DistinctKeys(m) ==> DistinctKeys(Put(m, k, v))
  {
    PutKeysOrder(m, k, v);
    if DistinctKeys(m) {
      var r := Put(m, k, v);
      forall i, j | 0 <= i < j < |r| ensures r[i].0 != r[j].0 {
        assert Keys(r)[i] == r[i].0 && Keys(r)[j] == r[j].0;
        if !HasKey(m, k) && j == |m| {
          assert Keys(m)[i] == m[i].0;
        }
      }
    }
  }

  lemma {:induction false} PutKeysOrder<K, V>(m: seq<(K, V)>, k: K, v: V)
    ensures Keys(Put(m, k, v)) == if HasKey(m, k) then Keys(m) else Keys(m) + [k]
  {
    if |m| > 0 {
      if m[0].0 == k {
        assert Keys(Put(m, k, v)) == [k] + Keys(m[1..]);
      } else {
        PutKeysOrder(m[1..], k, v);
        assert Keys(Put(m, k, v)) == [m[0].0] + Keys(Put(m[1..], k, v));
        assert HasKey(m, k) == HasKey(m[1..], k);
      }
    }
  }

  /** Assigning a new key appends it. */
  lemma {:induction false} PutNew<K, V>(m: seq<(K, V)>, k: K, v: V)
    requires !HasKey(m, k)
    ensures Put(m, k, v) == m + [(k, v)]
  {
    if |m| > 0 {
      assert Keys(m) == [m[0].0] + Keys(m[1..]);
      PutNew(m[1..], k, v);
      assert m == [m[0]] + m[1..];
    }
  }

  /** The values in key order. */
  function Values<K, V>(m: seq<(K, V)>): (r: seq<V>)
    ensures |r| == |m| && forall i :: 0 <= i < |m| ==> r[i] == m[i].1
  {
    if |m| == 0 then [] else [m[0].1] + Values(m[1..])
  }

  /** Keys of a record with one more entry at the end. */
  lemma KeysSnoc<K, V>(m: seq<(K, V)>, e: (K, V))
    ensures Keys(m + [e]) == Keys(m) + [e.0]
    ensures forall k :: HasKey(m + [e], k) <==> HasKey(m, k) || k == e.0
  {
    assert Keys(m + [e]) == Keys(m) + [e.0];
  }

  /** Lookup in a record with one more entry at the end: an earlier entry wins. */
  lemma {:induction false} GetSnoc<K, V>(m: seq<(K, V)>, e: (K, V), k: K)
    ensures Get(m + [e], k) == if HasKey(m, k) then Get(m, k) else if k == e.0 then Some(e.1) else None
  {
    if |m| == 0 {
      assert m + [e] == [e];
    } else {
      assert (m + [e])[1..] == m[1..] + [e];
      assert Keys(m) == [m[0].0] + Keys(m[1..]);
      GetSnoc(m[1..], e, k);
    }
  }

  /** Everything a loop needs about one assignment: keys, distinctness and entries. */
  lemma PutFacts<K, V>(m: seq<(K, V)>, k: K, v: V)
    ensures forall x :: HasKey(Put(m, k, v), x) <==> HasKey(m, x) || x == k
    ensures DistinctKeys(m) ==> DistinctKeys(Put(m, k, v))
    ensures forall i :: 0 <= i < |Put(m, k, v)| ==> Put(m, k, v)[i] == (k, v) || Put(m, k, v)[i] in m
  {
    PutKeys(m, k, v);
    PutIn(m, k, v);
  }

  lemma {:induction false} PutIn<K, V>(m: seq<(K, V)>, k: K, v: V)
    ensures forall i :: 0 <= i < |Put(m, k, v)| ==> Put(m, k, v)[i] == (k, v) || Put(m, k, v)[i] in m
  {
    if |m| > 0 && m[0].0 != k {
      PutIn(m[1..], k, v);
      forall i | 0 < i < |Put(m, k, v)| ensures Put(m, k, v)[i] == (k, v) || Put(m, k, v)[i] in m {
        assert Put(m, k, v)[i] == Put(m[1..], k, v)[i - 1];
      }
    }
  }

  /** Assigning a key twice is assigning it the second value. */
  lemma {:induction false} PutPut<K, V>(m: seq<(K, V)>, k: K, v: V, w: V)
    ensures Put(Put(m, k, v), k, w) == Put(m, k, w)
  {
    if |m| > 0 && m[0].0 != k {
      PutPut(m[1..], k, v, w);
      var x := Put(m, k, v);
      assert x == [m[0]] + Put(m[1..], k, v);
      assert x[0] == m[0] && x[1..] == Put(m[1..], k, v);
    }
  }

  /** Assigning a key the value it already has changes nothing. */
  lemma {:induction false} PutSame<K, V>(m: seq<(K, V)>, k: K, v: V)
    requires Get(m, k) == Some(v)
    ensures Put(m, k, v) == m
  {
    if m[0].0 != k {
      PutSame(m[1..], k, v);
    }
  }

  /** `{...m, ...u}`: the entries of `u` assigned in order. */
  function PutAll<K(==), V>(m: seq<(K, V)>, u: seq<(K, V)>): seq<(K, V)>
    decreases |u|
  {
    if |u| == 0 then m else PutAll(Put(m, u[0].0, u[0].1), u[1..])
  }

  /** After the spread, a key of `u` has its value from `u`; any other key keeps its value from `m`. */
  lemma {:induction false} PutAllGet<K, V>(m: seq<(K, V)>, u: seq<(K, V)>, k: K)
    requires DistinctKeys(u)
    ensures Get(PutAll(m, u), k) == if HasKey(u, k) then Get(u, k) else Get(m, k)
    decreases |u|
  {
    if |u| > 0 {
      assert Keys(u) == [u[0].0] + Keys(u[1..]);
      PutAllGet(Put(m, u[0].0, u[0].1), u[1..], k);
      PutGet(m, u[0].0, u[0].1, k);
      if k == u[0].0 {
        assert !HasKey(u[1..], k) by {
          forall l | 0 <= l < |u[1..]| ensures Keys(u[1..])[l] != k {
            assert u[1..][l] == u[l + 1];
          }
        }
      }
    }
  }

  /** The spread keeps the keys of `m` first, in their order. */
  lemma {:induction false} PutAllKeys<K, V>(m: seq<(K, V)>, u: seq<(K, V)>)
    ensures |PutAll(m, u)| >= |m| && Keys(PutAll(m, u))[..|m|] == Keys(m)
    decreases |u|
  {
    if |u| > 0 {
      var m' := Put(m, u[0].0, u[0].1);
      PutKeys(m, u[0].0, u[0].1);
      PutAllKeys(m', u[1..]);
      assert Keys(m')[..|m|] == Keys(m);
      assert Keys(PutAll(m, u))[..|m'|][..|m|] == Keys(PutAll(m, u))[..|m|];
    }
  }
}
