/** Insertion-ordered maps as association lists: the order in which JavaScript's
    `Map` and plain objects enumerate their entries. Setting a key that is
    already present keeps its position; a new key goes to the end. */
module OrderedMap {
  import opened Common

  function Keys<K, V>(m: seq<(K, V)>): (ks: seq<K>)
    ensures |ks| == |m| && forall i :: 0 <= i < |m| ==> ks[i] == m[i].0
  {
    seq(|m|, i requires 0 <= i < |m| => m[i].0)
  }

  predicate Distinct<K(==)>(ks: seq<K>) {
    forall i, j :: 0 <= i < j < |ks| ==> ks[i] != ks[j]
  }

  /** `m.get(k)` */
  function Get<K(==), V>(m: seq<(K, V)>, k: K): (r: Option<V>)
    ensures r.None? <==> k !in Keys(m)
  {
    if |m| == 0 then None else if m[0].0 == k then Some(m[0].1) else Get(m[1..], k)
  }

  /** `m.set(k, v)`: overwrite in place, or append a new entry. */
  function Put<K(==), V>(m: seq<(K, V)>, k: K, v: V): (r: seq<(K, V)>)
    ensures |r| == if k in Keys(m) then |m| else |m| + 1
  {
    if |m| == 0 then [(k, v)]
    else if m[0].0 == k then [(k, v)] + m[1..]
    else [m[0]] + Put(m[1..], k, v)
  }

  /** `m.delete(k)` */
  function Remove<K(==), V>(m: seq<(K, V)>, k: K): (r: seq<(K, V)>)
    ensures |r| <= |m|
  {
    if |m| == 0 then [] else if m[0].0 == k then Remove(m[1..], k) else [m[0]] + Remove(m[1..], k)
  }

  /** The object spread `{...a, ...b}`: the keys of `a` in their order, then the
      keys of `b` that `a` lacks, each holding `b`'s value where `b` has one. */
  function Merge<K(==), V>(a: seq<(K, V)>, b: seq<(K, V)>): seq<(K, V)>
    decreases |b|
  {
    if |b| == 0 then a else Merge(Put(a, b[0].0, b[0].1), b[1..])
  }

  /** Setting the entries `es` one after another, in order. */
  function PutAll<K(==), V>(m: seq<(K, V)>, es: seq<(K, V)>): seq<(K, V)>
    decreases |es|
  {
    if |es| == 0 then m else Put(PutAll(m, es[..|es| - 1]), es[|es| - 1].0, es[|es| - 1].1)
  }

  lemma {:induction false} GetPut<K, V>(m: seq<(K, V)>, k: K, v: V, j: K)
    ensures Get(Put(m, k, v), j) == if j == k then Some(v) else Get(m, j)
  {
    if |m| > 0 && m[0].0 != k {
      GetPut(m[1..], k, v, j);
      assert Put(m, k, v)[1..] == Put(m[1..], k, v);
    } else if |m| > 0 {
      assert Put(m, k, v)[1..] == m[1..];
    }
  }

  lemma KeysAppend<K, V>(a: seq<(K, V)>, b: seq<(K, V)>)
    ensures Keys(a + b) == Keys(a) + Keys(b)
  {
  }

  /** The keys after `set`: unchanged when the key was present, else one more at the end. */
  lemma {:induction false} KeysPut<K, V>(m: seq<(K, V)>, k: K, v: V)
    ensures Keys(Put(m, k, v)) == if k in Keys(m) then Keys(m) else Keys(m) + [k]
  {
    if |m| > 0 {
      assert m == [m[0]] + m[1..];
      KeysAppend([m[0]], m[1..]);
      if m[0].0 != k {
        KeysPut(m[1..], k, v);
        KeysAppend([m[0]], Put(m[1..], k, v));
      } else {
        KeysAppend([(k, v)], m[1..]);
      }
    }
  }

  /** Setting a key the map lacks appends it. */
  lemma {:induction false} PutFresh<K, V>(m: seq<(K, V)>, k: K, v: V)
    requires k !in Keys(m)
    ensures Put(m, k, v) == m + [(k, v)]
  {
    if |m| > 0 {
      assert Keys(m) == [m[0].0] + Keys(m[1..]);
      PutFresh(m[1..], k, v);
      assert [m[0]] + (m[1..] + [(k, v)]) == m + [(k, v)];
    }
  }

  /** Setting the key of the last entry replaces that entry. */
  lemma PutLast<K, V>(m: seq<(K, V)>, k: K, v: V, w: V)
    requires k !in Keys(m)
    ensures Put(m + [(k, v)], k, w) == m + [(k, w)]
  {
    PutOverwritesAt(m, [], k, v, w);
    assert m + [(k, v)] + [] == m + [(k, v)];
    assert m + [(k, w)] + [] == m + [(k, w)];
  }

  lemma {:induction false} PutOverwritesAt<K, V>(m: seq<(K, V)>, tail: seq<(K, V)>, k: K, v: V, w: V)
    requires k !in Keys(m)
    ensures Put(m + [(k, v)] + tail, k, w) == m + [(k, w)] + tail
  {
    if |m| == 0 {
      assert m + [(k, v)] + tail == [(k, v)] + tail;
      assert ([(k, v)] + tail)[1..] == tail;
    } else {
      assert Keys(m) == [m[0].0] + Keys(m[1..]);
      Associative(m, [(k, v)], tail);
      Associative(m[1..], [(k, v)], tail);
      Associative(m, [(k, w)], tail);
      Associative(m[1..], [(k, w)], tail);
      ConsShift(m, [(k, v)] + tail);
      ConsShift(m, [(k, w)] + tail);
      PutOverwritesAt(m[1..], tail, k, v, w);
    }
  }

  /** What `get` finds is an entry of the map. */
  lemma {:induction false} GetIn<K, V>(m: seq<(K, V)>, k: K)
    requires Get(m, k).Some?
    ensures (k, Get(m, k).value) in m
  {
    if m[0].0 != k {
      GetIn(m[1..], k);
    }
  }

  /** `set` in one statement: the key now holds the value, every other key
      holds what it held, and keys stay distinct. */
  lemma PutSpec<K, V>(m: seq<(K, V)>, k: K, v: V)
    ensures Get(Put(m, k, v), k) == Some(v)
    ensures forall j :: j != k ==> Get(Put(m, k, v), j) == Get(m, j)
    ensures Distinct(Keys(m)) ==> Distinct(Keys(Put(m, k, v)))
  {
    forall j ensures Get(Put(m, k, v), j) == if j == k then Some(v) else Get(m, j) {
      GetPut(m, k, v, j);
    }
    KeysPut(m, k, v);
  }

  lemma DistinctPut<K, V>(m: seq<(K, V)>, k: K, v: V)
    requires Distinct(Keys(m))
    ensures Distinct(Keys(Put(m, k, v)))
  {
    KeysPut(m, k, v);
  }

  lemma {:induction false} GetRemove<K, V>(m: seq<(K, V)>, k: K, j: K)
    ensures Get(Remove(m, k), j) == if j == k then None else Get(m, j)
  {
    if |m| > 0 {
      GetRemove(m[1..], k, j);
    }
  }

  /** Removing a key keeps the other entries in their order. */
  lemma {:induction false} RemoveKeepsOthers<K, V>(m: seq<(K, V)>, k: K)
    ensures forall e :: e in Remove(m, k) <==> e in m && e.0 != k
    ensures Keys(Remove(m, k)) == FilterOut(Keys(m), k)
  {
    if |m| > 0 {
      RemoveKeepsOthers(m[1..], k);
      assert Keys(m) == [m[0].0] + Keys(m[1..]);
      if m[0].0 != k {
        assert Keys(Remove(m, k)) == [m[0].0] + Keys(Remove(m[1..], k));
      }
    }
  }

  /** Deleting a key that is absent changes nothing. */
  lemma {:induction false} RemoveAbsent<K, V>(m: seq<(K, V)>, k: K)
    requires k !in Keys(m)
    ensures Remove(m, k) == m
  {
    if |m| > 0 {
      assert Keys(m) == [m[0].0] + Keys(m[1..]);
      RemoveAbsent(m[1..], k);
      assert m == [m[0]] + m[1..];
    }
  }

  /** Deleting a key just added restores the map. */
  lemma {:induction false} RemovePutFresh<K, V>(m: seq<(K, V)>, k: K, v: V)
    requires k !in Keys(m)
    ensures Remove(Put(m, k, v), k) == m
  {
    PutFresh(m, k, v);
    if |m| == 0 {
      assert Remove([(k, v)], k) == Remove([(k, v)][1..], k);
    } else {
      assert Keys(m) == [m[0].0] + Keys(m[1..]);
      RemovePutFresh(m[1..], k, v);
      PutFresh(m[1..], k, v);
      assert (m + [(k, v)])[1..] == m[1..] + [(k, v)];
      assert m == [m[0]] + m[1..];
    }
  }

  function FilterOut<K(==)>(ks: seq<K>, k: K): seq<K> {
    if |ks| == 0 then [] else if ks[0] == k then FilterOut(ks[1..], k) else [ks[0]] + FilterOut(ks[1..], k)
  }

  lemma {:induction false} DistinctFilterOut<K>(ks: seq<K>, k: K)
    requires Distinct(ks)
    ensures Distinct(FilterOut(ks, k)) && forall x :: x in FilterOut(ks, k) <==> x in ks && x != k
  {
    if |ks| > 0 {
      var t := ks[1..];
      assert Distinct(t) by {
        forall i, j | 0 <= i < j < |t| ensures t[i] != t[j] { assert t[i] == ks[i + 1] && t[j] == ks[j + 1]; }
      }
      DistinctFilterOut(t, k);
      assert ks == [ks[0]] + t;
      if ks[0] != k {
        var f := FilterOut(t, k);
        assert ks[0] !in t by {
          forall j | 0 <= j < |t| ensures t[j] != ks[0] { assert t[j] == ks[j + 1]; }
        }
        assert FilterOut(ks, k) == [ks[0]] + f;
        forall i, j | 0 <= i < j < |[ks[0]] + f| ensures ([ks[0]] + f)[i] != ([ks[0]] + f)[j] {
          if i == 0 { assert ([ks[0]] + f)[j] == f[j - 1]; assert f[j - 1] in f; }
        }
      }
    }
  }

  lemma DistinctRemove<K, V>(m: seq<(K, V)>, k: K)
    requires Distinct(Keys(m))
    ensures Distinct(Keys(Remove(m, k)))
    ensures k !in Keys(Remove(m, k))
    ensures forall j :: j in Keys(Remove(m, k)) <==> j in Keys(m) && j != k
  {
    RemoveKeepsOthers(m, k);
    DistinctFilterOut(Keys(m), k);
  }

  /** What the spread `{...a, ...b}` holds under each key: `b`'s value where `b`
      has the key, otherwise `a`'s. */
  lemma {:induction false} GetMerge<K, V>(a: seq<(K, V)>, b: seq<(K, V)>, j: K)
    requires Distinct(Keys(b))
    ensures Get(Merge(a, b), j) == if j in Keys(b) then Get(b, j) else Get(a, j)
    decreases |b|
  {
    if |b| > 0 {
      assert Keys(b) == [b[0].0] + Keys(b[1..]);
      GetMerge(Put(a, b[0].0, b[0].1), b[1..], j);
      GetPut(a, b[0].0, b[0].1, j);
    }
  }

  /** The spread keeps the keys of `a` in place and only appends. */
  lemma {:induction false} KeysMerge<K, V>(a: seq<(K, V)>, b: seq<(K, V)>)
    ensures |Merge(a, b)| >= |a|
    ensures forall i :: 0 <= i < |a| ==> Merge(a, b)[i].0 == a[i].0
    ensures forall j :: j in Keys(Merge(a, b)) <==> j in Keys(a) || j in Keys(b)
    ensures Distinct(Keys(a)) ==> Distinct(Keys(Merge(a, b)))
    decreases |b|
  {
    if |b| > 0 {
      assert Keys(b) == [b[0].0] + Keys(b[1..]);
      var a1 := Put(a, b[0].0, b[0].1);
      KeysPut(a, b[0].0, b[0].1);
      assert forall i :: 0 <= i < |a| ==> a1[i].0 == Keys(a1)[i] == Keys(a)[i];
      KeysMerge(a1, b[1..]);
    }
  }

  lemma {:induction false} DistinctPutAll<K, V>(m: seq<(K, V)>, es: seq<(K, V)>)
    requires Distinct(Keys(m))
    ensures Distinct(Keys(PutAll(m, es)))
    decreases |es|
  {
    if |es| > 0 {
      DistinctPutAll(m, es[..|es| - 1]);
      DistinctPut(PutAll(m, es[..|es| - 1]), es[|es| - 1].0, es[|es| - 1].1);
    }
  }

  /** Setting entries whose keys are all distinct and new appends them all. */
  lemma {:induction false} PutAllFresh<K, V>(m: seq<(K, V)>, es: seq<(K, V)>)
    requires Distinct(Keys(m + es))
    ensures PutAll(m, es) == m + es
    decreases |es|
  {
    if |es| > 0 {
      var init := es[..|es| - 1];
      var last := es[|es| - 1];
      assert m + es == (m + init) + [last];
      assert Keys(m + init) == Keys(m + es)[..|m + init|];
      PutAllFresh(m, init);
      assert Keys(m + es)[|m + init|] == last.0;
      assert last.0 !in Keys(m + init);
      PutFresh(m + init, last.0, last.1);
    }
  }
}
