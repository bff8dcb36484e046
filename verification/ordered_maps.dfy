/**
 * Insertion-ordered maps with the semantics of a JavaScript `Map` (and of a
 * plain object used as a record): `set` on an existing key replaces its value
 * in place, `set` on a new key appends it, iteration follows insertion order.
 */
module OrderedMaps {
  import opened Wrappers

  type Entries<K, V> = seq<(K, V)>

  function Keys<K, V>(m: Entries<K, V>): (ks: seq<K>)
    ensures |ks| == |m|
    ensures forall i :: 0 <= i < |m| ==> ks[i] == m[i].0
  {
    if |m| == 0 then [] else [m[0].0] + Keys(m[1..])
  }

  function Values<K, V>(m: Entries<K, V>): (vs: seq<V>)
    ensures |vs| == |m|
    ensures forall i :: 0 <= i < |m| ==> vs[i] == m[i].1
  {
    if |m| == 0 then [] else [m[0].1] + Values(m[1..])
  }

  /** No key occurs twice, which every `Map` guarantees. */
  predicate DistinctKeys<K(==), V>(m: Entries<K, V>)
  {
    forall i, j :: 0 <= i < j < |m| ==> m[i].0 != m[j].0
  }

  predicate HasKey<K(==), V>(m: Entries<K, V>, k: K)
  {
    k in Keys(m)
  }

  /** `m.get(k)`: the value of the first entry with key `k`. */
  function Get<K(==), V>(m: Entries<K, V>, k: K): (r: Option<V>)
    ensures r.Some? <==> HasKey(m, k)
  {
    if |m| == 0 then None
    else if m[0].0 == k then Some(m[0].1)
    else Get(m[1..], k)
  }

  /** `m.set(k, v)`. */
  function Put<K(==), V>(m: Entries<K, V>, k: K, v: V): Entries<K, V>
  {
    if |m| == 0 then [(k, v)]
    else if m[0].0 == k then [(k, v)] + m[1..]
    else [m[0]] + Put(m[1..], k, v)
  }

  /** A key that is already present keeps its position; a new key goes last. */
  lemma {:induction false} PutKeys<K, V>(m: Entries<K, V>, k: K, v: V)
    ensures HasKey(m, k) ==> Keys(Put(m, k, v)) == Keys(m)
    ensures !HasKey(m, k) ==> Keys(Put(m, k, v)) == Keys(m) + [k]
  {
    if |m| == 0 {
    } else if m[0].0 == k {
      assert Keys(Put(m, k, v)) == [k] + Keys(m[1..]);
    } else {
      PutKeys(m[1..], k, v);
      assert Keys(m) == [m[0].0] + Keys(m[1..]);
      assert Keys(Put(m, k, v)) == [m[0].0] + Keys(Put(m[1..], k, v));
    }
  }

  /** Reading back the key just written gives the value written; other keys are untouched. */
  lemma {:induction false} PutGet<K, V>(m: Entries<K, V>, k: K, v: V, k': K)
    ensures Get(Put(m, k, v), k) == Some(v)
    ensures k' != k ==> Get(Put(m, k, v), k') == Get(m, k')
  {
    if |m| > 0 && m[0].0 != k {
      PutGet(m[1..], k, v, k');
    }
  }

  /** Every other key reads as before the write. */
  lemma PutOthers<K, V>(m: Entries<K, V>, k: K, v: V)
    ensures Get(Put(m, k, v), k) == Some(v)
    ensures forall k' :: k' != k ==> Get(Put(m, k, v), k') == Get(m, k')
  {
    forall k' | k' != k ensures Get(Put(m, k, v), k') == Get(m, k') {
      PutGet(m, k, v, k');
    }
    PutGet(m, k, v, k);
  }

  /** Writing back the value a key already holds leaves the map as it was. */
  lemma {:induction false} PutSame<K, V>(m: Entries<K, V>, k: K, v: V)
    requires Get(m, k) == Some(v)
    ensures Put(m, k, v) == m
  {
    if m[0].0 != k {
      PutSame(m[1..], k, v);
      assert m == [m[0]] + m[1..];
    }
  }

  lemma {:induction false} PutDistinct<K, V>(m: Entries<K, V>, k: K, v: V)
    requires DistinctKeys(m)
    ensures DistinctKeys(Put(m, k, v))
  {
    PutKeys(m, k, v);
    var r := Put(m, k, v);
    forall i, j | 0 <= i < j < |r|
      ensures r[i].0 != r[j].0
    {
      assert r[i].0 == Keys(r)[i] && r[j].0 == Keys(r)[j];
      if HasKey(m, k) {
        assert Keys(m)[i] == m[i].0 && Keys(m)[j] == m[j].0;
      } else if j < |m| {
        assert Keys(m)[i] == m[i].0 && Keys(m)[j] == m[j].0;
      } else {
        assert Keys(r)[j] == k;
        assert Keys(m)[i] == m[i].0;
      }
    }
  }

  /** In a map without repeated keys, `Get` finds the one entry with that key. */
  lemma {:induction false} GetAt<K, V>(m: Entries<K, V>, i: nat)
    requires DistinctKeys(m)
    requires i < |m|
    ensures Get(m, m[i].0) == Some(m[i].1)
  {
    if i > 0 {
      assert m[0].0 != m[i].0;
      assert m[1..][i - 1] == m[i];
      GetAt(m[1..], i - 1);
    }
  }

  /** `new Map(entries)`: the entries written one after another. */
  function FromEntries<K(==), V>(es: Entries<K, V>): Entries<K, V>
    decreases |es|
  {
    if |es| == 0 then [] else Put(FromEntries(es[..|es| - 1]), es[|es| - 1].0, es[|es| - 1].1)
  }

  lemma {:induction false} FromEntriesDistinct<K, V>(es: Entries<K, V>)
    ensures DistinctKeys(FromEntries(es))
    decreases |es|
  {
    if |es| > 0 {
      FromEntriesDistinct(es[..|es| - 1]);
      PutDistinct(FromEntries(es[..|es| - 1]), es[|es| - 1].0, es[|es| - 1].1);
    }
  }

  /** Every key written is present, and only keys written are present. */
  lemma {:induction false} FromEntriesKeys<K, V>(es: Entries<K, V>, k: K)
    ensures HasKey(FromEntries(es), k) <==> k in Keys(es)
    decreases |es|
  {
    if |es| > 0 {
      var init := es[..|es| - 1];
      var last := es[|es| - 1];
      FromEntriesKeys(init, k);
      PutKeys(FromEntries(init), last.0, last.1);
      KeysSnoc(es);
      assert k in Keys(init) + [last.0] <==> k in Keys(init) || k == last.0;
    }
  }

  /** The keys of a non-empty list are those of all but its last entry, then the last key. */
  lemma {:induction false} KeysSnoc<K, V>(es: Entries<K, V>)
    requires |es| > 0
    ensures Keys(es) == Keys(es[..|es| - 1]) + [es[|es| - 1].0]
  {
    var a := Keys(es);
    var b := Keys(es[..|es| - 1]) + [es[|es| - 1].0];
    assert |a| == |b|;
    forall i | 0 <= i < |a|
      ensures a[i] == b[i]
    {
      if i < |es| - 1 {
        assert b[i] == Keys(es[..|es| - 1])[i] == es[..|es| - 1][i].0;
      }
    }
  }

  /** The value stored for a key is the last value written for it. */
  lemma {:induction false} FromEntriesLastWins<K, V>(es: Entries<K, V>, i: nat)
    requires i < |es|
    requires forall j :: i < j < |es| ==> es[j].0 != es[i].0
    ensures Get(FromEntries(es), es[i].0) == Some(es[i].1)
    decreases |es|
  {
    var init := es[..|es| - 1];
    var last := es[|es| - 1];
    if i == |es| - 1 {
      PutGet(FromEntries(init), last.0, last.1, last.0);
    } else {
      FromEntriesLastWins(init, i);
      PutGet(FromEntries(init), last.0, last.1, es[i].0);
    }
  }

  /** The value found for a present key is one of the map's values. */
  lemma {:induction false} GetIn<K, V>(m: Entries<K, V>, k: K)
    requires HasKey(m, k)
    ensures Get(m, k).Some? && Get(m, k).value in Values(m)
  {
    if m[0].0 != k {
      assert Keys(m) == [m[0].0] + Keys(m[1..]);
      GetIn(m[1..], k);
      var i :| 0 <= i < |m| - 1 && Values(m[1..])[i] == Get(m, k).value;
      assert Values(m)[i + 1] == m[1..][i].1;
    }
  }

  /** Writing an entry adds that entry, or keeps the ones already there. */
  lemma {:induction false} PutEntries<K, V>(m: Entries<K, V>, k: K, v: V)
    ensures forall e :: e in Put(m, k, v) ==> e in m || e == (k, v)
  {
    if |m| > 0 && m[0].0 != k {
      PutEntries(m[1..], k, v);
      assert Put(m, k, v) == [m[0]] + Put(m[1..], k, v);
      assert forall e :: e in m[1..] ==> e in m;
    } else if |m| > 0 {
      assert forall e :: e in m[1..] ==> e in m;
    }
  }

  /** A map built from entries holds only entries that were written. */
  lemma {:induction false} FromEntriesEntries<K, V>(es: Entries<K, V>)
    ensures forall e :: e in FromEntries(es) ==> e in es
    decreases |es|
  {
    if |es| > 0 {
      var init := es[..|es| - 1];
      FromEntriesEntries(init);
      PutEntries(FromEntries(init), es[|es| - 1].0, es[|es| - 1].1);
      assert forall e :: e in init ==> e in es;
    }
  }

  /** The entries of a list of items, each stored under its key. */
  function KeyedBy<K, T>(xs: seq<T>, key: T -> K): (r: Entries<K, T>)
    ensures |r| == |xs|
    ensures forall i :: 0 <= i < |xs| ==> r[i] == (key(xs[i]), xs[i])
  {
    if |xs| == 0 then [] else [(key(xs[0]), xs[0])] + KeyedBy(xs[1..], key)
  }

  /** Without repeated keys, the first key does not occur again in the rest. */
  lemma HeadKeyFresh<K, V>(m: Entries<K, V>)
    requires |m| > 0 && DistinctKeys(m)
    ensures !HasKey(m[1..], m[0].0)
    ensures DistinctKeys(m[1..])
  {
    forall i | 0 <= i < |m| - 1
      ensures Keys(m[1..])[i] != m[0].0
    {
      assert Keys(m[1..])[i] == m[i + 1].0;
    }
  }

  /** Looking up a key in two concatenated entry lists consults the first list first. */
  lemma {:induction false} GetConcat<K, V>(a: Entries<K, V>, b: Entries<K, V>, k: K)
    ensures Get(a + b, k) == if HasKey(a, k) then Get(a, k) else Get(b, k)
  {
    if |a| == 0 {
      assert a + b == b;
    } else {
      assert (a + b)[1..] == a[1..] + b;
      assert Keys(a) == [a[0].0] + Keys(a[1..]);
      GetConcat(a[1..], b, k);
    }
  }

  /** Every entry satisfies `p`. */
  predicate AllEntries<K, V>(m: Entries<K, V>, p: (K, V) -> bool)
  {
    forall i :: 0 <= i < |m| ==> p(m[i].0, m[i].1)
  }

  /** Writing an entry that satisfies `p` into a map whose entries all do keeps that true. */
  lemma {:induction false} PutAll<K, V>(m: Entries<K, V>, k: K, v: V, p: (K, V) -> bool)
    requires AllEntries(m, p) && p(k, v)
    ensures AllEntries(Put(m, k, v), p)
  {
    if |m| > 0 && m[0].0 != k {
      PutAll(m[1..], k, v, p);
      var r := Put(m, k, v);
      assert r == [m[0]] + Put(m[1..], k, v);
      forall i | 0 <= i < |r|
        ensures p(r[i].0, r[i].1)
      {
        if i > 0 {
          assert r[i] == Put(m[1..], k, v)[i - 1];
        }
      }
    }
  }

  lemma {:induction false} FromEntriesAll<K, V>(es: Entries<K, V>, p: (K, V) -> bool)
    requires AllEntries(es, p)
    ensures AllEntries(FromEntries(es), p)
    decreases |es|
  {
    if |es| > 0 {
      FromEntriesAll(es[..|es| - 1], p);
      PutAll(FromEntries(es[..|es| - 1]), es[|es| - 1].0, es[|es| - 1].1, p);
    }
  }
}
