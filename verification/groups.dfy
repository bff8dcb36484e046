/** `lodash/groupBy` over insertion-ordered records. */
module Groups {
  import opened Wrappers
  import opened OrderedMaps

  /** The elements of `xs` whose key is `k`, in their original order. */
  function WithKey<T, K(==)>(xs: seq<T>, key: T -> K, k: K): (r: seq<T>)
    ensures |r| <= |xs|
    ensures forall i :: 0 <= i < |r| ==> key(r[i]) == k
    decreases |xs|
  {
    if |xs| == 0 then []
    else WithKey(xs[..|xs| - 1], key, k) + (if key(xs[|xs| - 1]) == k then [xs[|xs| - 1]] else [])
  }

  /**
   * `groupBy(xs, key)`: each element is appended to the group of its key; a
   * key seen for the first time opens a new group at the end.
   */
  function GroupBy<T, K(==)>(xs: seq<T>, key: T -> K): (r: Entries<K, seq<T>>)
    ensures |r| <= |xs|
    ensures |xs| > 0 ==> |r| > 0
    decreases |xs|
  {
    if |xs| == 0 then []
    else
      var m := GroupBy(xs[..|xs| - 1], key);
      var x := xs[|xs| - 1];
      PutKeys(m, key(x), Get(m, key(x)).GetOr([]) + [x]);
      Put(m, key(x), Get(m, key(x)).GetOr([]) + [x])
  }

  /**
   * The group of a key holds exactly the elements with that key, in order,
   * and a key has a group exactly when some element carries it.
   */
  lemma {:induction false} GroupByGet<T, K>(xs: seq<T>, key: T -> K, k: K)
    ensures Get(GroupBy(xs, key), k) ==
      if |WithKey(xs, key, k)| == 0 then None else Some(WithKey(xs, key, k))
    decreases |xs|
  {
    if |xs| > 0 {
      var init := xs[..|xs| - 1];
      var x := xs[|xs| - 1];
      var m := GroupBy(init, key);
      GroupByGet(init, key, k);
      PutGet(m, key(x), Get(m, key(x)).GetOr([]) + [x], k);
      if key(x) == k {
        assert WithKey(xs, key, k) == WithKey(init, key, k) + [x];
      } else {
        assert WithKey(xs, key, k) == WithKey(init, key, k);
      }
    }
  }

  lemma {:induction false} GroupByDistinct<T, K>(xs: seq<T>, key: T -> K)
    ensures DistinctKeys(GroupBy(xs, key))
    decreases |xs|
  {
    if |xs| > 0 {
      var m := GroupBy(xs[..|xs| - 1], key);
      var x := xs[|xs| - 1];
      GroupByDistinct(xs[..|xs| - 1], key);
      PutDistinct(m, key(x), Get(m, key(x)).GetOr([]) + [x]);
    }
  }

  /** The summed length of all groups. */
  function TotalSize<K, T>(m: Entries<K, seq<T>>): nat
  {
    if |m| == 0 then 0 else |m[0].1| + TotalSize(m[1..])
  }

  /** Replacing one group by a group one element longer adds one to the total. */
  lemma {:induction false} PutTotalSize<K, T>(m: Entries<K, seq<T>>, k: K, x: T)
    ensures TotalSize(Put(m, k, Get(m, k).GetOr([]) + [x])) == TotalSize(m) + 1
  {
    if |m| == 0 {
    } else if m[0].0 == k {
      assert Put(m, k, Get(m, k).GetOr([]) + [x])[1..] == m[1..];
    } else {
      assert Get(m, k) == Get(m[1..], k);
      PutTotalSize(m[1..], k, x);
      assert Put(m, k, Get(m, k).GetOr([]) + [x])[1..] == Put(m[1..], k, Get(m[1..], k).GetOr([]) + [x]);
    }
  }

  /** Grouping loses and duplicates nothing: the groups together are as long as the input. */
  lemma {:induction false} GroupBySize<T, K>(xs: seq<T>, key: T -> K)
    ensures TotalSize(GroupBy(xs, key)) == |xs|
    decreases |xs|
  {
    if |xs| > 0 {
      GroupBySize(xs[..|xs| - 1], key);
      PutTotalSize(GroupBy(xs[..|xs| - 1], key), key(xs[|xs| - 1]), xs[|xs| - 1]);
    }
  }
}
