/**
 * Python dicts with their insertion order, as sequences of key/value
 * pairs: assigning an existing key replaces its value in place, a new key
 * goes to the end, and iteration follows the sequence.
 */
module Dicts {
  import opened Wrappers

  /** `d.get(k)`: the value of the first pair with key `k`. */
  function Lookup<V>(d: seq<(string, V)>, k: string): (r: Option<V>)
    ensures r.Some? <==> exists i | 0 <= i < |d| :: d[i].0 == k
  {
    if d == [] then None
    else if d[0].0 == k then Some(d[0].1)
    else Lookup(d[1..], k)
  }

  /** `d[k] = v`. */
  function Put<V>(d: seq<(string, V)>, k: string, v: V): (r: seq<(string, V)>)
    ensures |r| == |d| || |r| == |d| + 1
  {
    if d == [] then [(k, v)]
    else if d[0].0 == k then [(k, v)] + d[1..]
    else [d[0]] + Put(d[1..], k, v)
  }

  /** After `d[k] = v`, `k` reads `v` and every other key reads as before. */
  lemma {:induction false} LookupPut<V>(d: seq<(string, V)>, k: string, v: V, other: string)
    ensures Lookup(Put(d, k, v), k) == Some(v)
    ensures other != k ==> Lookup(Put(d, k, v), other) == Lookup(d, other)
  {
    if d != [] && d[0].0 != k {
      LookupPut(d[1..], k, v, other);
      assert Put(d, k, v)[1..] == Put(d[1..], k, v);
    }
  }

  /** Assignment never moves the first key; on an empty dict it becomes the first key. */
  lemma PutKeepsFirstKey<V>(d: seq<(string, V)>, k: string, v: V)
    ensures Put(d, k, v) != []
    ensures Put(d, k, v)[0].0 == if d == [] then k else d[0].0
  {
  }

  /** Assigning a key the dict lacks appends it at the end. */
  lemma {:induction false} PutAbsentAppends<V>(d: seq<(string, V)>, k: string, v: V)
    requires Lookup(d, k).None?
    ensures Put(d, k, v) == d + [(k, v)]
  {
    if d != [] {
      PutAbsentAppends(d[1..], k, v);
    }
  }

  /** The keys of `d`, in order. */
  function Keys<V>(d: seq<(string, V)>): (r: seq<string>)
    ensures |r| == |d| && forall i | 0 <= i < |d| :: r[i] == d[i].0
  {
    seq(|d|, i requires 0 <= i < |d| => d[i].0)
  }

  /** The values of `d`, in order (`d.values()`). */
  function Values<V>(d: seq<(string, V)>): (r: seq<V>)
    ensures |r| == |d| && forall i | 0 <= i < |d| :: r[i] == d[i].1
  {
    seq(|d|, i requires 0 <= i < |d| => d[i].1)
  }

  /** No key occurs twice. */
  predicate UniqueKeys<V>(d: seq<(string, V)>) {
    forall i, j | 0 <= i < j < |d| :: d[i].0 != d[j].0
  }

  /** Looking up in a concatenation reads the first part, then the second. */
  lemma {:induction false} LookupConcat<V>(a: seq<(string, V)>, b: seq<(string, V)>, k: string)
    ensures Lookup(a + b, k) == if Lookup(a, k).Some? then Lookup(a, k) else Lookup(b, k)
  {
    if a != [] {
      assert (a + b)[0] == a[0];
      assert (a + b)[1..] == a[1..] + b;
      LookupConcat(a[1..], b, k);
    } else {
      assert a + b == b;
    }
  }

  /** Without repeated keys, the rest of a dict is still without them and lacks its first key. */
  lemma UniqueTail<V>(d: seq<(string, V)>)
    requires UniqueKeys(d) && d != []
    ensures UniqueKeys(d[1..]) && Lookup(d[1..], d[0].0).None?
  {
    forall i, j | 0 <= i < j < |d[1..]| ensures d[1..][i].0 != d[1..][j].0 {
      assert d[1..][i] == d[i + 1] && d[1..][j] == d[j + 1];
    }
    forall i | 0 <= i < |d[1..]| ensures d[1..][i].0 != d[0].0 {
      assert d[1..][i] == d[i + 1];
    }
  }

  /** Without repeated keys, the front of a dict is still without them and lacks its last key. */
  lemma UniqueInit<V>(d: seq<(string, V)>)
    requires UniqueKeys(d) && d != []
    ensures UniqueKeys(d[..|d| - 1]) && Lookup(d[..|d| - 1], d[|d| - 1].0).None?
  {
    var init := d[..|d| - 1];
    forall i, j | 0 <= i < j < |init| ensures init[i].0 != init[j].0 {
      assert init[i] == d[i] && init[j] == d[j];
    }
    forall i | 0 <= i < |init| ensures init[i].0 != d[|d| - 1].0 {
      assert init[i] == d[i];
    }
  }

  /** Assignment keeps keys unique. */
  lemma {:induction false} PutKeepsKeysUnique<V>(d: seq<(string, V)>, k: string, v: V)
    requires UniqueKeys(d)
    ensures UniqueKeys(Put(d, k, v))
  {
    if d != [] && d[0].0 != k {
      PutKeepsKeysUnique(d[1..], k, v);
      var r := Put(d, k, v);
      assert r[1..] == Put(d[1..], k, v);
      LookupPut(d[1..], k, v, d[0].0);
      assert Lookup(d[1..], d[0].0) == None;
    }
  }
}
