/**
 * Query-string building in the web client (StockDeal/src/api/query.ts).
 *
 * `params` is the list of the parameter object's own entries in
 * `Object.entries` order; a JavaScript object's keys are distinct.
 * `URLSearchParams` is modelled as a list of name/value pairs; the
 * percent-encoding of its serialisation is the `encode` parameter.
 */
module QueryString {
  import opened Wrappers
  import opened Dicts

  /** `QueryValue`; a number carries the text `String(n)` gives it. */
  datatype QueryValue = QStr(s: string) | QNum(text: string) | QBool(b: bool) | QNull | QUndefined

  predicate IsNullish(v: QueryValue) {
    v == QNull || v == QUndefined
  }

  /** `String(value)` for the values that are kept. */
  function ValueText(v: QueryValue): string
    requires !IsNullish(v)
  {
    match v
    case QStr(s) => s
    case QNum(text) => text
    case QBool(b) => if b then "true" else "false"
  }

  /** The entries kept by the filter, as name/text pairs, in order. */
  function KeptPairs(params: seq<(string, QueryValue)>): (r: seq<(string, string)>)
    ensures |r| <= |params|
  {
    if params == [] then []
    else
      var last := params[|params| - 1];
      KeptPairs(params[..|params| - 1]) + if IsNullish(last.1) then [] else [(last.0, ValueText(last.1))]
  }

  /** `URLSearchParams.set`: the first pair named `k` takes value `v` and later ones go; without one, the pair is appended. */
  function SetPair(list: seq<(string, string)>, k: string, v: string): seq<(string, string)> {
    if Lookup(list, k).None? then list + [(k, v)] else ReplaceFirst(list, k, v, false)
  }

  /** Replace the first pair named `k` by `(k, v)` and drop every other one; `seen` says the first is behind us. */
  function ReplaceFirst(list: seq<(string, string)>, k: string, v: string, seen: bool): (r: seq<(string, string)>)
    ensures |r| <= |list|
  {
    if list == [] then []
    else if list[0].0 == k then
      (if seen then [] else [(k, v)]) + ReplaceFirst(list[1..], k, v, true)
    else [list[0]] + ReplaceFirst(list[1..], k, v, seen)
  }

  /** The pairs after setting every kept entry in turn. */
  function SetAll(pairs: seq<(string, string)>): seq<(string, string)> {
    if pairs == [] then []
    else SetPair(SetAll(pairs[..|pairs| - 1]), pairs[|pairs| - 1].0, pairs[|pairs| - 1].1)
  }

  /** `URLSearchParams.toString()`: `name=value` pairs joined by `&`. */
  function Serialize(list: seq<(string, string)>, encode: string -> string): string {
    if list == [] then ""
    else if |list| == 1 then encode(list[0].0) + "=" + encode(list[0].1)
    else encode(list[0].0) + "=" + encode(list[0].1) + "&" + Serialize(list[1..], encode)
  }

  /** The query string `buildQuery` returns. */
  function QueryOf(params: seq<(string, QueryValue)>, encode: string -> string): string {
    if KeptPairs(params) == [] then "" else "?" + Serialize(SetAll(KeptPairs(params)), encode)
  }

  /** After setting `k` to `v`, `k` reads `v` and every other name reads as before. */
  lemma {:induction false} SetPairLookup(list: seq<(string, string)>, k: string, v: string, other: string)
    ensures Lookup(SetPair(list, k, v), k) == Some(v)
    ensures other != k ==> Lookup(SetPair(list, k, v), other) == Lookup(list, other)
  {
    if Lookup(list, k).None? {
      LookupAppend(list, k, v, k);
      LookupAppend(list, k, v, other);
    } else {
      ReplaceFirstLookup(list, k, v, false, other);
    }
  }

  lemma {:induction false} LookupAppend(list: seq<(string, string)>, k: string, v: string, other: string)
    requires Lookup(list, k).None?
    ensures Lookup(list + [(k, v)], other) == if other == k then Some(v) else Lookup(list, other)
  {
    if list != [] {
      assert (list + [(k, v)])[1..] == list[1..] + [(k, v)];
      LookupAppend(list[1..], k, v, other);
    }
  }

  lemma {:induction false} ReplaceFirstLookup(list: seq<(string, string)>, k: string, v: string, seen: bool, other: string)
    requires !seen ==> Lookup(list, k).Some?
    ensures !seen ==> Lookup(ReplaceFirst(list, k, v, seen), k) == Some(v)
    ensures seen ==> Lookup(ReplaceFirst(list, k, v, seen), k) == None
    ensures other != k ==> Lookup(ReplaceFirst(list, k, v, seen), other) == Lookup(list, other)
  {
    if list != [] {
      var r := ReplaceFirst(list, k, v, seen);
      if list[0].0 == k {
        ReplaceFirstLookup(list[1..], k, v, true, other);
        if !seen {
          assert r[1..] == ReplaceFirst(list[1..], k, v, true);
        } else {
          assert r == ReplaceFirst(list[1..], k, v, true);
        }
      } else {
        ReplaceFirstLookup(list[1..], k, v, seen, other);
        assert r[1..] == ReplaceFirst(list[1..], k, v, seen);
      }
    }
  }

  /** Setting a name keeps every name once. */
  lemma {:induction false} SetPairKeepsKeysUnique(list: seq<(string, string)>, k: string, v: string)
    requires UniqueKeys(list)
    ensures UniqueKeys(SetPair(list, k, v))
  {
    if Lookup(list, k).None? {
      forall i | 0 <= i < |list|
        ensures list[i].0 != k
      {
        LookupAt(list, i);
      }
    } else {
      ReplaceFirstUnique(list, k, v, false);
    }
  }

  /** A name that occurs reads as some value. */
  lemma {:induction false} LookupAt(list: seq<(string, string)>, i: nat)
    requires i < |list|
    ensures Lookup(list, list[i].0).Some?
  {
  }

  /** Replacing keeps only pairs of the list and the new pair, and once the first is behind, no pair named `k`. */
  lemma {:induction false} ReplaceFirstPairs(list: seq<(string, string)>, k: string, v: string, seen: bool)
    ensures forall i | 0 <= i < |ReplaceFirst(list, k, v, seen)| :: ReplaceFirst(list, k, v, seen)[i] in list || ReplaceFirst(list, k, v, seen)[i] == (k, v)
    ensures seen ==> forall i | 0 <= i < |ReplaceFirst(list, k, v, seen)| :: ReplaceFirst(list, k, v, seen)[i].0 != k
  {
    if list != [] {
      var seen' := list[0].0 == k || seen;
      var rest := ReplaceFirst(list[1..], k, v, seen');
      ReplaceFirstPairs(list[1..], k, v, seen');
      var head := if list[0].0 == k then (if seen then [] else [(k, v)]) else [list[0]];
      assert ReplaceFirst(list, k, v, seen) == head + rest;
      assert forall i | 0 <= i < |rest| :: rest[i] in list[1..] ==> rest[i] in list;
    }
  }

  /** Replacing keeps names unique. */
  lemma {:induction false} ReplaceFirstUnique(list: seq<(string, string)>, k: string, v: string, seen: bool)
    requires UniqueKeys(list)
    ensures UniqueKeys(ReplaceFirst(list, k, v, seen))
  {
    if list != [] {
      var seen' := list[0].0 == k || seen;
      var rest := ReplaceFirst(list[1..], k, v, seen');
      ReplaceFirstUnique(list[1..], k, v, seen');
      ReplaceFirstPairs(list[1..], k, v, seen');
      if list[0].0 == k {
        assert ReplaceFirst(list, k, v, seen) == (if seen then [] else [(k, v)]) + rest;
      } else {
        assert ReplaceFirst(list, k, v, seen) == [list[0]] + rest;
        forall i | 0 <= i < |rest|
          ensures rest[i].0 != list[0].0
        {
          if rest[i] in list[1..] {
            var j :| 0 <= j < |list[1..]| && list[1..][j] == rest[i];
            assert list[j + 1] == rest[i];
          }
        }
      }
    }
  }

  /**
   * Setting entries with distinct names, as an object's entries are, just
   * appends them: the query lists each kept entry once, in order.
   */
  lemma {:induction false} DistinctNamesAppend(pairs: seq<(string, string)>)
    requires UniqueKeys(pairs)
    ensures SetAll(pairs) == pairs
  {
    if pairs != [] {
      var init := pairs[..|pairs| - 1];
      var last := pairs[|pairs| - 1];
      assert UniqueKeys(init);
      DistinctNamesAppend(init);
      forall i | 0 <= i < |init|
        ensures init[i].0 != last.0
      {
      }
      NoSuchName(init, last.0);
    }
  }

  lemma {:induction false} NoSuchName(list: seq<(string, string)>, k: string)
    requires forall i | 0 <= i < |list| :: list[i].0 != k
    ensures Lookup(list, k).None?
  {
  }

  /** The kept entries of an object with distinct keys have distinct names. */
  lemma {:induction false} KeptPairsDistinct(params: seq<(string, QueryValue)>)
    requires UniqueKeys(params)
    ensures UniqueKeys(KeptPairs(params))
    ensures forall i | 0 <= i < |KeptPairs(params)| :: exists j | 0 <= j < |params| :: params[j].0 == KeptPairs(params)[i].0
  {
    if params != [] {
      var init := params[..|params| - 1];
      assert UniqueKeys(init);
      KeptPairsDistinct(init);
      assert forall j | 0 <= j < |init| :: init[j] == params[j];
    }
  }

  /** Only null and undefined are dropped: `false`, `0` and `""` are kept, with their `String` text. */
  lemma {:induction false} KeptExactlyTheDefined(params: seq<(string, QueryValue)>)
    ensures forall i | 0 <= i < |params| && !IsNullish(params[i].1) :: (params[i].0, ValueText(params[i].1)) in KeptPairs(params)
    ensures KeptPairs(params) == [] <==> forall i | 0 <= i < |params| :: IsNullish(params[i].1)
  {
    if params != [] {
      var init := params[..|params| - 1];
      KeptExactlyTheDefined(init);
      assert forall j | 0 <= j < |init| :: init[j] == params[j];
    }
  }

  /**
   * For an object's entries (distinct keys) the query is `?` and the kept
   * entries in insertion order, each name once.
   */
  lemma ObjectQuery(params: seq<(string, QueryValue)>, encode: string -> string)
    requires UniqueKeys(params)
    ensures KeptPairs(params) != [] ==> QueryOf(params, encode) == "?" + Serialize(KeptPairs(params), encode)
    ensures UniqueKeys(KeptPairs(params))
  {
    KeptPairsDistinct(params);
    DistinctNamesAppend(KeptPairs(params));
  }

  /**
   * `buildQuery`: the empty string when every value is null or undefined;
   * otherwise `?` followed by the kept entries, each set in turn.
   */
  method BuildQuery(params: seq<(string, QueryValue)>, encode: string -> string) returns (q: string)
    ensures q == QueryOf(params, encode)
    ensures q == "" <==> forall i | 0 <= i < |params| :: IsNullish(params[i].1)
    ensures q != "" ==> q[0] == '?'
  {
    KeptExactlyTheDefined(params);
    var entries := FilterDefined(params);
    if |entries| == 0 {
      return "";
    }
    var searchParams := new SearchParams();
    var i := 0;
    while i < |entries|
      invariant 0 <= i <= |entries|
      invariant searchParams.pairs == SetAll(entries[..i])
    {
      assert entries[..i + 1][..i] == entries[..i];
      searchParams.Set(entries[i].0, entries[i].1);
      i := i + 1;
    }
    assert entries[..i] == entries;
    q := "?" + Serialize(searchParams.pairs, encode);
  }

  /** The `filter` step, with each kept value already converted by `String`. */
  method FilterDefined(params: seq<(string, QueryValue)>) returns (entries: seq<(string, string)>)
    ensures entries == KeptPairs(params)
  {
    entries := [];
    var i := 0;
    while i < |params|
      invariant 0 <= i <= |params|
      invariant entries == KeptPairs(params[..i])
    {
      assert params[..i + 1][..i] == params[..i];
      if !IsNullish(params[i].1) {
        entries := entries + [(params[i].0, ValueText(params[i].1))];
      }
      i := i + 1;
    }
    assert params[..i] == params;
  }

  /** `URLSearchParams`, as its list of name/value pairs. */
  class SearchParams {
    var pairs: seq<(string, string)>

    constructor ()
      ensures pairs == []
    {
      pairs := [];
    }

    /** `set(name, value)`. */
    method Set(name: string, value: string)
      modifies this
      ensures pairs == SetPair(old(pairs), name, value)
    {
      pairs := SetPair(pairs, name, value);
    }
  }
}
