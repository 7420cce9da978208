/**
 * The Redis-backed get-or-set cache (app/services/cache.py).
 *
 * Redis holds raw text per key. Whether a client exists and whether the
 * server answers is the `Link` of each call; `json.loads` and `json.dumps`
 * are the `decode`/`encode` parameters (None where they raise). Expiry
 * times are not modelled.
 */
module Cache {
  import opened Wrappers
  import opened JsonValues

  const FundListCacheKey := "fund:list"
  const FundBasicInfoCachePrefix := "fund:basic_info"
  const FundHoldingsCachePrefix := "fund:latest_holdings"
  const FundEstimateCachePrefix := "fund:realtime_estimate"
  const StockQuoteCachePrefix := "stock:realtime_quote"

  /** The prefixes of the per-code cache families. */
  predicate IsCachePrefix(p: string) {
    p == FundBasicInfoCachePrefix || p == FundHoldingsCachePrefix
    || p == FundEstimateCachePrefix || p == StockQuoteCachePrefix
  }

  /** `_build_cache_key`. */
  function BuildCacheKey(prefix: string, code: string): string {
    prefix + ":" + code
  }

  /** Within one family, distinct codes get distinct keys. */
  lemma CacheKeyInjective(prefix: string, a: string, b: string)
    ensures BuildCacheKey(prefix, a) == BuildCacheKey(prefix, b) <==> a == b
  {
    if BuildCacheKey(prefix, a) == BuildCacheKey(prefix, b) {
      assert a == BuildCacheKey(prefix, a)[|prefix| + 1..];
      assert b == BuildCacheKey(prefix, b)[|prefix| + 1..];
    }
  }

  lemma KeysDifferAt(p: string, q: string, a: string, b: string, j: nat)
    requires j < |p| && j < |q| && p[j] != q[j]
    ensures BuildCacheKey(p, a) != BuildCacheKey(q, b)
  {
    assert BuildCacheKey(p, a)[j] == p[j];
    assert BuildCacheKey(q, b)[j] == q[j];
  }

  /**
   * Keys of different families never collide, and no per-code key is the
   * fund-list key.
   */
  lemma CacheFamiliesDisjoint(p: string, q: string, a: string, b: string)
    requires IsCachePrefix(p) && IsCachePrefix(q) && p != q
    ensures BuildCacheKey(p, a) != BuildCacheKey(q, b)
    ensures BuildCacheKey(p, a) != FundListCacheKey
  {
    if p == StockQuoteCachePrefix || q == StockQuoteCachePrefix {
      KeysDifferAt(p, q, a, b, 0);
    } else {
      KeysDifferAt(p, q, a, b, 5);
    }
    assert |BuildCacheKey(p, a)| > |FundListCacheKey|;
  }

  /** How a call reaches Redis: no client, a client whose calls raise `RedisError`, or a working one. */
  datatype Link = NoClient | Faulty | Healthy

  /** `_get_json_cache`: None without a client, on a read error, for an empty or missing value, or bad JSON. */
  function ReadJson(entries: map<string, string>, key: string, link: Link, decode: string -> Option<Json>): (r: Option<Json>)
    ensures r.Some? <==> link == Healthy && key in entries && entries[key] != "" && decode(entries[key]).Some?
    ensures r.Some? ==> r == decode(entries[key])
  {
    if link != Healthy || key !in entries || entries[key] == "" then None else decode(entries[key])
  }

  /** The store after `_set_json_cache`: unchanged without a client, on a write error or when serialising fails. */
  function WriteJson(entries: map<string, string>, key: string, data: Json, link: Link, encode: Json -> Option<string>): (r: map<string, string>)
    ensures r.Keys == entries.Keys || r.Keys == entries.Keys + {key}
    ensures forall k | k in entries && k != key :: k in r && r[k] == entries[k]
  {
    if link == Healthy && encode(data).Some? then entries[key := encode(data).value] else entries
  }

  /** The expected type of a JSON cache family (`list` or `dict`). */
  datatype JsonKind = ListKind | DictKind

  predicate IsKind(v: Json, kind: JsonKind) {
    match kind
    case ListKind => v.JArray?
    case DictKind => v.JObject?
  }

  /** The typed getter of `_get_or_set_json_cache`: a value of another type reads as a miss. */
  function Typed(v: Option<Json>, kind: JsonKind): (r: Option<Json>)
    ensures r.Some? <==> v.Some? && IsKind(v.value, kind)
    ensures r.Some? ==> r == v
  {
    if v.Some? && IsKind(v.value, kind) then v else None
  }

  /** What `get_fund_list_cache` hands to pandas: an empty list becomes a frame without columns. */
  datatype FundFrame = EmptyFrame | RecordsFrame(records: seq<Json>)

  /**
   * A value stored through a working client and read back through one is
   * a hit of the same type, so a second `_get_or_set_json_cache` call
   * does not run the loader.
   */
  lemma ReadAfterWrite(entries: map<string, string>, key: string, data: Json, kind: JsonKind,
                       decode: string -> Option<Json>, encode: Json -> Option<string>)
    requires IsKind(data, kind)
    requires encode(data).Some? && encode(data).value != "" && decode(encode(data).value) == Some(data)
    ensures Typed(ReadJson(WriteJson(entries, key, data, Healthy, encode), key, Healthy, decode), kind) == Some(data)
  {
  }

  /** Writing one key leaves every other key's reading as it was. */
  lemma WriteKeepsOtherKeys(entries: map<string, string>, key: string, other: string, data: Json,
                            link: Link, readLink: Link, decode: string -> Option<Json>, encode: Json -> Option<string>)
    requires other != key
    ensures ReadJson(WriteJson(entries, key, data, link, encode), other, readLink, decode) == ReadJson(entries, other, readLink, decode)
  {
  }

  /** The cache in Redis, as the text stored under each key. */
  class RedisCache {
    var entries: map<string, string>

    constructor()
      ensures entries == map[]
    {
      entries := map[];
    }

    /** `_set_json_cache`. */
    method SetJsonCache(key: string, data: Json, link: Link, encode: Json -> Option<string>)
      modifies this
      ensures entries == WriteJson(old(entries), key, data, link, encode)
    {
      if link == Healthy && encode(data).Some? {
        entries := entries[key := encode(data).value];
      }
    }

    /**
     * `_get_or_set_cache` with the Redis setter. `cached` is the getter's
     * answer and `loaded` what the loader returns; `loaderRan` says whether
     * the loader was called. A hit returns the cached value and writes
     * nothing; a miss returns the loaded value and stores it only when
     * `shouldCache` is absent or accepts it.
     */
    method GetOrSetCache(key: string, cached: Option<Json>, loaded: Json, shouldCache: Option<Json -> bool>,
                         link: Link, encode: Json -> Option<string>)
      returns (r: Json, loaderRan: bool)
      modifies this
      ensures cached.Some? ==> r == cached.value && !loaderRan && entries == old(entries)
      ensures cached.None? ==> r == loaded && loaderRan
      ensures cached.None? && (shouldCache.None? || shouldCache.value(loaded)) ==>
                entries == WriteJson(old(entries), key, loaded, link, encode)
      ensures cached.None? && shouldCache.Some? && !shouldCache.value(loaded) ==> entries == old(entries)
    {
      if cached.Some? {
        return cached.value, false;
      }
      r, loaderRan := loaded, true;
      if shouldCache.None? || shouldCache.value(loaded) {
        SetJsonCache(key, loaded, link, encode);
      }
    }

    /**
     * `_get_or_set_json_cache`: a cached value of the expected type is a
     * hit; anything else is a miss, and only a loaded value of the expected
     * type is stored.
     */
    method GetOrSetJsonCache(key: string, kind: JsonKind, loaded: Json, link: Link,
                             decode: string -> Option<Json>, encode: Json -> Option<string>)
      returns (r: Json, loaderRan: bool)
      modifies this
      ensures loaderRan <==> Typed(ReadJson(old(entries), key, link, decode), kind).None?
      ensures !loaderRan ==> Some(r) == ReadJson(old(entries), key, link, decode) && IsKind(r, kind) && entries == old(entries)
      ensures loaderRan ==> r == loaded
      ensures loaderRan ==> entries == if IsKind(loaded, kind) then WriteJson(old(entries), key, loaded, link, encode) else old(entries)
    {
      var cached := Typed(ReadJson(entries, key, link, decode), kind);
      r, loaderRan := GetOrSetCache(key, cached, loaded, Some(v => IsKind(v, kind)), link, encode);
    }

    /**
     * `get_stock_quote_cache`: without a loader it only reads, and a value
     * that is not a dict reads as None; with one it is the dict-typed
     * get-or-set.
     */
    method GetStockQuoteCache(code: string, loader: Option<Json>, link: Link,
                              decode: string -> Option<Json>, encode: Json -> Option<string>)
      returns (r: Option<Json>, loaderRan: bool)
      modifies this
      ensures loader.None? ==> r == Typed(ReadJson(old(entries), BuildCacheKey(StockQuoteCachePrefix, code), link, decode), DictKind)
      ensures loader.None? ==> !loaderRan && entries == old(entries)
      ensures loader.Some? ==> r.Some?
      ensures loader.Some? ==>
                (loaderRan <==> Typed(ReadJson(old(entries), BuildCacheKey(StockQuoteCachePrefix, code), link, decode), DictKind).None?)
      ensures loader.Some? && !loaderRan ==>
                r == Typed(ReadJson(old(entries), BuildCacheKey(StockQuoteCachePrefix, code), link, decode), DictKind) &&
                r.value.JObject? && entries == old(entries)
      ensures loaderRan ==> r == loader
      ensures loaderRan ==> entries == if loader.value.JObject?
                then WriteJson(old(entries), BuildCacheKey(StockQuoteCachePrefix, code), loader.value, link, encode)
                else old(entries)
    {
      var key := BuildCacheKey(StockQuoteCachePrefix, code);
      if loader.None? {
        return Typed(ReadJson(entries, key, link, decode), DictKind), false;
      }
      var v;
      v, loaderRan := GetOrSetJsonCache(key, DictKind, loader.value, link, decode, encode);
      r := Some(v);
    }

    /**
     * `get_fund_list_cache`: the list-typed get-or-set under the fund-list
     * key; an empty list, cached or loaded, becomes the empty frame.
     */
    method GetFundListCache(loaded: seq<Json>, link: Link, decode: string -> Option<Json>, encode: Json -> Option<string>)
      returns (frame: FundFrame, loaderRan: bool)
      modifies this
      ensures loaderRan ==> frame == if loaded == [] then EmptyFrame else RecordsFrame(loaded)
      ensures loaderRan ==> entries == WriteJson(old(entries), FundListCacheKey, JArray(loaded), link, encode)
      ensures !loaderRan ==> entries == old(entries)
      ensures !loaderRan ==> exists items :: (ReadJson(old(entries), FundListCacheKey, link, decode) == Some(JArray(items))
        && frame == if items == [] then EmptyFrame else RecordsFrame(items))
    {
      var r;
      r, loaderRan := GetOrSetJsonCache(FundListCacheKey, ListKind, JArray(loaded), link, decode, encode);
      frame := if r.items == [] then EmptyFrame else RecordsFrame(r.items);
    }
  }
}
