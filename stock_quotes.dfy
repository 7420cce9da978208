/**
 * Batched real-time stock quotes (`get_stock_realtime_quotes`,
 * app/services/stock/stock_service.py lines 128-174).
 *
 * Every code is normalised and given a market; codes with a cached quote
 * are answered from the cache, all others go into one NowAPI request whose
 * answers are written back to the cache. The HTTP request is the `fetch`
 * parameter, keyed by the comma-joined NowAPI symbols.
 */
module StockQuotes {
  import opened Wrappers
  import opened Strings
  import opened JsonValues
  import opened Dicts
  import opened StockSymbols
  import Cache

  /** `StockRealtimeQuoteResponse`. */
  datatype StockQuote = StockQuote(code: string, market: Market, latestPrice: Option<real>, changePercent: Option<real>)

  function MarketText(m: Market): string {
    match m
    case AShare => "A"
    case HShare => "H"
  }

  /** A price field as the response model accepts it: absent or null is None, numbers are kept. */
  function CachedNumber(v: Option<Json>): Result<Option<real>, QuoteError> {
    match v
    case None => Ok(None)
    case Some(JNull) => Ok(None)
    case Some(JInt(i)) => Ok(Some(i as real))
    case Some(JFloat(f)) => Ok(Some(f))
    case Some(_) => Err(BadCachedQuote)
  }

  /** The response built from a cached dict: its market, else the resolved one; its two prices. */
  function FromCache(cached: seq<(string, Json)>, pure: string, market: Market): (r: Result<StockQuote, QuoteError>)
    ensures r.Err? ==> r.error == BadCachedQuote
    ensures r.Ok? ==> r.value.code == pure && (Get(cached, "market").None? ==> r.value.market == market)
  {
    var m := match Get(cached, "market")
      case None => Ok(market)
      case Some(JStr(t)) => if t == "A" then Ok(AShare) else if t == "H" then Ok(HShare) else Err(BadCachedQuote)
      case Some(_) => Err(BadCachedQuote);
    var price := CachedNumber(Get(cached, "latest_price"));
    var change := CachedNumber(Get(cached, "change_percent"));
    if m.Err? then Err(m.error)
    else if price.Err? then Err(price.error)
    else if change.Err? then Err(change.error)
    else Ok(StockQuote(pure, m.value, price.value, change.value))
  }

  function NumberJson(v: Option<real>): Json {
    match v
    case None => JNull
    case Some(x) => JFloat(x)
  }

  /** The dict written to the cache for a fetched quote (lines 160-166). */
  function CachePayload(q: StockQuote): Json {
    JObject([("code", JStr(q.code)), ("market", JStr(MarketText(q.market))),
             ("latest_price", NumberJson(q.latestPrice)), ("change_percent", NumberJson(q.changePercent))])
  }

  lemma PayloadFields(q: StockQuote)
    ensures Get(CachePayload(q).members, "market") == Some(JStr(MarketText(q.market)))
    ensures Get(CachePayload(q).members, "latest_price") == Some(NumberJson(q.latestPrice))
    ensures Get(CachePayload(q).members, "change_percent") == Some(NumberJson(q.changePercent))
  {
    var m := CachePayload(q).members;
    GetUnique(m, "market", 1);
    GetUnique(m, "latest_price", 2);
    GetUnique(m, "change_percent", 3);
  }

  /** A payload this service writes reads back as the same quote. */
  lemma CachePayloadRoundTrip(q: StockQuote, market: Market)
    ensures FromCache(CachePayload(q).members, q.code, market) == Ok(q)
  {
    PayloadFields(q);
    NumberRoundTrip(q.latestPrice);
    NumberRoundTrip(q.changePercent);
    var cached := CachePayload(q).members;
    if q.market == AShare {
      assert Get(cached, "market") == Some(JStr("A"));
    } else {
      assert Get(cached, "market") == Some(JStr("H"));
      assert "H" != "A";
    }
  }

  lemma NumberRoundTrip(v: Option<real>)
    ensures CachedNumber(Some(NumberJson(v))) == Ok(v)
  {
  }

  /** `get_stock_quote_cache(pure_code)` without a loader, as a dict's members. */
  function CachedDict(entries: map<string, string>, pure: string, link: Cache.Link, decode: string -> Option<Json>): Option<seq<(string, Json)>> {
    match Cache.Typed(Cache.ReadJson(entries, Cache.BuildCacheKey(Cache.StockQuoteCachePrefix, pure), link, decode), Cache.DictKind)
    case Some(JObject(m)) => Some(m)
    case _ => None
  }

  /** A code that has to be asked for: its code without exchange letters, its market and its NowAPI symbol. */
  datatype Request = Request(pure: string, market: Market, symbol: string)

  datatype Plan = UseCached(quote: StockQuote) | Ask(request: Request)

  /** The first loop's treatment of one code (lines 136-150). */
  function PlanFor(code: string, entries: map<string, string>, link: Cache.Link, decode: string -> Option<Json>): Result<Plan, QuoteError> {
    var symbol := NormalizeCode(code);
    var market := ResolveMarket(symbol);
    if market.Err? then Err(market.error)
    else
      var pure := PureCode(symbol);
      match CachedDict(entries, pure, link, decode)
      case Some(cached) =>
        var q := FromCache(cached, pure, market.value);
        if q.Err? then Err(q.error) else Ok(UseCached(q.value))
      case None => Ok(Ask(Request(pure, market.value, BuildNowapiSymbol(symbol, market.value))))
  }

  /** The state after the first loop: the answered codes and the pending requests, in insertion order. */
  datatype FirstPass = FirstPass(ready: map<string, StockQuote>, pending: seq<(string, Request)>)

  /** The treatment of every code against one reading of the cache. */
  function PlansFrom(entries: map<string, string>, link: Cache.Link, decode: string -> Option<Json>): string -> Result<Plan, QuoteError> {
    code => PlanFor(code, entries, link, decode)
  }

  /** The first loop over `codes`, each code treated by `planOf`. */
  function Partition(codes: seq<string>, planOf: string -> Result<Plan, QuoteError>): Result<FirstPass, QuoteError> {
    if codes == [] then Ok(FirstPass(map[], []))
    else
      var before := Partition(codes[..|codes| - 1], planOf);
      var code := codes[|codes| - 1];
      var plan := planOf(code);
      if before.Err? then before
      else if plan.Err? then Err(plan.error)
      else Ok(Extend(before.value, code, plan.value))
  }

  /** A cached code's answer is recorded; a code to ask for joins the pending requests. */
  function Extend(pass: FirstPass, code: string, plan: Plan): FirstPass {
    match plan
    case UseCached(q) => FirstPass(pass.ready[code := q], pass.pending)
    case Ask(req) => FirstPass(pass.ready, Put(pass.pending, code, req))
  }

  /** The NowAPI symbols of the pending requests, in order. */
  function Symbols(pending: seq<(string, Request)>): (r: seq<string>)
    ensures |r| == |pending| && forall i | 0 <= i < |pending| :: r[i] == pending[i].1.symbol
  {
    seq(|pending|, i requires 0 <= i < |pending| => pending[i].1.symbol)
  }

  /** The quotes NowAPI supplies for the pending requests; nothing is asked when none is pending. */
  function FetchQuotes(pending: seq<(string, Request)>, config: (string, string, string),
                       fetch: string -> Result<seq<(string, Json)>, QuoteError>, parse: string -> Option<real>)
    : Result<seq<(string, Quote)>, QuoteError>
  {
    if pending == [] then Ok([])
    else
      var cfg := GetNowapiConfig(config.0, config.1, config.2);
      var payload := fetch(Join(Symbols(pending), ","));
      if cfg.Err? then Err(cfg.error)
      else if payload.Err? then Err(payload.error)
      else NowapiQuotes(payload.value, parse)
  }

  /** The response for a requested code: the reply's quote for its symbol, or no price and no change. */
  function QuoteFor(req: Request, quotes: seq<(string, Quote)>): StockQuote {
    var q := Lookup(quotes, req.symbol).GetOr(Quote(None, None));
    StockQuote(req.pure, req.market, q.latestPrice, q.changePercent)
  }

  /** The output after the second loop has handled `pending`. */
  function Settle(ready: map<string, StockQuote>, pending: seq<(string, Request)>, quotes: seq<(string, Quote)>): map<string, StockQuote> {
    if pending == [] then ready
    else
      var last := pending[|pending| - 1];
      Settle(ready, pending[..|pending| - 1], quotes)[last.0 := QuoteFor(last.1, quotes)]
  }

  /** The cache after the second loop has written each fetched quote under its code. */
  function CacheWrites(entries: map<string, string>, pending: seq<(string, Request)>, quotes: seq<(string, Quote)>,
                       link: Cache.Link, encode: Json -> Option<string>): map<string, string> {
    if pending == [] then entries
    else
      var last := pending[|pending| - 1];
      Cache.WriteJson(CacheWrites(entries, pending[..|pending| - 1], quotes, link, encode),
                      Cache.BuildCacheKey(Cache.StockQuoteCachePrefix, last.1.pure), CachePayload(QuoteFor(last.1, quotes)), link, encode)
  }

  /** `get_stock_realtime_quotes`: the quotes by input code and the cache afterwards. */
  function RealtimeQuotes(codes: seq<string>, entries: map<string, string>, link: Cache.Link,
                          decode: string -> Option<Json>, encode: Json -> Option<string>, config: (string, string, string),
                          fetch: string -> Result<seq<(string, Json)>, QuoteError>, parse: string -> Option<real>)
    : Result<(map<string, StockQuote>, map<string, string>), QuoteError>
  {
    var first := Partition(codes, PlansFrom(entries, link, decode));
    if first.Err? then Err(first.error)
    else
      var quotes := FetchQuotes(first.value.pending, config, fetch, parse);
      if quotes.Err? then Err(quotes.error)
      else Ok((Settle(first.value.ready, first.value.pending, quotes.value),
               CacheWrites(entries, first.value.pending, quotes.value, link, encode)))
  }

  /** A code the first loop cannot handle ends the whole call with its error. */
  lemma {:induction false} PartitionErrorSticks(codes: seq<string>, n: nat, planOf: string -> Result<Plan, QuoteError>, e: QuoteError)
    requires n <= |codes|
    requires Partition(codes[..n], planOf) == Err(e)
    ensures Partition(codes, planOf) == Err(e)
    decreases |codes| - n
  {
    if n < |codes| {
      assert codes[..n + 1][..n] == codes[..n];
      PartitionErrorSticks(codes, n + 1, planOf, e);
    } else {
      assert codes[..n] == codes;
    }
  }

  /** One more code in the first loop. */
  lemma PartitionStep(codes: seq<string>, i: nat, planOf: string -> Result<Plan, QuoteError>)
    requires i < |codes|
    requires Partition(codes[..i], planOf).Ok?
    ensures var plan := planOf(codes[i]);
            Partition(codes[..i + 1], planOf)
            == if plan.Err? then Err(plan.error) else Ok(Extend(Partition(codes[..i], planOf).value, codes[i], plan.value))
  {
    assert codes[..i + 1][..i] == codes[..i];
  }

  /** The first loop of `get_stock_realtime_quotes`: answer cached codes, collect the others. */
  method PartitionCodes(codes: seq<string>, planOf: string -> Result<Plan, QuoteError>)
    returns (r: Result<FirstPass, QuoteError>)
    ensures r == Partition(codes, planOf)
  {
    var ready: map<string, StockQuote> := map[];
    var pending: seq<(string, Request)> := [];
    var i := 0;
    assert codes[..0] == [];
    while i < |codes|
      invariant 0 <= i <= |codes|
      invariant Partition(codes[..i], planOf) == Ok(FirstPass(ready, pending))
    {
      var plan := planOf(codes[i]);
      PartitionStep(codes, i, planOf);
      if plan.Err? {
        PartitionErrorSticks(codes, i + 1, planOf, plan.error);
        return Err(plan.error);
      }
      var next := Extend(FirstPass(ready, pending), codes[i], plan.value);
      ready, pending := next.ready, next.pending;
      i := i + 1;
    }
    assert codes[..i] == codes;
    return Ok(FirstPass(ready, pending));
  }

  /** The NowAPI request for the pending codes, made only when some are pending. */
  method RequestQuotes(pending: seq<(string, Request)>, config: (string, string, string),
                       fetch: string -> Result<seq<(string, Json)>, QuoteError>, parse: string -> Option<real>)
    returns (r: Result<seq<(string, Quote)>, QuoteError>)
    ensures r == FetchQuotes(pending, config, fetch, parse)
  {
    if pending == [] {
      return Ok([]);
    }
    var cfg := GetNowapiConfig(config.0, config.1, config.2);
    if cfg.Err? {
      return Err(cfg.error);
    }
    var payload := fetch(Join(Symbols(pending), ","));
    if payload.Err? {
      return Err(payload.error);
    }
    r := ExtractNowapiQuotes(payload.value, parse);
  }

  /** The second loop: answer each pending code from the reply and write the answer to the cache. */
  method SettlePending(cache: Cache.RedisCache, ready: map<string, StockQuote>, pending: seq<(string, Request)>,
                       quotes: seq<(string, Quote)>, link: Cache.Link, encode: Json -> Option<string>)
    returns (output: map<string, StockQuote>)
    modifies cache
    ensures output == Settle(ready, pending, quotes)
    ensures cache.entries == CacheWrites(old(cache.entries), pending, quotes, link, encode)
  {
    output := ready;
    var j := 0;
    while j < |pending|
      invariant 0 <= j <= |pending|
      invariant output == Settle(ready, pending[..j], quotes)
      invariant cache.entries == CacheWrites(old(cache.entries), pending[..j], quotes, link, encode)
    {
      assert pending[..j + 1][..j] == pending[..j];
      var q := QuoteFor(pending[j].1, quotes);
      cache.SetJsonCache(Cache.BuildCacheKey(Cache.StockQuoteCachePrefix, pending[j].1.pure), CachePayload(q), link, encode);
      output := output[pending[j].0 := q];
      j := j + 1;
    }
    assert pending[..j] == pending;
  }

  /** `get_stock_realtime_quotes`. */
  method GetStockRealtimeQuotes(cache: Cache.RedisCache, codes: seq<string>, link: Cache.Link,
                                decode: string -> Option<Json>, encode: Json -> Option<string>, config: (string, string, string),
                                fetch: string -> Result<seq<(string, Json)>, QuoteError>, parse: string -> Option<real>)
    returns (r: Result<map<string, StockQuote>, QuoteError>)
    modifies cache
    ensures RealtimeQuotes(codes, old(cache.entries), link, decode, encode, config, fetch, parse)
            == if r.Ok? then Ok((r.value, cache.entries)) else Err(r.error)
    ensures r.Err? ==> cache.entries == old(cache.entries)
  {
    var first := PartitionCodes(codes, PlansFrom(cache.entries, link, decode));
    if first.Err? {
      return Err(first.error);
    }
    var quotes := RequestQuotes(first.value.pending, config, fetch, parse);
    if quotes.Err? {
      return Err(quotes.error);
    }
    var output := SettlePending(cache, first.value.ready, first.value.pending, quotes.value, link, encode);
    return Ok(output);
  }

  /** The first loop succeeds exactly when every code can be handled; otherwise it fails with some code's error. */
  lemma {:induction false} PartitionOutcome(codes: seq<string>, planOf: string -> Result<Plan, QuoteError>)
    ensures Partition(codes, planOf).Ok? <==> forall c | c in codes :: planOf(c).Ok?
    ensures Partition(codes, planOf).Err? ==> exists c | c in codes :: planOf(c) == Err(Partition(codes, planOf).error)
  {
    if codes != [] {
      var init := codes[..|codes| - 1];
      PartitionOutcome(init, planOf);
      assert codes == init + [codes[|codes| - 1]];
    }
  }

  /**
   * After the first loop every code is either answered from the cache or
   * pending, never both; the answered ones carry their cached quote, the
   * pending ones their request, and no code is pending twice.
   */
  lemma {:induction false} PartitionCovers(codes: seq<string>, planOf: string -> Result<Plan, QuoteError>)
    requires Partition(codes, planOf).Ok?
    ensures var pass := Partition(codes, planOf).value;
            UniqueKeys(pass.pending)
            && (forall c | c in pass.ready :: c in codes && planOf(c) == Ok(UseCached(pass.ready[c])))
            && (forall i | 0 <= i < |pass.pending| :: pass.pending[i].0 in codes && planOf(pass.pending[i].0) == Ok(Ask(pass.pending[i].1)))
            && (forall c | c in codes :: c in pass.ready || Lookup(pass.pending, c).Some?)
  {
    if codes != [] {
      var init := codes[..|codes| - 1];
      var code := codes[|codes| - 1];
      assert codes == init + [code];
      PartitionCovers(init, planOf);
      var before := Partition(init, planOf).value;
      var pass := Partition(codes, planOf).value;
      assert pass == Extend(before, code, planOf(code).value);
      if planOf(code).value.Ask? {
        var req := planOf(code).value.request;
        PutKeepsKeysUnique(before.pending, code, req);
        forall c | c in codes
          ensures c in pass.ready || Lookup(pass.pending, c).Some?
        {
          LookupPut(before.pending, code, req, c);
        }
        forall i | 0 <= i < |pass.pending|
          ensures pass.pending[i].0 in codes && planOf(pass.pending[i].0) == Ok(Ask(pass.pending[i].1))
        {
          PutEntry(before.pending, code, req, i);
        }
      }
    }
  }

  /** An entry of `d[k] = v` is either the new pair or an old one. */
  lemma {:induction false} PutEntry<V>(d: seq<(string, V)>, k: string, v: V, i: nat)
    requires i < |Put(d, k, v)|
    ensures Put(d, k, v)[i] == (k, v) || Put(d, k, v)[i] in d
  {
    if d != [] && d[0].0 != k && i > 0 {
      PutEntry(d[1..], k, v, i - 1);
    }
  }

  /** The second loop answers each pending code with its reply and keeps the cached answers. */
  lemma {:induction false} SettleCovers(ready: map<string, StockQuote>, pending: seq<(string, Request)>, quotes: seq<(string, Quote)>)
    requires UniqueKeys(pending)
    ensures forall c :: c in Settle(ready, pending, quotes) <==> c in ready || Lookup(pending, c).Some?
    ensures forall c | Lookup(pending, c).Some? :: Settle(ready, pending, quotes)[c] == QuoteFor(Lookup(pending, c).value, quotes)
    ensures forall c | c in ready && Lookup(pending, c).None? :: Settle(ready, pending, quotes)[c] == ready[c]
  {
    if pending != [] {
      var init := pending[..|pending| - 1];
      var last := pending[|pending| - 1];
      assert pending == init + [last];
      assert UniqueKeys(init);
      SettleCovers(ready, init, quotes);
      forall c
        ensures Lookup(pending, c) == if c == last.0 then Some(last.1) else Lookup(init, c)
      {
        LookupAppend(init, last, c);
      }
    }
  }

  /** Looking up in `d + [(k, v)]` when `k` is not yet a key of `d`. */
  lemma {:induction false} LookupAppend<V>(d: seq<(string, V)>, last: (string, V), c: string)
    requires forall i | 0 <= i < |d| :: d[i].0 != last.0
    ensures Lookup(d + [last], c) == if c == last.0 then Some(last.1) else Lookup(d, c)
  {
    if d != [] {
      assert (d + [last])[1..] == d[1..] + [last];
      LookupAppend(d[1..], last, c);
    }
  }

  /** What the second loop answers for a code handled by `plan`. */
  function Answer(plan: Plan, quotes: seq<(string, Quote)>): StockQuote {
    match plan
    case UseCached(q) => q
    case Ask(req) => QuoteFor(req, quotes)
  }

  /** Both loops together answer every code, and only those, as its plan says. */
  lemma AnswersFollowPlans(codes: seq<string>, planOf: string -> Result<Plan, QuoteError>, quotes: seq<(string, Quote)>)
    requires Partition(codes, planOf).Ok?
    ensures var pass := Partition(codes, planOf).value;
            var out := Settle(pass.ready, pass.pending, quotes);
            out.Keys == (set c | c in codes)
            && forall c | c in codes :: planOf(c).Ok? && out[c] == Answer(planOf(c).value, quotes)
  {
    var pass := Partition(codes, planOf).value;
    PartitionCovers(codes, planOf);
    SettleCovers(pass.ready, pass.pending, quotes);
    var out := Settle(pass.ready, pass.pending, quotes);
    forall c | c in codes
      ensures planOf(c).Ok? && out[c] == Answer(planOf(c).value, quotes)
    {
      if Lookup(pass.pending, c).Some? {
        LookupFinds(pass.pending, c);
      }
    }
    forall c | c in out
      ensures c in codes
    {
      if c !in pass.ready {
        LookupFinds(pass.pending, c);
      }
    }
  }

  /**
   * Every code of a successful batch is answered: a cached code with its
   * cached quote, any other with the reply's quote for its NowAPI symbol,
   * or no price and no change when the reply lacks it.
   */
  lemma QuotesAnswerEveryCode(codes: seq<string>, entries: map<string, string>, link: Cache.Link,
                              decode: string -> Option<Json>, encode: Json -> Option<string>, config: (string, string, string),
                              fetch: string -> Result<seq<(string, Json)>, QuoteError>, parse: string -> Option<real>)
    requires RealtimeQuotes(codes, entries, link, decode, encode, config, fetch, parse).Ok?
    ensures var out := RealtimeQuotes(codes, entries, link, decode, encode, config, fetch, parse).value.0;
            var pass := Partition(codes, PlansFrom(entries, link, decode)).value;
            var quotes := FetchQuotes(pass.pending, config, fetch, parse).value;
            out.Keys == (set c | c in codes)
            && forall c | c in codes :: PlanFor(c, entries, link, decode).Ok?
                 && out[c] == Answer(PlanFor(c, entries, link, decode).value, quotes)
  {
    var planOf := PlansFrom(entries, link, decode);
    var pass := Partition(codes, planOf).value;
    AnswersFollowPlans(codes, planOf, FetchQuotes(pass.pending, config, fetch, parse).value);
  }

  /** The single NowAPI request names exactly the symbols of the codes the cache could not answer. */
  lemma RequestedSymbols(codes: seq<string>, planOf: string -> Result<Plan, QuoteError>)
    requires Partition(codes, planOf).Ok?
    ensures var pending := Partition(codes, planOf).value.pending;
            forall s :: s in Symbols(pending) <==> exists c | c in codes :: planOf(c).Ok? && planOf(c).value.Ask? && planOf(c).value.request.symbol == s
  {
    var pending := Partition(codes, planOf).value.pending;
    PartitionCovers(codes, planOf);
    forall s
      ensures s in Symbols(pending) <==> exists c | c in codes :: planOf(c).Ok? && planOf(c).value.Ask? && planOf(c).value.request.symbol == s
    {
      if s in Symbols(pending) {
        var i :| 0 <= i < |pending| && Symbols(pending)[i] == s;
        assert pending[i].0 in codes;
      }
      if c :| c in codes && planOf(c).Ok? && planOf(c).value.Ask? && planOf(c).value.request.symbol == s {
        LookupFinds(pending, c);
        var i :| 0 <= i < |pending| && pending[i] == (c, Lookup(pending, c).value);
        assert Symbols(pending)[i] == s;
      }
    }
  }

  /** A batch the cache answers completely makes no request and writes nothing. */
  lemma FullyCachedBatch(codes: seq<string>, entries: map<string, string>, link: Cache.Link,
                         decode: string -> Option<Json>, encode: Json -> Option<string>, config: (string, string, string),
                         fetch: string -> Result<seq<(string, Json)>, QuoteError>, parse: string -> Option<real>)
    requires forall c | c in codes :: PlanFor(c, entries, link, decode).Ok? && PlanFor(c, entries, link, decode).value.UseCached?
    ensures Partition(codes, PlansFrom(entries, link, decode)).Ok?
    ensures Partition(codes, PlansFrom(entries, link, decode)).value.pending == []
    ensures RealtimeQuotes(codes, entries, link, decode, encode, config, fetch, parse).Ok?
    ensures RealtimeQuotes(codes, entries, link, decode, encode, config, fetch, parse).value.1 == entries
  {
    var planOf := PlansFrom(entries, link, decode);
    assert forall c | c in codes :: planOf(c).Ok? && planOf(c).value.UseCached?;
    CachedCodesLeaveNothingPending(codes, planOf);
  }

  /** When every code is answered from the cache, the first loop leaves nothing pending. */
  lemma {:induction false} CachedCodesLeaveNothingPending(codes: seq<string>, planOf: string -> Result<Plan, QuoteError>)
    requires forall c | c in codes :: planOf(c).Ok? && planOf(c).value.UseCached?
    ensures Partition(codes, planOf).Ok? && Partition(codes, planOf).value.pending == []
  {
    if codes != [] {
      var init := codes[..|codes| - 1];
      assert forall c | c in init :: c in codes;
      CachedCodesLeaveNothingPending(init, planOf);
      assert codes[|codes| - 1] in codes;
    }
  }

  /** A code that is neither five nor six digits once its exchange letters are kept fails the whole batch with a value error. */
  lemma UnrecognisedCodeFailsBatch(codes: seq<string>, entries: map<string, string>, link: Cache.Link,
                                   decode: string -> Option<Json>, encode: Json -> Option<string>, config: (string, string, string),
                                   fetch: string -> Result<seq<(string, Json)>, QuoteError>, parse: string -> Option<real>)
    requires exists c | c in codes :: ResolveMarket(NormalizeCode(c)).Err?
    ensures RealtimeQuotes(codes, entries, link, decode, encode, config, fetch, parse).Err?
    ensures IsValueOrRuntimeError(RealtimeQuotes(codes, entries, link, decode, encode, config, fetch, parse).error)
  {
    var planOf := PlansFrom(entries, link, decode);
    var c :| c in codes && ResolveMarket(NormalizeCode(c)).Err?;
    PlanErrors(c, entries, link, decode);
    PartitionOutcome(codes, planOf);
    var e := Partition(codes, planOf).error;
    var d :| d in codes && planOf(d) == Err(e);
    PlanErrors(d, entries, link, decode);
  }

  /** A code fails the first loop when its market is unknown, and then only with a value error. */
  lemma PlanErrors(code: string, entries: map<string, string>, link: Cache.Link, decode: string -> Option<Json>)
    ensures ResolveMarket(NormalizeCode(code)).Err? ==> PlanFor(code, entries, link, decode).Err?
    ensures PlanFor(code, entries, link, decode).Err? ==> IsValueOrRuntimeError(PlanFor(code, entries, link, decode).error)
  {
    var symbol := NormalizeCode(code);
    var cached := CachedDict(entries, PureCode(symbol), link, decode);
    if ResolveMarket(symbol).Ok? && cached.Some? {
      var q := FromCache(cached.value, PureCode(symbol), ResolveMarket(symbol).value);
      assert PlanFor(code, entries, link, decode) == if q.Err? then Err(q.error) else Ok(UseCached(q.value));
    }
  }

  /**
   * Writing back the fetched quotes touches only the keys of the requested
   * codes; through a working client whose encoding succeeds every requested
   * code's key is written, and without one nothing is.
   */
  lemma {:induction false} CacheWritesFootprint(entries: map<string, string>, pending: seq<(string, Request)>, quotes: seq<(string, Quote)>,
                                                link: Cache.Link, encode: Json -> Option<string>)
    ensures var w := CacheWrites(entries, pending, quotes, link, encode);
            forall k | k in entries && (forall i | 0 <= i < |pending| :: k != Cache.BuildCacheKey(Cache.StockQuoteCachePrefix, pending[i].1.pure))
              :: k in w && w[k] == entries[k]
    ensures link == Cache.Healthy && (forall j :: encode(j).Some?) ==>
              forall i | 0 <= i < |pending| :: Cache.BuildCacheKey(Cache.StockQuoteCachePrefix, pending[i].1.pure) in CacheWrites(entries, pending, quotes, link, encode)
    ensures link != Cache.Healthy ==> CacheWrites(entries, pending, quotes, link, encode) == entries
  {
    if pending != [] {
      var init := pending[..|pending| - 1];
      CacheWritesFootprint(entries, init, quotes, link, encode);
    }
  }

  /** The pair `Lookup` finds is in the dict. */
  lemma {:induction false} LookupFinds<V>(d: seq<(string, V)>, k: string)
    requires Lookup(d, k).Some?
    ensures exists i | 0 <= i < |d| :: d[i] == (k, Lookup(d, k).value)
  {
    if d[0].0 != k {
      LookupFinds(d[1..], k);
      var i :| 0 <= i < |d[1..]| && d[1..][i] == (k, Lookup(d, k).value);
      assert d[i + 1] == (k, Lookup(d, k).value);
    }
  }
}
