/**
 * Stock codes and NowAPI payloads (app/services/stock/stock_service.py,
 * lines 15-125): code normalisation, market detection, the NowAPI symbol,
 * the configuration check and the extraction of quotes from a reply.
 */
module StockSymbols {
  import opened Wrappers
  import opened Strings
  import opened Parsing
  import opened JsonValues
  import opened Dicts

  /** `StockMarket`: A shares ("A") and H shares ("H"). */
  datatype Market = AShare | HShare

  /** Why a quote request fails, with the Python exception class it raises. */
  datatype QuoteError =
    | UnrecognisedCode(code: string)  // ValueError from `_resolve_market`
    | BadCachedQuote                  // ValueError: a cached dict `StockRealtimeQuoteResponse` rejects
    | ConfigMissing                   // RuntimeError from `_get_nowapi_config`
    | NowapiUnsuccessful              // RuntimeError: `success` is not "1"
    | NowapiResultMissing             // RuntimeError: `result` is not a dict
    | TransportFailure                // an httpx error: neither ValueError nor RuntimeError

  /** The errors `_get_stock_change_percents` catches (`ValueError`, `RuntimeError`). */
  predicate IsValueOrRuntimeError(e: QuoteError) {
    !e.TransportFailure?
  }

  /** `_normalize_code`: strip, then upper-case. */
  function NormalizeCode(code: string): string {
    Upper(Strip(code))
  }

  lemma UpperKeepsSpace(c: char)
    ensures IsSpace(UpperChar(c)) <==> IsSpace(c)
  {
  }

  /** Normalising twice is normalising once. */
  lemma NormalizeIdempotent(code: string)
    ensures NormalizeCode(NormalizeCode(code)) == NormalizeCode(code)
  {
    var t := Strip(code);
    StripIsClean(code);
    var u := Upper(t);
    if u != [] {
      UpperKeepsSpace(t[0]);
      UpperKeepsSpace(t[|t| - 1]);
    }
    StripFixesClean(u);
    assert Upper(u) == u;
  }

  /** `code.replace("SH", "").replace("SZ", "").replace("BJ", "")`. */
  function PureCode(code: string): string {
    RemoveAll(RemoveAll(RemoveAll(code, "SH"), "SZ"), "BJ")
  }

  /**
   * `_resolve_market`: after dropping the exchange letters, five digits
   * are an H share, six an A share, anything else is rejected.
   */
  function ResolveMarket(code: string): (r: Result<Market, QuoteError>)
    ensures r == Ok(HShare) <==> IsDigits(PureCode(code)) && |PureCode(code)| == 5
    ensures r == Ok(AShare) <==> IsDigits(PureCode(code)) && |PureCode(code)| == 6
    ensures r.Err? ==> r.error == UnrecognisedCode(code)
  {
    var pure := PureCode(code);
    if IsDigits(pure) && |pure| == 5 then Ok(HShare)
    else if IsDigits(pure) && |pure| == 6 then Ok(AShare)
    else Err(UnrecognisedCode(code))
  }

  predicate HasExchangePrefix(symbol: string) {
    StartsWith(symbol, "SH") || StartsWith(symbol, "SZ") || StartsWith(symbol, "BJ")
  }

  /**
   * `_build_nowapi_symbol`: `hk` for H shares; an unprefixed code by its
   * first digit (6 Shanghai, 0 or 3 Shenzhen, 8 or 4 Beijing); a prefixed
   * code by its prefix; Shanghai otherwise. The code part is always the
   * code without exchange letters.
   */
  function BuildNowapiSymbol(symbol: string, market: Market): (r: string)
    ensures exists exchange | exchange in {"hk", "sh", "sz", "bj"} :: r == exchange + PureCode(symbol)
    ensures market == HShare ==> r == "hk" + PureCode(symbol)
    ensures market == AShare && !HasExchangePrefix(symbol) ==>
              r == (if StartsWith(PureCode(symbol), "0") || StartsWith(PureCode(symbol), "3") then "sz"
                    else if StartsWith(PureCode(symbol), "8") || StartsWith(PureCode(symbol), "4") then "bj"
                    else "sh") + PureCode(symbol)
    ensures market == AShare && StartsWith(symbol, "SH") ==> r == "sh" + PureCode(symbol)
    ensures market == AShare && StartsWith(symbol, "SZ") ==> r == "sz" + PureCode(symbol)
    ensures market == AShare && StartsWith(symbol, "BJ") ==> r == "bj" + PureCode(symbol)
  {
    var pure := PureCode(symbol);
    if market == HShare then "hk" + pure
    else if !HasExchangePrefix(symbol) && StartsWith(pure, "6") then "sh" + pure
    else if !HasExchangePrefix(symbol) && (StartsWith(pure, "0") || StartsWith(pure, "3")) then "sz" + pure
    else if !HasExchangePrefix(symbol) && (StartsWith(pure, "8") || StartsWith(pure, "4")) then "bj" + pure
    else if StartsWith(symbol, "SH") then "sh" + pure
    else if StartsWith(symbol, "SZ") then "sz" + pure
    else if StartsWith(symbol, "BJ") then "bj" + pure
    else "sh" + pure
  }

  /** `_get_nowapi_config`: the stripped app key, sign and base URL; a blank key or sign is refused. */
  function GetNowapiConfig(appkey: string, sign: string, baseUrl: string): (r: Result<(string, string, string), QuoteError>)
    ensures r.Err? <==> Strip(appkey) == "" || Strip(sign) == ""
    ensures r.Err? ==> r.error == ConfigMissing
    ensures r.Ok? ==> r.value == (Strip(appkey), Strip(sign), Strip(baseUrl))
  {
    if Strip(appkey) == "" || Strip(sign) == "" then Err(ConfigMissing)
    else Ok((Strip(appkey), Strip(sign), Strip(baseUrl)))
  }

  /** One stock's quote: latest price and change percent. */
  datatype Quote = Quote(latestPrice: Option<real>, changePercent: Option<real>)

  /** `str(payload.get("success")) == "1"`: only the text "1" and the integer 1 print as "1". */
  predicate Succeeded(payload: seq<(string, Json)>) {
    Get(payload, "success") == Some(JStr("1")) || Get(payload, "success") == Some(JInt(1))
  }

  /** The value `d.get(key)` hands to `parse_float`. */
  function Field(members: seq<(string, Json)>, key: string): PyValue {
    match Get(members, key)
    case None => PyNone
    case Some(j) => ToPy(j)
  }

  /** The quote one dict row of `lists` yields. */
  function RowQuote(row: seq<(string, Json)>, parse: string -> Option<real>): Quote {
    Quote(ParseFloat(Field(row, "last_price"), parse), ParseFloat(Field(row, "rise_fall_per"), parse))
  }

  /** The quote map the loop builds from the first `|rows|` items of `lists`: dict rows are assigned, others skipped. */
  function QuotesOf(rows: seq<(string, Json)>, parse: string -> Option<real>): seq<(string, Quote)> {
    if rows == [] then []
    else
      var last := rows[|rows| - 1];
      var before := QuotesOf(rows[..|rows| - 1], parse);
      if last.1.JObject? then Put(before, last.0, RowQuote(last.1.members, parse)) else before
  }

  /** The quote an item of `lists` yields when it is a dict. */
  function RowQuoteOf(v: Option<Json>, parse: string -> Option<real>): Option<Quote> {
    match v
    case Some(JObject(row)) => Some(RowQuote(row, parse))
    case _ => None
  }

  /** The reference reading of the quote map: the dict's object-valued items, with their quotes, in the dict's order. */
  function DictQuotes(d: seq<(string, Json)>, parse: string -> Option<real>): seq<(string, Quote)> {
    if d == [] then [] else ItemQuotes(d[0], parse) + DictQuotes(d[1..], parse)
  }

  /** The entry one item contributes: its quote when it is a dict, nothing otherwise. */
  function ItemQuotes(item: (string, Json), parse: string -> Option<real>): seq<(string, Quote)> {
    if item.1.JObject? then [(item.0, RowQuote(item.1.members, parse))] else []
  }

  /**
   * The quote a key of `lists` yields: present exactly when the last
   * member under the key, the one the decoded dict keeps, is an object.
   */
  function DictRowQuote(members: seq<(string, Json)>, key: string, parse: string -> Option<real>): (r: Option<Quote>)
    ensures r.Some? <==> exists i | 0 <= i < |members| ::
      members[i].0 == key && members[i].1.JObject? && forall j | i < j < |members| :: members[j].0 != key
  {
    RowQuoteOf(Get(members, key), parse)
  }

  /** The loop's map never holds a key twice. */
  lemma {:induction false} QuotesOfUnique(rows: seq<(string, Json)>, parse: string -> Option<real>)
    ensures UniqueKeys(QuotesOf(rows, parse))
  {
    if rows != [] {
      var last := rows[|rows| - 1];
      QuotesOfUnique(rows[..|rows| - 1], parse);
      if last.1.JObject? {
        PutKeepsKeysUnique(QuotesOf(rows[..|rows| - 1], parse), last.0, RowQuote(last.1.members, parse));
      }
    }
  }

  /** In a dict without repeated keys, a key's quote comes from its item, when that item is an object. */
  lemma {:induction false} LookupDictQuotes(d: seq<(string, Json)>, key: string, parse: string -> Option<real>)
    requires UniqueKeys(d)
    ensures Lookup(DictQuotes(d, parse), key) == RowQuoteOf(Lookup(d, key), parse)
  {
    if d != [] {
      UniqueTail(d);
      LookupDictQuotes(d[1..], key, parse);
      LookupConcat(ItemQuotes(d[0], parse), DictQuotes(d[1..], parse), key);
    }
  }

  /** The reference reading of a dict appended to. */
  lemma {:induction false} DictQuotesAppend(d: seq<(string, Json)>, m: (string, Json), parse: string -> Option<real>)
    ensures DictQuotes(d + [m], parse) == DictQuotes(d, parse) + ItemQuotes(m, parse)
  {
    if d == [] {
      assert d + [m] == [m];
      assert DictQuotes([m], parse) == ItemQuotes(m, parse) + DictQuotes([], parse);
    } else {
      assert (d + [m])[0] == d[0];
      assert (d + [m])[1..] == d[1..] + [m];
      DictQuotesAppend(d[1..], m, parse);
      assert DictQuotes(d + [m], parse) == ItemQuotes(d[0], parse) + (DictQuotes(d[1..], parse) + ItemQuotes(m, parse));
    }
  }

  /** On a dict without repeated keys, the loop's assignments only append, so it builds the reference reading. */
  lemma {:induction false} QuotesOfUniqueDict(d: seq<(string, Json)>, parse: string -> Option<real>)
    requires UniqueKeys(d)
    ensures QuotesOf(d, parse) == DictQuotes(d, parse)
  {
    if d != [] {
      var init := d[..|d| - 1];
      var last := d[|d| - 1];
      assert d == init + [last];
      UniqueInit(d);
      QuotesOfUniqueDict(init, parse);
      DictQuotesAppend(init, last, parse);
      if last.1.JObject? {
        LookupDictQuotes(init, last.0, parse);
        PutAbsentAppends(DictQuotes(init, parse), last.0, RowQuote(last.1.members, parse));
      }
    }
  }

  /**
   * The quote map of `lists` holds each key once, in the decoded dict's
   * order, with the quote of the member the dict keeps; the loop over the
   * dict's items builds exactly that map.
   */
  lemma QuotesMatchRows(members: seq<(string, Json)>, key: string, parse: string -> Option<real>)
    ensures Lookup(DictQuotes(AsDict(members), parse), key) == DictRowQuote(members, key, parse)
    ensures UniqueKeys(DictQuotes(AsDict(members), parse))
    ensures QuotesOf(AsDict(members), parse) == DictQuotes(AsDict(members), parse)
  {
    AsDictLookup(members, key);
    LookupDictQuotes(AsDict(members), key, parse);
    QuotesOfUniqueDict(AsDict(members), parse);
    QuotesOfUnique(AsDict(members), parse);
  }

  /** A repeated key keeps its first position: "a" is listed before "b" although its kept member comes last. */
  lemma RepeatedKeyKeepsFirstPosition(parse: string -> Option<real>)
    ensures DictQuotes(AsDict([("a", JStr("x")), ("b", JObject([])), ("a", JObject([]))]), parse) ==
      [("a", Quote(None, None)), ("b", Quote(None, None))]
  {
    var members := [("a", JStr("x")), ("b", JObject([])), ("a", JObject([]))];
    var one := [("a", JStr("x"))];
    var two := [("a", JStr("x")), ("b", JObject([]))];
    assert one[..0] == [];
    assert AsDict(one) == [("a", JStr("x"))];
    assert two[..1] == one;
    assert AsDict(two) == [("a", JStr("x")), ("b", JObject([]))];
    assert members[..2] == two;
    var d := [("a", JObject([])), ("b", JObject([]))];
    assert AsDict(members) == d;
    assert d[1..][1..] == [];
    assert DictQuotes(d, parse) == ItemQuotes(d[0], parse) + (ItemQuotes(d[1..][0], parse) + DictQuotes([], parse));
  }

  /** A repeated key whose last member is not an object yields no quote, even after an object member. */
  lemma LastNonObjectMemberSkipped(parse: string -> Option<real>)
    ensures DictQuotes(AsDict([("a", JObject([])), ("a", JStr("x"))]), parse) == []
  {
    var members := [("a", JObject([])), ("a", JStr("x"))];
    var one := [("a", JObject([]))];
    assert one[..0] == [];
    assert AsDict(one) == one;
    assert members[..1] == one;
    assert AsDict(members) == [("a", JStr("x"))];
    assert DictQuotes([("a", JStr("x"))], parse) == ItemQuotes(("a", JStr("x")), parse) + DictQuotes([], parse);
  }

  /** What `_extract_nowapi_quotes` returns once `success` and `result` have passed. */
  function ListedQuotes(result: seq<(string, Json)>, parse: string -> Option<real>): seq<(string, Quote)> {
    match Get(result, "lists")
    case Some(JObject(rows)) => DictQuotes(AsDict(rows), parse)
    case _ => []
  }

  /**
   * What `_extract_nowapi_quotes` returns: a failure unless `success` is
   * "1" and `result` is a dict; otherwise no quotes for a missing, non-dict
   * or empty `lists`, and the quote map of its rows for a dict.
   */
  function NowapiQuotes(payload: seq<(string, Json)>, parse: string -> Option<real>): (r: Result<seq<(string, Quote)>, QuoteError>)
    ensures !Succeeded(payload) ==> r == Err(NowapiUnsuccessful)
    ensures Succeeded(payload) && !(Get(payload, "result").Some? && Get(payload, "result").value.JObject?) ==>
              r == Err(NowapiResultMissing)
    ensures Succeeded(payload) && Get(payload, "result").Some? && Get(payload, "result").value.JObject? ==>
              r == Ok(ListedQuotes(Get(payload, "result").value.members, parse))
    ensures r.Ok? ==> UniqueKeys(r.value)
  {
    if !Succeeded(payload) then Err(NowapiUnsuccessful)
    else match Get(payload, "result")
      case Some(JObject(result)) =>
        (match Get(result, "lists")
         case Some(JObject(rows)) => QuotesMatchRows(rows, "", parse); Ok(ListedQuotes(result, parse))
         case _ => Ok(ListedQuotes(result, parse)))
      case _ => Err(NowapiResultMissing)
  }

  /** `_extract_nowapi_quotes`, with its loop over the rows of `lists`. */
  method ExtractNowapiQuotes(payload: seq<(string, Json)>, parse: string -> Option<real>)
    returns (r: Result<seq<(string, Quote)>, QuoteError>)
    ensures r == NowapiQuotes(payload, parse)
  {
    if !Succeeded(payload) {
      return Err(NowapiUnsuccessful);
    }
    var result := Get(payload, "result");
    if !(result.Some? && result.value.JObject?) {
      return Err(NowapiResultMissing);
    }
    var lists := Get(result.value.members, "lists");
    if !(lists.Some? && lists.value.JObject?) || lists.value.members == [] {
      return Ok([]);
    }
    var rows := AsDict(lists.value.members);
    var output: seq<(string, Quote)> := [];
    var i := 0;
    while i < |rows|
      invariant 0 <= i <= |rows|
      invariant output == QuotesOf(rows[..i], parse)
    {
      assert rows[..i + 1][..i] == rows[..i];
      if rows[i].1.JObject? {
        output := Put(output, rows[i].0, RowQuote(rows[i].1.members, parse));
      }
      i := i + 1;
    }
    assert rows[..i] == rows;
    QuotesMatchRows(lists.value.members, "", parse);
    return Ok(output);
  }

  /** `_extract_nowapi_quote`: the first quote of the map, or no price and no change when it is empty. */
  method ExtractNowapiQuote(payload: seq<(string, Json)>, parse: string -> Option<real>)
    returns (r: Result<Quote, QuoteError>)
    ensures NowapiQuotes(payload, parse).Err? ==> r == Err(NowapiQuotes(payload, parse).error)
    ensures NowapiQuotes(payload, parse).Ok? ==>
              var quotes := NowapiQuotes(payload, parse).value;
              r == Ok(if quotes == [] then Quote(None, None) else quotes[0].1)
  {
    var quotes := ExtractNowapiQuotes(payload, parse);
    if quotes.Err? {
      return Err(quotes.error);
    }
    if quotes.value == [] {
      return Ok(Quote(None, None));
    }
    return Ok(quotes.value[0].1);
  }

  /** Text without the pattern's first letter has nothing to remove. */
  lemma {:induction false} RemoveAbsent(s: string, p: string)
    requires |p| > 0 && p[0] !in s
    ensures RemoveAll(s, p) == s
  {
    if |s| > 0 {
      assert s[0] != p[0];
      RemoveAbsent(s[1..], p);
      assert [s[0]] + s[1..] == s;
    }
  }

  /** Digits carry no exchange letters. */
  lemma DigitsArePure(s: string)
    requires forall k | 0 <= k < |s| :: IsDigit(s[k])
    ensures PureCode(s) == s
  {
    RemoveAbsent(s, "SH");
    RemoveAbsent(s, "SZ");
    RemoveAbsent(s, "BJ");
  }

  lemma StartsWithChar(s: string, c: char)
    ensures StartsWith(s, [c]) <==> |s| > 0 && s[0] == c
  {
    if |s| > 0 {
      assert s[..1] == [s[0]];
    }
  }

  /** A code that starts with a digit has no exchange prefix. */
  lemma DigitFirstUnprefixed(s: string)
    requires |s| > 0 && IsDigit(s[0])
    ensures !HasExchangePrefix(s)
  {
    if |s| >= 2 {
      assert s[..2][0] == s[0];
    }
  }

  lemma PrefixedPure(exchange: string, digits: string)
    requires exchange in {"SH", "SZ", "BJ"}
    requires forall k | 0 <= k < |digits| :: IsDigit(digits[k])
    ensures PureCode(exchange + digits) == digits
  {
    var code := exchange + digits;
    assert code[..2] == exchange;
    assert code[2..] == digits;
    RemoveAbsent(digits, "SH");
    RemoveAbsent(digits, "SZ");
    RemoveAbsent(digits, "BJ");
    if exchange == "SH" {
      assert RemoveAll(code, "SH") == digits;
    } else if exchange == "SZ" {
      assert code[1..][0] == 'Z' && code[1..][1..] == digits;
      RemoveAbsent(code[1..], "SH");
      assert RemoveAll(code, "SH") == code;
      assert RemoveAll(code, "SZ") == digits;
    } else {
      RemoveAbsent(code, "SH");
      RemoveAbsent(code, "SZ");
      assert RemoveAll(code, "BJ") == digits;
    }
  }

  /** A six-digit code behind an exchange prefix is an A share quoted on that exchange. */
  lemma PrefixedCode(exchange: string, digits: string)
    requires exchange in {"SH", "SZ", "BJ"}
    requires IsDigits(digits) && |digits| == 6
    ensures PureCode(exchange + digits) == digits
    ensures ResolveMarket(exchange + digits) == Ok(AShare)
    ensures BuildNowapiSymbol(exchange + digits, AShare) == [exchange[0] + ('a' - 'A'), exchange[1] + ('a' - 'A')] + digits
  {
    PrefixedPure(exchange, digits);
    assert (exchange + digits)[..2] == exchange;
  }

  /** Bare digits: five are an H share quoted in Hong Kong, six an A share placed by the first digit. */
  lemma BareCode(digits: string)
    requires IsDigits(digits)
    ensures |digits| == 5 ==> ResolveMarket(digits) == Ok(HShare) && BuildNowapiSymbol(digits, HShare) == "hk" + digits
    ensures |digits| == 6 ==> ResolveMarket(digits) == Ok(AShare)
    ensures |digits| == 6 && digits[0] == '6' ==> BuildNowapiSymbol(digits, AShare) == "sh" + digits
    ensures |digits| == 6 && digits[0] in "03" ==> BuildNowapiSymbol(digits, AShare) == "sz" + digits
    ensures |digits| == 6 && digits[0] in "84" ==> BuildNowapiSymbol(digits, AShare) == "bj" + digits
  {
    DigitsArePure(digits);
    DigitFirstUnprefixed(digits);
    StartsWithChar(digits, '0');
    StartsWithChar(digits, '3');
    StartsWithChar(digits, '8');
    StartsWithChar(digits, '4');
  }
}
