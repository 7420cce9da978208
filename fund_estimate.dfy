/**
 * The holdings-based real-time estimate of a fund's NAV
 * (app/services/fund/fund_service.py lines 182-231 and 333-336).
 *
 * Each stock's contribution is its weight in the fund times its change
 * today; the fund's estimated growth is the sum over the stocks that have
 * both. The stock quotes come from `get_stock_realtime_quotes`, whose
 * outcome for the batch of stock codes is the `fetched` parameter.
 */
module FundEstimate {
  import opened Wrappers
  import opened Parsing
  import opened StockSymbols
  import opened StockQuotes
  import opened FundService
  import Cache

  /** `_get_stock_change_percents`'s answer: a change per code, None where unknown. */
  type ChangeMap = map<string, Option<real>>

  /**
   * `_get_stock_change_percents(codes)`, given what the quote service
   * answered for `codes`. No codes asks nothing; a `ValueError` or
   * `RuntimeError` leaves every change unknown; any other failure
   * propagates; otherwise each answered code gets its change.
   */
  function StockChangePercents(codes: seq<string>, fetched: Result<map<string, StockQuote>, QuoteError>): (r: Result<ChangeMap, QuoteError>)
    ensures codes == [] ==> r == Ok(map[])
    ensures codes != [] && fetched.Err? && !IsValueOrRuntimeError(fetched.error) ==> r == Err(fetched.error)
    ensures codes != [] && fetched.Err? && IsValueOrRuntimeError(fetched.error) ==>
              r.Ok? && r.value.Keys == (set c | c in codes) && forall c | c in r.value :: r.value[c].None?
    ensures codes != [] && fetched.Ok? ==>
              r.Ok? && (forall c :: c in r.value <==> c in codes && c in fetched.value)
              && forall c | c in r.value :: r.value[c] == fetched.value[c].changePercent
  {
    if codes == [] then Ok(map[])
    else if fetched.Err? then
      if IsValueOrRuntimeError(fetched.error) then Ok(map c | c in codes :: None) else Err(fetched.error)
    else Ok(map c | c in codes && c in fetched.value :: fetched.value[c].changePercent)
  }

  /**
   * With the quote service of this model: a batch it answers gives every
   * code its quote's change, and a batch holding an unrecognised code gives
   * none at all.
   */
  lemma ChangePercentsFromQuoteService(codes: seq<string>, entries: map<string, string>, link: Cache.Link,
                                       decode: string -> Option<JsonValues.Json>, encode: JsonValues.Json -> Option<string>,
                                       config: (string, string, string),
                                       fetch: string -> Result<seq<(string, JsonValues.Json)>, QuoteError>, parse: string -> Option<real>)
    requires codes != []
    ensures var fetched := RealtimeQuotes(codes, entries, link, decode, encode, config, fetch, parse);
            var changes := StockChangePercents(codes, if fetched.Ok? then Ok(fetched.value.0) else Err(fetched.error));
            (fetched.Ok? ==> changes.Ok? && changes.value.Keys == (set c | c in codes))
            && ((exists c | c in codes :: ResolveMarket(NormalizeCode(c)).Err?) ==>
                  changes.Ok? && changes.value.Keys == (set c | c in codes) && forall c | c in changes.value :: changes.value[c].None?)
  {
    var fetched := RealtimeQuotes(codes, entries, link, decode, encode, config, fetch, parse);
    if fetched.Ok? {
      QuotesAnswerEveryCode(codes, entries, link, decode, encode, config, fetch, parse);
    }
    if exists c | c in codes :: ResolveMarket(NormalizeCode(c)).Err? {
      UnrecognisedCodeFailsBatch(codes, entries, link, decode, encode, config, fetch, parse);
    }
  }

  /** `FundHoldingEstimate`. */
  datatype HoldingEstimate = HoldingEstimate(stockCode: string, stockName: string, weightPercent: Option<string>,
                                             changePercent: Option<real>, contributionPercent: Option<real>)

  /** A stock's contribution to the fund's growth, in percent: weight × change / 100 when both are known. */
  function Contribution(weight: Option<real>, change: Option<real>): (r: Option<real>)
    ensures r.Some? <==> weight.Some? && change.Some?
  {
    if weight.Some? && change.Some? then Some(weight.value * change.value / 100.0) else None
  }

  /** `change_percent_map.get(stock_code)`. */
  function ChangeOf(changes: ChangeMap, code: string): Option<real> {
    if code in changes then changes[code] else None
  }

  /** The detail `_estimate_from_holdings` records for one holding row. */
  function DetailOf(row: HoldingRow, changes: ChangeMap, parse: string -> Option<real>,
                    floatText: real -> string, fixed2: real -> string): (r: HoldingEstimate)
    ensures r.stockCode == PyText(row.stockCode, floatText)
    ensures r.changePercent == ChangeOf(changes, r.stockCode)
    ensures r.weightPercent.Some? <==> ParsePercent(row.weight, parse).Some?
    ensures r.contributionPercent.None? <==> ParsePercent(row.weight, parse).None? || r.changePercent.None?
  {
    var code := PyText(row.stockCode, floatText);
    var weight := ParsePercent(row.weight, parse);
    var change := ChangeOf(changes, code);
    HoldingEstimate(code, PyText(row.stockName, floatText),
                    if weight.Some? then Some(fixed2(weight.value) + "%") else None,
                    change, Contribution(weight, change))
  }

  /** The details of the rows, one per row, in order. */
  function DetailsOf(rows: seq<HoldingRow>, changes: ChangeMap, parse: string -> Option<real>,
                     floatText: real -> string, fixed2: real -> string): (r: seq<HoldingEstimate>)
    ensures |r| == |rows|
    ensures forall i | 0 <= i < |rows| :: r[i] == DetailOf(rows[i], changes, parse, floatText, fixed2)
  {
    if rows == [] then []
    else
      var init := rows[..|rows| - 1];
      assert forall i | 0 <= i < |init| :: init[i] == rows[i];
      DetailsOf(init, changes, parse, floatText, fixed2) + [DetailOf(rows[|rows| - 1], changes, parse, floatText, fixed2)]
  }

  /** One more row adds its detail at the end. */
  lemma DetailsStep(rows: seq<HoldingRow>, i: nat, changes: ChangeMap, parse: string -> Option<real>,
                    floatText: real -> string, fixed2: real -> string)
    requires i < |rows|
    ensures DetailsOf(rows[..i + 1], changes, parse, floatText, fixed2)
            == DetailsOf(rows[..i], changes, parse, floatText, fixed2) + [DetailOf(rows[i], changes, parse, floatText, fixed2)]
  {
    assert rows[..i + 1][..i] == rows[..i];
  }

  /** The stock codes of the rows, as `str(row.get("股票代码"))`. */
  function StockCodes(rows: seq<HoldingRow>, floatText: real -> string): (r: seq<string>)
    ensures |r| == |rows| && forall i | 0 <= i < |rows| :: r[i] == PyText(rows[i].stockCode, floatText)
  {
    seq(|rows|, i requires 0 <= i < |rows| => PyText(rows[i].stockCode, floatText))
  }

  /** The sum of the known contributions. */
  function ContributionTotal(details: seq<HoldingEstimate>): real {
    if details == [] then 0.0
    else
      var last := details[|details| - 1];
      ContributionTotal(details[..|details| - 1]) + last.contributionPercent.GetOr(0.0)
  }

  /** The codes of the rows without a contribution, in order. */
  function SkippedCodes(details: seq<HoldingEstimate>): seq<string> {
    if details == [] then []
    else
      var last := details[|details| - 1];
      SkippedCodes(details[..|details| - 1]) + if last.contributionPercent.None? then [last.stockCode] else []
  }

  /** Some row has a contribution. */
  predicate AnyValid(details: seq<HoldingEstimate>) {
    exists i | 0 <= i < |details| :: details[i].contributionPercent.Some?
  }

  /** What `_estimate_from_holdings` returns: the details, the skipped codes and the estimated growth. */
  datatype Estimate = Estimate(details: seq<HoldingEstimate>, skipped: seq<string>, growth: Option<real>)

  /** The estimate the details determine. */
  function EstimateOf(details: seq<HoldingEstimate>): Estimate {
    Estimate(details, SkippedCodes(details), if AnyValid(details) then Some(ContributionTotal(details)) else None)
  }

  /** A code is skipped exactly when some row with that code has no contribution. */
  lemma {:induction false} SkippedCodesSpec(details: seq<HoldingEstimate>)
    ensures forall c :: c in SkippedCodes(details) <==>
              exists i | 0 <= i < |details| :: details[i].stockCode == c && details[i].contributionPercent.None?
    ensures |SkippedCodes(details)| <= |details|
  {
    if details != [] {
      var init := details[..|details| - 1];
      SkippedCodesSpec(init);
      assert forall i | 0 <= i < |init| :: init[i] == details[i];
    }
  }

  /** The growth is None exactly when every row is skipped. */
  lemma GrowthAbsentIffAllSkipped(details: seq<HoldingEstimate>)
    ensures EstimateOf(details).growth.None? <==> |SkippedCodes(details)| == |details|
  {
    SkippedCountsMissing(details);
  }

  /** The number of skipped rows is the number of rows without a contribution; it reaches all rows only when none is valid. */
  lemma {:induction false} SkippedCountsMissing(details: seq<HoldingEstimate>)
    ensures |SkippedCodes(details)| == |details| <==> !AnyValid(details)
  {
    if details != [] {
      var init := details[..|details| - 1];
      SkippedCountsMissing(init);
      SkippedCodesSpec(init);
      assert forall i | 0 <= i < |init| :: init[i] == details[i];
      if AnyValid(init) {
        var i :| 0 <= i < |init| && init[i].contributionPercent.Some?;
        assert details[i].contributionPercent.Some?;
      }
    }
  }

  /** When every contribution is non-negative, so is the estimated growth. */
  lemma {:induction false} TotalNonNegative(details: seq<HoldingEstimate>)
    requires forall i | 0 <= i < |details| :: details[i].contributionPercent.GetOr(0.0) >= 0.0
    ensures ContributionTotal(details) >= 0.0
  {
    if details != [] {
      var init := details[..|details| - 1];
      assert forall i | 0 <= i < |init| :: init[i] == details[i];
      TotalNonNegative(init);
    }
  }

  /**
   * When the quote service fails with a value or runtime error, every row
   * is skipped and there is no growth estimate, whatever the weights.
   */
  lemma QuoteFailureSkipsEverything(rows: seq<HoldingRow>, fetched: Result<map<string, StockQuote>, QuoteError>,
                                    parse: string -> Option<real>, floatText: real -> string, fixed2: real -> string)
    requires rows != [] && fetched.Err? && IsValueOrRuntimeError(fetched.error)
    ensures var changes := StockChangePercents(StockCodes(rows, floatText), fetched).value;
            var details := seq(|rows|, i requires 0 <= i < |rows| => DetailOf(rows[i], changes, parse, floatText, fixed2));
            EstimateOf(details).growth.None? && SkippedCodes(details) == StockCodes(rows, floatText)
  {
    var changes := StockChangePercents(StockCodes(rows, floatText), fetched).value;
    var details := seq(|rows|, i requires 0 <= i < |rows| => DetailOf(rows[i], changes, parse, floatText, fixed2));
    forall i | 0 <= i < |rows|
      ensures details[i].contributionPercent.None?
    {
      assert StockCodes(rows, floatText)[i] == details[i].stockCode;
    }
    AllSkipped(details);
    SkippedCountsMissing(details);
    assert forall i | 0 <= i < |rows| :: details[i].stockCode == StockCodes(rows, floatText)[i];
  }

  /** Without any contribution every row's code is skipped, in order. */
  lemma {:induction false} AllSkipped(details: seq<HoldingEstimate>)
    requires forall i | 0 <= i < |details| :: details[i].contributionPercent.None?
    ensures |SkippedCodes(details)| == |details|
    ensures forall i | 0 <= i < |details| :: SkippedCodes(details)[i] == details[i].stockCode
  {
    if details != [] {
      var init := details[..|details| - 1];
      assert forall i | 0 <= i < |init| :: init[i] == details[i];
      AllSkipped(init);
    }
  }

  /** One loop step: appending a detail extends the skipped codes, the total and the validity flag. */
  lemma EstimateStep(details: seq<HoldingEstimate>, d: HoldingEstimate)
    ensures SkippedCodes(details + [d]) == SkippedCodes(details) + if d.contributionPercent.None? then [d.stockCode] else []
    ensures ContributionTotal(details + [d]) == ContributionTotal(details) + d.contributionPercent.GetOr(0.0)
    ensures AnyValid(details + [d]) <==> AnyValid(details) || d.contributionPercent.Some?
  {
    assert (details + [d])[..|details|] == details;
    if AnyValid(details) {
      var i :| 0 <= i < |details| && details[i].contributionPercent.Some?;
      assert (details + [d])[i] == details[i];
    }
    if d.contributionPercent.Some? {
      assert (details + [d])[|details|] == d;
    }
  }

  /**
   * `_estimate_from_holdings`: nothing for a missing or empty table;
   * otherwise one detail per row in order, the codes of the rows lacking a
   * weight or a change, and the summed contributions when any row has one.
   * The quote service is consulted once, for all rows' codes.
   */
  method EstimateFromHoldings(holdings: Option<seq<HoldingRow>>, fetched: Result<map<string, StockQuote>, QuoteError>,
                              parse: string -> Option<real>, floatText: real -> string, fixed2: real -> string)
    returns (r: Result<Estimate, QuoteError>)
    ensures holdings.None? || holdings.value == [] ==> r == Ok(Estimate([], [], None))
    ensures holdings.Some? && holdings.value != [] ==>
              var changes := StockChangePercents(StockCodes(holdings.value, floatText), fetched);
              (r.Err? <==> changes.Err?) && (r.Err? ==> r.error == changes.error)
    ensures r.Ok? && holdings.Some? ==>
              var rows := holdings.value;
              var changes := StockChangePercents(StockCodes(rows, floatText), fetched).value;
              |r.value.details| == |rows|
              && (forall i | 0 <= i < |rows| :: r.value.details[i] == DetailOf(rows[i], changes, parse, floatText, fixed2))
              && r.value == EstimateOf(r.value.details)
  {
    if holdings.None? || holdings.value == [] {
      return Ok(Estimate([], [], None));
    }
    var rows := holdings.value;
    var changeMap := StockChangePercents(StockCodes(rows, floatText), fetched);
    if changeMap.Err? {
      return Err(changeMap.error);
    }
    var estimate := EstimateRows(rows, changeMap.value, parse, floatText, fixed2);
    r := Ok(estimate);
  }

  /** The loop of `_estimate_from_holdings` over the rows, given the change of each stock. */
  method EstimateRows(rows: seq<HoldingRow>, changes: ChangeMap, parse: string -> Option<real>,
                      floatText: real -> string, fixed2: real -> string)
    returns (estimate: Estimate)
    ensures estimate.details == DetailsOf(rows, changes, parse, floatText, fixed2)
    ensures estimate == EstimateOf(estimate.details)
  {
    var details: seq<HoldingEstimate> := [];
    var skipped: seq<string> := [];
    var total := 0.0;
    var hasValid := false;
    var i := 0;
    while i < |rows|
      invariant 0 <= i <= |rows|
      invariant details == DetailsOf(rows[..i], changes, parse, floatText, fixed2)
      invariant skipped == SkippedCodes(details)
      invariant total == ContributionTotal(details)
      invariant hasValid <==> AnyValid(details)
    {
      var d := DetailOf(rows[i], changes, parse, floatText, fixed2);
      DetailsStep(rows, i, changes, parse, floatText, fixed2);
      skipped, total, hasValid := Tally(details, skipped, total, hasValid, d);
      details := details + [d];
      i := i + 1;
    }
    assert rows[..i] == rows;
    estimate := Estimate(details, skipped, if hasValid then Some(total) else None);
  }

  /** The loop body's bookkeeping for one detail: skip it or add its contribution. */
  method Tally(details: seq<HoldingEstimate>, skipped: seq<string>, total: real, hasValid: bool, d: HoldingEstimate)
    returns (skipped': seq<string>, total': real, hasValid': bool)
    requires skipped == SkippedCodes(details) && total == ContributionTotal(details)
    requires hasValid <==> AnyValid(details)
    ensures skipped' == SkippedCodes(details + [d]) && total' == ContributionTotal(details + [d])
    ensures hasValid' <==> AnyValid(details + [d])
  {
    EstimateStep(details, d);
    skipped', total', hasValid' := skipped, total, hasValid;
    if d.contributionPercent.None? {
      skipped' := skipped + [d.stockCode];
    } else {
      total' := total + d.contributionPercent.value;
      hasValid' := true;
    }
  }

  /**
   * The estimate step of `get_fund_realtime_estimate`: the parsed NAV
   * scaled by the estimated growth, when both are known.
   */
  function EstimatedNav(nav: PyValue, growth: Option<real>, parse: string -> Option<real>): (r: Option<real>)
    ensures r.Some? <==> ParseFloat(nav, parse).Some? && growth.Some?
  {
    var value := ParseFloat(nav, parse);
    if value.Some? && growth.Some? then Some(Grown(value.value, growth.value)) else None
  }

  /** `nav * (1 + growth / 100)`. */
  function Grown(nav: real, growth: real): real {
    nav * (1.0 + growth / 100.0)
  }

  /**
   * The estimate moves with the growth: unchanged at zero growth, above a
   * positive NAV for positive growth, below it for negative growth, and
   * the growth can be read back from the two NAVs.
   */
  lemma EstimatedNavFollowsGrowth(nav: real, growth: real, parse: string -> Option<real>)
    ensures EstimatedNav(PyFloat(nav), Some(growth), parse) == Some(nav + nav * growth / 100.0)
    ensures growth == 0.0 ==> EstimatedNav(PyFloat(nav), Some(growth), parse) == Some(nav)
    ensures nav > 0.0 && growth > 0.0 ==> EstimatedNav(PyFloat(nav), Some(growth), parse).value > nav
    ensures nav > 0.0 && growth < 0.0 ==> EstimatedNav(PyFloat(nav), Some(growth), parse).value < nav
    ensures nav != 0.0 ==> (EstimatedNav(PyFloat(nav), Some(growth), parse).value / nav - 1.0) * 100.0 == growth
  {
    var k := 1.0 + growth / 100.0;
    var e := nav * k;
    assert EstimatedNav(PyFloat(nav), Some(growth), parse) == Some(Grown(nav, growth));
    assert nav * k == nav * 1.0 + nav * (growth / 100.0);
    assert nav * (growth / 100.0) == nav * growth / 100.0;
    if nav != 0.0 {
      assert e / nav == k;
      assert (k - 1.0) * 100.0 == growth;
      assert (e / nav - 1.0) * 100.0 == growth;
      assert EstimatedNav(PyFloat(nav), Some(growth), parse).value == e;
    }
    if nav > 0.0 && growth > 0.0 {
      assert nav * growth > 0.0;
    }
    if nav > 0.0 && growth < 0.0 {
      assert nav * growth < 0.0;
    }
  }
}
