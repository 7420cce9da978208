/**
 * Fund lookup, quarterly holdings and NAV-history periods
 * (app/services/fund/fund_service.py).
 *
 * akshare's tables reach this module as sequences of rows whose cells are
 * `PyValue`s; the akshare calls themselves are parameters. Float rendering
 * (`str(x)` of a float, `:.2f`, `:,.2f`) is left to the `floatText`,
 * `fixed2` and `grouped2` parameters.
 */
module FundService {
  import opened Wrappers
  import opened Strings
  import opened Parsing
  import opened TradingCalendar
  import opened Models

  // ---------------------------------------------------------------------
  // Resolving a fund code against the fund list
  // ---------------------------------------------------------------------

  const FundCodeColumn := "基金代码"

  /** A fund-list row: `基金代码`, `基金简称`, `基金类型`. */
  datatype FundRow = FundRow(code: string, name: string, kind: string)

  /**
   * The fund list as pandas sees it. The empty cached list becomes a frame
   * without any column; every other list has the fund-code column.
   */
  datatype FundTable = ColumnlessTable | FundTable(rows: seq<FundRow>)

  /** The position of the first row with fund code `code`. */
  function FirstMatch(rows: seq<FundRow>, code: string): (r: Option<nat>)
    ensures r.Some? ==> r.value < |rows| && rows[r.value].code == code
    ensures r.Some? ==> forall j | 0 <= j < r.value :: rows[j].code != code
    ensures r.None? <==> forall j | 0 <= j < |rows| :: rows[j].code != code
  {
    if rows == [] then None
    else if rows[0].code == code then Some(0)
    else
      var rest := FirstMatch(rows[1..], code);
      if rest.None? then None else Some(rest.value + 1)
  }

  /** `_resolve_fund_by_code` as written: indexing a column-less frame raises `KeyError`. */
  function ResolveFundByCodeAsWritten(table: FundTable, code: string): Result<FundRow, Error> {
    match table
    case ColumnlessTable => Err(MissingColumn(FundCodeColumn))
    case FundTable(rows) => ResolveFundByCode(table, code)
  }

  /**
   * `_resolve_fund_by_code`: the first row whose code equals the stripped
   * code, else `FundNotFoundError` naming the stripped code. An empty fund
   * list has no fund in it.
   */
  function ResolveFundByCode(table: FundTable, code: string): (r: Result<FundRow, Error>)
    ensures r.Ok? <==> table.FundTable? && exists j | 0 <= j < |table.rows| :: table.rows[j].code == Strip(code)
    ensures r.Err? ==> r.error == FundNotFound(Strip(code))
    ensures r.Ok? ==> r.value.code == Strip(code)
    ensures r.Ok? ==> exists j | 0 <= j < |table.rows| :: table.rows[j] == r.value
                         && forall k | 0 <= k < j :: table.rows[k].code != Strip(code)
  {
    match table
    case ColumnlessTable => Err(FundNotFound(Strip(code)))
    case FundTable(rows) =>
      var m := FirstMatch(rows, Strip(code));
      if m.None? then Err(FundNotFound(Strip(code))) else Ok(rows[m.value])
  }

  /**
   * The code as written answers an empty fund list with a `KeyError`
   * rather than `FundNotFoundError`; on every list with columns it agrees
   * with the corrected lookup.
   */
  lemma EmptyFundListRaisesKeyError(table: FundTable, code: string)
    ensures ResolveFundByCodeAsWritten(ColumnlessTable, code) == Err(MissingColumn(FundCodeColumn))
    ensures ResolveFundByCode(ColumnlessTable, code) == Err(FundNotFound(Strip(code)))
    ensures table.FundTable? ==> ResolveFundByCodeAsWritten(table, code) == ResolveFundByCode(table, code)
  {
  }

  /** Surrounding whitespace in the requested code does not change the answer. */
  lemma ResolveIgnoresEdgeSpace(table: FundTable, code: string)
    ensures ResolveFundByCode(table, Strip(code)) == ResolveFundByCode(table, code)
  {
    StripIsClean(code);
    StripFixesClean(Strip(code));
  }

  // ---------------------------------------------------------------------
  // Quarter descriptions
  // ---------------------------------------------------------------------

  /** `f"{year}年"`. */
  function YearMark(year: int): string {
    IntToString(year) + "年"
  }

  /** `f"{q}季度"`. */
  function QuarterMark(q: nat): string {
    NatToString(q) + "季度"
  }

  /** The highest of the quarters 1..`q` whose mark occurs in `s`. */
  function HighestQuarter(s: string, q: nat): Option<nat>
    requires q <= 4
  {
    if q == 0 then None
    else if Contains(s, QuarterMark(q)) then Some(q)
    else HighestQuarter(s, q - 1)
  }

  /** What `_extract_quarter(value, year)` returns. */
  function QuarterOf(value: PyValue, year: int): Option<nat> {
    if !value.PyStr? || !Contains(value.s, YearMark(year)) then None
    else HighestQuarter(value.s, 4)
  }

  lemma {:induction false} HighestQuarterIsHighest(s: string, q: nat)
    requires q <= 4
    ensures HighestQuarter(s, q).Some? <==> exists k | 1 <= k <= q :: Contains(s, QuarterMark(k))
    ensures HighestQuarter(s, q).Some? ==>
              var h := HighestQuarter(s, q).value;
              1 <= h <= q && Contains(s, QuarterMark(h)) && forall k | h < k <= q :: !Contains(s, QuarterMark(k))
  {
    if q > 0 && !Contains(s, QuarterMark(q)) {
      HighestQuarterIsHighest(s, q - 1);
    }
  }

  /**
   * `_extract_quarter` finds a quarter exactly when the value is a string
   * naming the year and some quarter 1-4, and then it is the highest
   * quarter named.
   */
  lemma QuarterOfSpec(value: PyValue, year: int)
    ensures QuarterOf(value, year).Some? <==>
              value.PyStr? && Contains(value.s, YearMark(year)) && exists k | 1 <= k <= 4 :: Contains(value.s, QuarterMark(k))
    ensures QuarterOf(value, year).Some? ==>
              var h := QuarterOf(value, year).value;
              1 <= h <= 4 && Contains(value.s, QuarterMark(h)) && forall k | h < k <= 4 :: !Contains(value.s, QuarterMark(k))
  {
    if value.PyStr? {
      HighestQuarterIsHighest(value.s, 4);
    }
  }

  /** No character of a rendered year is a CJK mark. */
  lemma YearMarkChars(year: int)
    ensures forall k | 0 <= k < |IntToString(year)| :: IntToString(year)[k] != '季'
  {
    if year < 0 {
      assert IntToString(year) == "-" + NatToString(-year);
    }
  }

  /** In `"{year}年{q}季度"` the only quarter mark is that of `q`. */
  lemma NoHigherMark(year: int, q: nat, k: nat, i: int)
    requires 1 <= q < k <= 4
    ensures !OccursAt(YearMark(year) + QuarterMark(q), QuarterMark(k), i)
  {
    var y := YearMark(year);
    var s := y + QuarterMark(q);
    assert NatToString(q) == [DigitChar(q)];
    assert NatToString(k) == [DigitChar(k)];
    assert s == y + [DigitChar(q), '季', '度'];
    if 0 <= i <= |s| - 3 {
      if i + 1 < |y| - 1 {
        YearMarkChars(year);
        assert s[i + 1] == IntToString(year)[i + 1];
      } else if i + 1 == |y| - 1 {
        assert s[i + 1] == '年';
      } else if i + 1 == |y| {
        assert s[i + 1] == DigitChar(q);
      } else {
        assert s[i] == DigitChar(q);
      }
      assert s[i] != DigitChar(k) || s[i + 1] != '季';
      assert s[i..i + 3][0] == s[i] && s[i..i + 3][1] == s[i + 1];
    }
  }

  /** A description `"{year}年{q}季度"` is read back as quarter `q`. */
  lemma {:induction false} QuarterDescriptionRoundTrip(year: int, q: nat)
    requires 1 <= q <= 4
    ensures QuarterOf(PyStr(YearMark(year) + QuarterMark(q)), year) == Some(q)
  {
    var y := YearMark(year);
    var s := y + QuarterMark(q);
    assert NatToString(q) == [DigitChar(q)];
    assert OccursAt(s, y, 0);
    assert OccursAt(s, QuarterMark(q), |y|);
    forall k, i | q < k <= 4 && 0 <= i <= |s| - |QuarterMark(k)|
      ensures !OccursAt(s, QuarterMark(k), i)
    {
      NoHigherMark(year, q, k, i);
    }
    HighestQuarterIsHighest(s, 4);
  }

  /** `_extract_quarter`, scanning the quarters from 4 down to 1. */
  method ExtractQuarter(value: PyValue, year: int) returns (r: Option<nat>)
    ensures r == QuarterOf(value, year)
  {
    if !value.PyStr? || !Contains(value.s, YearMark(year)) {
      return None;
    }
    var q := 4;
    while q > 0
      invariant 0 <= q <= 4
      invariant HighestQuarter(value.s, q) == HighestQuarter(value.s, 4)
      decreases q
    {
      if Contains(value.s, QuarterMark(q)) {
        return Some(q);
      }
      q := q - 1;
    }
    return None;
  }

  // ---------------------------------------------------------------------
  // Quarterly holdings
  // ---------------------------------------------------------------------

  /** A row of `fund_portfolio_hold_em`: `季度`, `股票代码`, `股票名称`, `占净值比例`, `持仓市值`. */
  datatype HoldingRow = HoldingRow(quarter: PyValue, stockCode: PyValue, stockName: PyValue, weight: PyValue, marketValue: PyValue)

  /** The latest quarter of `year` any row describes. */
  function LatestQuarter(rows: seq<HoldingRow>, year: int): (r: Option<nat>)
    ensures r.None? <==> forall i | 0 <= i < |rows| :: QuarterOf(rows[i].quarter, year).None?
    ensures r.Some? ==> exists i | 0 <= i < |rows| :: QuarterOf(rows[i].quarter, year) == r
    ensures r.Some? ==> forall i | 0 <= i < |rows| && QuarterOf(rows[i].quarter, year).Some? :: QuarterOf(rows[i].quarter, year).value <= r.value
  {
    if rows == [] then None
    else
      var rest := LatestQuarter(rows[1..], year);
      var here := QuarterOf(rows[0].quarter, year);
      assert forall i | 1 <= i < |rows| :: rows[i] == rows[1..][i - 1];
      if here.None? then rest
      else if rest.None? || rest.value <= here.value then here
      else rest
  }

  /** `holdings["季度"].str.contains(mark, na=False)`: only text cells can match. */
  predicate QuarterNames(row: HoldingRow, mark: string) {
    row.quarter.PyStr? && Contains(row.quarter.s, mark)
  }

  /** The rows whose quarter cell names `mark`, in their order. */
  function RowsNaming(rows: seq<HoldingRow>, mark: string): (r: seq<HoldingRow>)
    ensures forall x :: x in r <==> x in rows && QuarterNames(x, mark)
    ensures |r| <= |rows|
  {
    if rows == [] then []
    else (if QuarterNames(rows[0], mark) then [rows[0]] else []) + RowsNaming(rows[1..], mark)
  }

  /**
   * Filtering keeps the order: the rows kept from two tables in sequence
   * are those kept from the first followed by those kept from the second.
   */
  lemma {:induction false} RowsNamingConcat(a: seq<HoldingRow>, b: seq<HoldingRow>, mark: string)
    ensures RowsNaming(a + b, mark) == RowsNaming(a, mark) + RowsNaming(b, mark)
  {
    if a == [] {
      assert a + b == b;
    } else {
      assert (a + b)[0] == a[0];
      assert (a + b)[1..] == a[1..] + b;
      RowsNamingConcat(a[1..], b, mark);
    }
  }

  /**
   * `_latest_quarter_holdings_by_year` on the table akshare returned:
   * None when it is empty or no row names a quarter of `year`; otherwise
   * the rows naming `"{year}年{latest}季度"`.
   */
  function HoldingsOfYear(rows: seq<HoldingRow>, year: int): (r: Option<seq<HoldingRow>>)
    ensures r.None? <==> forall i | 0 <= i < |rows| :: QuarterOf(rows[i].quarter, year).None?
    ensures r.Some? ==> forall x | x in r.value :: x in rows && QuarterOf(x.quarter, year) == LatestQuarter(rows, year)
    ensures r.Some? ==> LatestQuarter(rows, year).Some?
    ensures r.Some? ==> r.value == RowsNaming(rows, YearMark(year) + QuarterMark(LatestQuarter(rows, year).value))
    ensures r.Some? ==> forall x :: x in r.value <==>
      x in rows && QuarterNames(x, YearMark(year) + QuarterMark(LatestQuarter(rows, year).value))
  {
    var latest := LatestQuarter(rows, year);
    if latest.None? then None
    else
      var mark := YearMark(year) + QuarterMark(latest.value);
      var kept := RowsNaming(rows, mark);
      assert forall x | x in kept :: QuarterOf(x.quarter, year) == latest by {
        forall x | x in kept
          ensures QuarterOf(x.quarter, year) == latest
        {
          NamingLatestIsLatest(x, rows, year, latest.value);
        }
      }
      Some(kept)
  }

  /** Text containing `a + b` contains `a` and `b`. */
  lemma ContainsParts(s: string, a: string, b: string)
    requires Contains(s, a + b)
    ensures Contains(s, a) && Contains(s, b)
  {
    var i :| 0 <= i <= |s| - |a + b| && OccursAt(s, a + b, i);
    assert s[i..i + |a|] == (a + b)[..|a|];
    assert OccursAt(s, a, i);
    assert s[i + |a|..i + |a| + |b|] == (a + b)[|a|..];
    assert OccursAt(s, b, i + |a|);
  }

  /** A row naming the latest quarter's description reads as that quarter. */
  lemma NamingLatestIsLatest(x: HoldingRow, rows: seq<HoldingRow>, year: int, latest: nat)
    requires x in rows && LatestQuarter(rows, year) == Some(latest)
    requires QuarterNames(x, YearMark(year) + QuarterMark(latest))
    ensures QuarterOf(x.quarter, year) == Some(latest)
  {
    var w :| 0 <= w < |rows| && QuarterOf(rows[w].quarter, year) == Some(latest);
    QuarterOfSpec(rows[w].quarter, year);
    assert 1 <= latest <= 4;
    ContainsParts(x.quarter.s, YearMark(year), QuarterMark(latest));
    QuarterOfSpec(x.quarter, year);
    assert QuarterOf(x.quarter, year).Some?;
    var h := QuarterOf(x.quarter, year).value;
    var k :| 0 <= k < |rows| && rows[k] == x;
    assert h <= latest by {
      assert QuarterOf(rows[k].quarter, year) == Some(h);
    }
  }

  /** A year's holdings are worth returning when present and non-empty. */
  predicate Usable(h: Option<seq<HoldingRow>>) {
    h.Some? && h.value != []
  }

  /**
   * `_latest_quarter_holdings`: the current year's holdings, or the
   * previous year's when the current year has none. `fetch(y)` is
   * `fund_portfolio_hold_em(symbol=code, date=y)` and `year` comes from the clock.
   */
  method LatestQuarterHoldings(year: int, fetch: int -> seq<HoldingRow>) returns (r: Option<seq<HoldingRow>>)
    ensures Usable(HoldingsOfYear(fetch(year), year)) ==> r == HoldingsOfYear(fetch(year), year)
    ensures !Usable(HoldingsOfYear(fetch(year), year)) && Usable(HoldingsOfYear(fetch(year - 1), year - 1)) ==>
              r == HoldingsOfYear(fetch(year - 1), year - 1)
    ensures !Usable(HoldingsOfYear(fetch(year), year)) && !Usable(HoldingsOfYear(fetch(year - 1), year - 1)) ==> r == None
    ensures r.Some? ==> r.value != []
  {
    var years := [year, year - 1];
    var i := 0;
    while i < |years|
      invariant 0 <= i <= |years|
      invariant forall k | 0 <= k < i :: !Usable(HoldingsOfYear(fetch(years[k]), years[k]))
    {
      var result := HoldingsOfYear(fetch(years[i]), years[i]);
      if result.Some? && result.value != [] {
        return result;
      }
      i := i + 1;
    }
    assert years[0] == year && years[1] == year - 1;
    return None;
  }

  // ---------------------------------------------------------------------
  // Formatting holdings
  // ---------------------------------------------------------------------

  /** `str(value)`; a float's text is the `floatText` parameter. */
  function PyText(v: PyValue, floatText: real -> string): string {
    match v
    case PyNone => "None"
    case PyNaN => "nan"
    case PyFloat(f) => floatText(f)
    case PyInt(i) => IntToString(i)
    case PyBool(b) => if b then "True" else "False"
    case PyStr(s) => s
    case PyOther(repr) => repr
  }

  /**
   * `pd.to_numeric(value, errors="coerce")` followed by `pd.notna`:
   * numbers and bools are numeric, text is numeric when `parse` reads it,
   * everything else coerces to NaN.
   */
  function ToNumeric(v: PyValue, parse: string -> Option<real>): Option<real> {
    match v
    case PyFloat(f) => Some(f)
    case PyInt(i) => Some(i as real)
    case PyBool(b) => Some(if b then 1.0 else 0.0)
    case PyStr(s) => parse(s)
    case _ => None
  }

  /** `FundHolding`. */
  datatype FormattedHolding = FormattedHolding(quarter: string, stockCode: string, stockName: string,
                                               weightPercent: Option<string>, marketValue: Option<string>)

  /** The record `_format_holdings` builds for one row. */
  function FormatHolding(row: HoldingRow, parse: string -> Option<real>, floatText: real -> string,
                         fixed2: real -> string, grouped2: real -> string): (r: FormattedHolding)
    ensures r.weightPercent.Some? <==> ToNumeric(row.weight, parse).Some?
    ensures r.weightPercent.Some? ==> r.weightPercent.value == fixed2(ToNumeric(row.weight, parse).value) + "%"
    ensures r.marketValue.Some? <==> ToNumeric(row.marketValue, parse).Some?
    ensures r.marketValue.Some? ==> r.marketValue.value == grouped2(ToNumeric(row.marketValue, parse).value)
    ensures r.quarter == PyText(row.quarter, floatText) && r.stockCode == PyText(row.stockCode, floatText)
    ensures r.stockName == PyText(row.stockName, floatText)
  {
    var weight := ToNumeric(row.weight, parse);
    var value := ToNumeric(row.marketValue, parse);
    FormattedHolding(PyText(row.quarter, floatText), PyText(row.stockCode, floatText), PyText(row.stockName, floatText),
                     if weight.Some? then Some(fixed2(weight.value) + "%") else None,
                     if value.Some? then Some(grouped2(value.value)) else None)
  }

  /** `_format_holdings`: nothing for a missing or empty table, else one record per row, in order. */
  method FormatHoldings(holdings: Option<seq<HoldingRow>>, parse: string -> Option<real>, floatText: real -> string,
                        fixed2: real -> string, grouped2: real -> string)
    returns (output: seq<FormattedHolding>)
    ensures holdings.None? ==> output == []
    ensures holdings.Some? ==> |output| == |holdings.value|
    ensures holdings.Some? ==> forall i | 0 <= i < |output| :: output[i] == FormatHolding(holdings.value[i], parse, floatText, fixed2, grouped2)
  {
    if holdings.None? || holdings.value == [] {
      return [];
    }
    var rows := holdings.value;
    output := [];
    var i := 0;
    while i < |rows|
      invariant 0 <= i <= |rows|
      invariant |output| == i
      invariant forall k | 0 <= k < i :: output[k] == FormatHolding(rows[k], parse, floatText, fixed2, grouped2)
    {
      output := output + [FormatHolding(rows[i], parse, floatText, fixed2, grouped2)];
      i := i + 1;
    }
  }

  // ---------------------------------------------------------------------
  // NAV history periods
  // ---------------------------------------------------------------------

  /** `FundNavHistoryPeriod`. */
  datatype Period = OneWeek | OneMonth | ThreeMonths | OneYear | SinceInception

  /** The window length of a period in days; the whole history has none. */
  function WindowDays(p: Period): Option<nat> {
    match p
    case OneWeek => Some(7)
    case OneMonth => Some(30)
    case ThreeMonths => Some(90)
    case OneYear => Some(365)
    case SinceInception => None
  }

  /** The latest date of a non-empty history. */
  function LatestDay<T>(rows: seq<(Day, T)>): (r: Day)
    requires rows != []
    ensures exists i | 0 <= i < |rows| :: rows[i].0 == r
    ensures forall i | 0 <= i < |rows| :: rows[i].0 <= r
  {
    if |rows| == 1 then rows[0].0
    else
      var rest := LatestDay(rows[1..]);
      assert forall i | 1 <= i < |rows| :: rows[i] == rows[1..][i - 1];
      if rows[0].0 >= rest then rows[0].0 else rest
  }

  /** The rows dated on or after `start`, in their order. */
  function RowsFrom<T(!new)>(rows: seq<(Day, T)>, start: Day): (r: seq<(Day, T)>)
    ensures forall x :: x in r <==> x in rows && x.0 >= start
  {
    if rows == [] then []
    else (if rows[0].0 >= start then [rows[0]] else []) + RowsFrom(rows[1..], start)
  }

  /** Filtering by date keeps the order of the history. */
  lemma {:induction false} RowsFromConcat<T(!new)>(a: seq<(Day, T)>, b: seq<(Day, T)>, start: Day)
    ensures RowsFrom(a + b, start) == RowsFrom(a, start) + RowsFrom(b, start)
  {
    if a == [] {
      assert a + b == b;
    } else {
      assert (a + b)[0] == a[0];
      assert (a + b)[1..] == a[1..] + b;
      RowsFromConcat(a[1..], b, start);
    }
  }

  /**
   * `_filter_history_by_period`: the whole history for `since_inception`;
   * otherwise the rows no older than the window before the latest date.
   * An empty history has no latest date and keeps nothing.
   */
  function FilterHistoryByPeriod<T(!new)>(rows: seq<(Day, T)>, period: Period): (r: seq<(Day, T)>)
    ensures period == SinceInception ==> r == rows
    ensures rows == [] ==> r == []
  {
    if period == SinceInception then rows
    else if rows == [] then []
    else RowsFrom(rows, LatestDay(rows) - WindowDays(period).value)
  }

  /** A windowed period keeps the rows from the window's start, in their order. */
  lemma FilterWindow<T(!new)>(rows: seq<(Day, T)>, period: Period)
    requires period != SinceInception && rows != []
    ensures FilterHistoryByPeriod(rows, period) == RowsFrom(rows, LatestDay(rows) - WindowDays(period).value)
  {
    match period {
      case OneWeek =>
      case OneMonth =>
      case ThreeMonths =>
      case OneYear =>
    }
  }

  /** A windowed period keeps exactly the rows no older than the window before the latest date. */
  lemma FilterMembers<T(!new)>(rows: seq<(Day, T)>, period: Period, x: (Day, T))
    requires period != SinceInception && rows != []
    ensures x in FilterHistoryByPeriod(rows, period) <==> x in rows && x.0 >= LatestDay(rows) - WindowDays(period).value
  {
  }

  /** Keeping the rows from `start` twice keeps the same rows. */
  lemma {:induction false} RowsFromTwice<T(!new)>(rows: seq<(Day, T)>, start: Day)
    ensures RowsFrom(RowsFrom(rows, start), start) == RowsFrom(rows, start)
  {
    if rows != [] {
      var rest := RowsFrom(rows[1..], start);
      RowsFromTwice(rows[1..], start);
      if rows[0].0 >= start {
        assert RowsFrom(rows, start) == [rows[0]] + rest;
        assert ([rows[0]] + rest)[1..] == rest;
      } else {
        assert RowsFrom(rows, start) == rest;
      }
    }
  }

  /** Every period keeps the latest day's rows, so a filtered history is never empty when the history is not. */
  lemma LatestRowsKept<T(!new)>(rows: seq<(Day, T)>, period: Period)
    requires rows != []
    ensures forall i | 0 <= i < |rows| && rows[i].0 == LatestDay(rows) :: rows[i] in FilterHistoryByPeriod(rows, period)
    ensures FilterHistoryByPeriod(rows, period) != []
  {
    var i :| 0 <= i < |rows| && rows[i].0 == LatestDay(rows);
    assert rows[i] in rows;
    if period != SinceInception {
      forall k | 0 <= k < |rows| && rows[k].0 == LatestDay(rows)
        ensures rows[k] in FilterHistoryByPeriod(rows, period)
      {
        FilterMembers(rows, period, rows[k]);
      }
    }
  }

  /** A longer window keeps every row a shorter one keeps; `since_inception` keeps them all. */
  lemma WiderWindowKeepsMore<T(!new)>(rows: seq<(Day, T)>, p: Period, q: Period, x: (Day, T))
    requires q == SinceInception || (p != SinceInception && WindowDays(p).value <= WindowDays(q).value)
    requires x in FilterHistoryByPeriod(rows, p)
    ensures x in FilterHistoryByPeriod(rows, q)
  {
    if q != SinceInception {
      FilterMembers(rows, p, x);
      FilterMembers(rows, q, x);
    }
  }

  /** Filtering keeps the latest date. */
  lemma FilterKeepsLatestDay<T(!new)>(rows: seq<(Day, T)>, period: Period)
    requires rows != []
    ensures FilterHistoryByPeriod(rows, period) != []
    ensures LatestDay(FilterHistoryByPeriod(rows, period)) == LatestDay(rows)
  {
    var kept := FilterHistoryByPeriod(rows, period);
    LatestRowsKept(rows, period);
    var i :| 0 <= i < |rows| && rows[i].0 == LatestDay(rows);
    assert rows[i] in kept;
    var j :| 0 <= j < |kept| && kept[j].0 == LatestDay(kept);
    assert kept[j] in kept;
  }

  /** Filtering an already filtered history by the same period changes nothing. */
  lemma FilterIdempotent<T(!new)>(rows: seq<(Day, T)>, period: Period)
    ensures FilterHistoryByPeriod(FilterHistoryByPeriod(rows, period), period) == FilterHistoryByPeriod(rows, period)
  {
    if period != SinceInception && rows != [] {
      var start := LatestDay(rows) - WindowDays(period).value;
      var kept := FilterHistoryByPeriod(rows, period);
      FilterKeepsLatestDay(rows, period);
      FilterWindow(rows, period);
      FilterWindow(kept, period);
      RowsFromTwice(rows, start);
    }
  }
}
