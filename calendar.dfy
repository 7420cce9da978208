/**
 * The trading calendar (app/services/trading_calendar.py).
 *
 * A day is an integer counted from Monday 0001-01-01 (Python's
 * `date.toordinal() - 1`), so `d % 7` is `date.weekday()` (0 = Monday).
 * The trade-date table the market-data library returns is a `Frame` whose
 * date columns are already converted to days; the conversion
 * (`pd.to_datetime`) is not modelled.
 */
module TradingCalendar {
  import opened Wrappers

  type Day = int

  function Weekday(d: Day): int {
    d % 7
  }

  /**
   * `is_trading_day` given the loaded trade-date set: with no dates at all
   * the weekday heuristic (Monday to Friday) decides, otherwise membership.
   */
  predicate IsTradingDay(tradeDates: set<Day>, d: Day) {
    if tradeDates == {} then Weekday(d) < 5 else d in tradeDates
  }

  /**
   * Under the weekday fallback the next trading day is at most three days
   * away (Friday to Monday): the number of days to it, with no trading day
   * strictly in between.
   */
  function WeekdayGap(d: Day): (k: int)
    ensures 1 <= k <= 3
    ensures IsTradingDay({}, d + k)
    ensures forall e | d < e < d + k :: !IsTradingDay({}, e)
  {
    var w := Weekday(d);
    WeekdayShift(d, 1);
    WeekdayShift(d, 2);
    WeekdayShift(d, 3);
    if w == 4 then 3 else if w == 5 then 2 else 1
  }

  /** Moving `j` days on moves the weekday by `j`, modulo seven. */
  lemma WeekdayShift(d: Day, j: nat)
    ensures Weekday(d + j) == (Weekday(d) + j) % 7
  {
    var q := d / 7;
    assert d == 7 * q + Weekday(d);
    assert d + j == 7 * q + (Weekday(d) + j);
  }

  /** A column of the trade-date table. */
  datatype Column = Column(name: string, values: seq<Day>)

  /** A data frame: its columns in order, and its number of rows. */
  datatype Frame = Frame(columns: seq<Column>, rowCount: nat)

  /** `DataFrame.empty`: no columns or no rows. */
  predicate IsEmpty(f: Frame) {
    |f.columns| == 0 || f.rowCount == 0
  }

  /** The column names tried, in this order, before falling back to the first column. */
  const DateColumnNames: seq<string> := ["trade_date", "date", "交易日期", "交易日"]

  predicate HasColumn(f: Frame, name: string) {
    exists k | 0 <= k < |f.columns| :: f.columns[k].name == name
  }

  /** The values of the first column called `name`. */
  function ColumnValues(f: Frame, name: string, from: nat := 0): (r: seq<Day>)
    requires HasColumn(f, name)
    requires forall k | 0 <= k < from && k < |f.columns| :: f.columns[k].name != name
    ensures exists k | from <= k < |f.columns| ::
      f.columns[k].name == name && r == f.columns[k].values &&
      forall j | 0 <= j < k :: f.columns[j].name != name
    decreases |f.columns| - from
  {
    if from < |f.columns| && f.columns[from].name == name then f.columns[from].values
    else ColumnValues(f, name, from + 1)
  }

  /** The first of `DateColumnNames[from..]` the frame has, if any. */
  function PreferredColumnName(f: Frame, from: nat := 0): (r: Option<string>)
    requires from <= |DateColumnNames|
    ensures r.Some? ==>
      HasColumn(f, r.value) &&
      exists k | from <= k < |DateColumnNames| ::
        DateColumnNames[k] == r.value && forall j | from <= j < k :: !HasColumn(f, DateColumnNames[j])
    ensures r.None? ==> forall j | from <= j < |DateColumnNames| :: !HasColumn(f, DateColumnNames[j])
    decreases |DateColumnNames| - from
  {
    if from == |DateColumnNames| then None
    else if HasColumn(f, DateColumnNames[from]) then Some(DateColumnNames[from])
    else PreferredColumnName(f, from + 1)
  }

  /**
   * The date series `_extract_trade_date_series` selects: the first preferred
   * column present, otherwise the first column; None where pandas would
   * raise because the frame has no column at all.
   */
  function TradeDateSeries(f: Frame): Option<seq<Day>> {
    match PreferredColumnName(f)
    case Some(name) => Some(ColumnValues(f, name))
    case None => if |f.columns| > 0 then Some(f.columns[0].values) else None
  }

  /** `_extract_trade_date_series`: try each preferred name in order and return early on a match. */
  method ExtractTradeDateSeries(f: Frame) returns (r: Option<seq<Day>>)
    ensures r == TradeDateSeries(f)
  {
    for i := 0 to |DateColumnNames|
      invariant forall j | 0 <= j < i :: !HasColumn(f, DateColumnNames[j])
    {
      var col := DateColumnNames[i];
      if HasColumn(f, col) {
        assert PreferredColumnName(f, i) == Some(col);
        PreferredColumnNameSkips(f, i);
        return Some(ColumnValues(f, col));
      }
    }
    PreferredColumnNameSkips(f, |DateColumnNames|);
    if |f.columns| == 0 {
      return None;
    }
    return Some(f.columns[0].values);
  }

  /** Names the frame lacks can be skipped when searching for the preferred column. */
  lemma {:induction false} PreferredColumnNameSkips(f: Frame, i: nat)
    requires i <= |DateColumnNames|
    requires forall j | 0 <= j < i :: !HasColumn(f, DateColumnNames[j])
    ensures PreferredColumnName(f) == PreferredColumnName(f, i)
  {
    if i > 0 {
      PreferredColumnNameSkips(f, i - 1);
    }
  }

  /**
   * A frame whose first preferred date column is `DateColumnNames[k]`
   * yields that column's values, whatever other columns it has.
   */
  lemma {:induction false} SeriesPrefersEarlierNames(f: Frame, k: nat)
    requires k < |DateColumnNames| && HasColumn(f, DateColumnNames[k])
    requires forall j | 0 <= j < k :: !HasColumn(f, DateColumnNames[j])
    ensures TradeDateSeries(f) == Some(ColumnValues(f, DateColumnNames[k]))
  {
    PreferredColumnNameSkips(f, k);
  }

  /** The dates `_load_trade_dates` returns for a frame. */
  function LoadedDates(f: Frame): set<Day> {
    if IsEmpty(f) then {}
    else
      var series := TradeDateSeries(f);
      if series.Some? then set d | d in series.value else {}
  }

  /** `_load_trade_dates`: an empty frame gives no dates, otherwise the set of the selected series. */
  method LoadTradeDates(f: Frame) returns (dates: set<Day>)
    ensures IsEmpty(f) ==> dates == {}
    ensures !IsEmpty(f) ==> TradeDateSeries(f).Some? && dates == set d | d in TradeDateSeries(f).value
    ensures dates == LoadedDates(f)
  {
    if IsEmpty(f) {
      return {};
    }
    var series := ExtractTradeDateSeries(f);
    assert |f.columns| > 0;
    dates := set d | d in series.value;
  }

  /**
   * The process-wide trade-date cache (`_trade_dates`). `None` means not yet
   * loaded; once loaded, the set is kept even when it is empty, because the
   * source tests `is None`. The data source is a parameter (`source`), read
   * only on the first call.
   */
  class TradeDateCache {
    var tradeDates: Option<set<Day>>

    constructor ()
      ensures tradeDates == None
    {
      tradeDates := None;
    }

    /** `_get_trade_dates`: load once, then reuse. */
    method GetTradeDates(source: Frame) returns (dates: set<Day>)
      modifies this
      ensures old(tradeDates).Some? ==> dates == old(tradeDates).value && tradeDates == old(tradeDates)
      ensures old(tradeDates).None? ==> dates == LoadedDates(source) && tradeDates == Some(dates)
    {
      if tradeDates.None? {
        var loaded := LoadTradeDates(source);
        tradeDates := Some(loaded);
      }
      dates := tradeDates.value;
    }

    /** `is_trading_day`: consult the cached set, loading it on first use. */
    method IsTradingDayCached(d: Day, source: Frame) returns (b: bool)
      modifies this
      ensures tradeDates.Some? && b == IsTradingDay(tradeDates.value, d)
      ensures old(tradeDates).Some? ==> tradeDates == old(tradeDates)
      ensures old(tradeDates).None? ==> tradeDates == Some(LoadedDates(source))
    {
      var dates := GetTradeDates(source);
      b := if dates == {} then Weekday(d) < 5 else d in dates;
    }
  }
}
