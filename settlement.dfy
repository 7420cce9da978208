/**
 * The settlement rules of app/services/fund/fund_holding_service.py: which
 * day's NAV confirms a trade, the stored trade time, the pending/confirmed
 * decision, the fee arithmetic and the buy/sell delta on a holding.
 */
module Settlement {
  import opened Wrappers
  import opened TradingCalendar
  import opened Models

  /** A trade placed on a trading day before the 15:00 cutoff is priced at that day's NAV. */
  predicate SameDayNav(calendar: set<Day>, tradeDate: Day, afterCutoff: bool) {
    IsTradingDay(calendar, tradeDate) && !afterCutoff
  }

  ghost predicate HasTradingDayAfter(calendar: set<Day>, t: Day) {
    exists d :: d > t && IsTradingDay(calendar, d)
  }

  /**
   * The inputs on which the date scan stops: the same-day case, or some
   * trading day lies ahead. With a non-empty calendar whose last date is
   * before the trade, the source's scan never ends.
   */
  ghost predicate ResolvesNavDate(calendar: set<Day>, tradeDate: Day, afterCutoff: bool) {
    SameDayNav(calendar, tradeDate, afterCutoff) || HasTradingDayAfter(calendar, tradeDate)
  }

  /** Under the weekday fallback every trade date resolves. */
  lemma WeekdayFallbackResolves(tradeDate: Day, afterCutoff: bool)
    ensures ResolvesNavDate({}, tradeDate, afterCutoff)
  {
    var k := WeekdayGap(tradeDate);
    assert IsTradingDay({}, tradeDate + k);
  }

  predicate FirstTradingDayAfter(calendar: set<Day>, t: Day, r: Day) {
    r > t && IsTradingDay(calendar, r) && forall d | t < d < r :: !IsTradingDay(calendar, d)
  }

  /** The NAV-date rule: the trade date itself in the same-day case, else the first trading day after it. */
  ghost predicate IsConfirmedNavDate(calendar: set<Day>, tradeDate: Day, afterCutoff: bool, r: Day) {
    if SameDayNav(calendar, tradeDate, afterCutoff) then r == tradeDate
    else FirstTradingDayAfter(calendar, tradeDate, r)
  }

  /** The first trading day in `from..bound`. */
  ghost function ScanTradingDay(calendar: set<Day>, from: Day, bound: Day): (r: Day)
    requires from <= bound && IsTradingDay(calendar, bound)
    ensures from <= r <= bound && IsTradingDay(calendar, r)
    ensures forall d | from <= d < r :: !IsTradingDay(calendar, d)
    decreases bound - from
  {
    if IsTradingDay(calendar, from) then from else ScanTradingDay(calendar, from + 1, bound)
  }

  /** The confirmed NAV date as a value, for use in specifications. */
  ghost function ConfirmedNavDate(calendar: set<Day>, tradeDate: Day, afterCutoff: bool): (r: Day)
    requires ResolvesNavDate(calendar, tradeDate, afterCutoff)
    ensures IsConfirmedNavDate(calendar, tradeDate, afterCutoff, r)
  {
    if SameDayNav(calendar, tradeDate, afterCutoff) then tradeDate
    else
      var w :| w > tradeDate && IsTradingDay(calendar, w);
      ScanTradingDay(calendar, tradeDate + 1, w)
  }

  /** The rule determines the date: any day satisfying it is `ConfirmedNavDate`. */
  lemma NavDateUnique(calendar: set<Day>, tradeDate: Day, afterCutoff: bool, r: Day)
    requires ResolvesNavDate(calendar, tradeDate, afterCutoff)
    requires IsConfirmedNavDate(calendar, tradeDate, afterCutoff, r)
    ensures r == ConfirmedNavDate(calendar, tradeDate, afterCutoff)
  {
    var c := ConfirmedNavDate(calendar, tradeDate, afterCutoff);
    assert IsTradingDay(calendar, c) && IsTradingDay(calendar, r);
  }

  /**
   * `_resolve_confirmed_nav_date`: the same-day case returns the trade date;
   * otherwise walk forward one day at a time to the next trading day.
   */
  method ResolveConfirmedNavDate(calendar: set<Day>, tradeDate: Day, afterCutoff: bool) returns (r: Day)
    requires ResolvesNavDate(calendar, tradeDate, afterCutoff)
    ensures IsConfirmedNavDate(calendar, tradeDate, afterCutoff, r)
    ensures r == ConfirmedNavDate(calendar, tradeDate, afterCutoff)
  {
    if IsTradingDay(calendar, tradeDate) && !afterCutoff {
      return tradeDate;
    }
    ghost var w :| w > tradeDate && IsTradingDay(calendar, w);
    r := tradeDate + 1;
    while !IsTradingDay(calendar, r)
      invariant tradeDate < r <= w
      invariant forall d | tradeDate < d < r :: !IsTradingDay(calendar, d)
      decreases w - r
    {
      r := r + 1;
    }
    NavDateUnique(calendar, tradeDate, afterCutoff, r);
  }

  /** The NAV date is a trading day, never before the trade date, and equal to it exactly in the same-day case. */
  lemma NavDateBounds(calendar: set<Day>, tradeDate: Day, afterCutoff: bool)
    requires ResolvesNavDate(calendar, tradeDate, afterCutoff)
    ensures var r := ConfirmedNavDate(calendar, tradeDate, afterCutoff);
      r >= tradeDate && IsTradingDay(calendar, r) &&
      (r == tradeDate <==> SameDayNav(calendar, tradeDate, afterCutoff))
  {
  }

  /** Under the weekday fallback the NAV date is at most three days after the trade date. */
  lemma {:induction false} NavDateWithinThreeDays(tradeDate: Day, afterCutoff: bool)
    ensures ResolvesNavDate({}, tradeDate, afterCutoff)
    ensures ConfirmedNavDate({}, tradeDate, afterCutoff) <= tradeDate + 3
  {
    WeekdayFallbackResolves(tradeDate, afterCutoff);
    var r := ConfirmedNavDate({}, tradeDate, afterCutoff);
    var k := WeekdayGap(tradeDate);
    assert IsTradingDay({}, tradeDate + k);
  }

  /**
   * A later trade, or the same trade date placed after the cutoff instead
   * of before it, never gets an earlier NAV date.
   */
  lemma NavDateMonotonic(calendar: set<Day>, t1: Day, c1: bool, t2: Day, c2: bool)
    requires ResolvesNavDate(calendar, t1, c1) && ResolvesNavDate(calendar, t2, c2)
    requires t1 < t2 || (t1 == t2 && (c1 ==> c2))
    ensures ConfirmedNavDate(calendar, t1, c1) <= ConfirmedNavDate(calendar, t2, c2)
  {
    var r1 := ConfirmedNavDate(calendar, t1, c1);
    var r2 := ConfirmedNavDate(calendar, t2, c2);
    assert IsTradingDay(calendar, r2);
  }

  /** On a non-trading day the cutoff flag makes no difference. */
  lemma CutoffIrrelevantOnClosedDays(calendar: set<Day>, tradeDate: Day)
    requires !IsTradingDay(calendar, tradeDate) && HasTradingDayAfter(calendar, tradeDate)
    ensures ConfirmedNavDate(calendar, tradeDate, false) == ConfirmedNavDate(calendar, tradeDate, true)
  {
    NavDateUnique(calendar, tradeDate, true, ConfirmedNavDate(calendar, tradeDate, false));
  }

  /** Minutes since midnight. */
  function MinuteOfDay(t: DateTime): int {
    t.hour * 60 + t.minute
  }

  /** 15:00, the daily order cutoff. */
  const CutoffMinute: int := 15 * 60

  /**
   * `_resolve_trade_time`: one minute after the cutoff for after-cutoff
   * trades, one minute before it otherwise, on the trade date.
   */
  function ResolveTradeTime(tradeDate: Day, afterCutoff: bool): (r: DateTime)
    ensures r.day == tradeDate && r.hour < 24 && r.minute < 60
    ensures MinuteOfDay(r) > CutoffMinute <==> afterCutoff
    ensures MinuteOfDay(r) == if afterCutoff then CutoffMinute + 1 else CutoffMinute - 1
  {
    if afterCutoff then DateTime(tradeDate, 15, 1) else DateTime(tradeDate, 14, 59)
  }

  /** The stored trade time determines the trade date and the cutoff flag. */
  lemma TradeTimeInjective(d1: Day, c1: bool, d2: Day, c2: bool)
    requires ResolveTradeTime(d1, c1) == ResolveTradeTime(d2, c2)
    ensures d1 == d2 && c1 == c2
  {
  }

  /** `_resolve_trade_status`: pending exactly while the NAV date is after today; never canceled. */
  function ResolveTradeStatus(navDate: Day, today: Day): (r: TradeStatus)
    ensures r == Pending <==> navDate > today
    ensures r == Confirmed <==> navDate <= today
  {
    if navDate > today then Pending else Confirmed
  }

  /**
   * The fee percent a trade uses and stores: the requested one; failing
   * that, the account default for a buy and 0 for a sell (the
   * `resolved_fee_percent or 0.0` of the source).
   */
  function ResolveFeePercent(requested: Option<real>, tradeType: TradeType, accountDefault: real): (p: real)
    ensures requested.Some? ==> p == requested.value
    ensures requested.None? ==> p == (if tradeType == Buy then accountDefault else 0.0)
  {
    match requested
    case Some(v) => v
    case None => if tradeType == Buy then accountDefault else 0.0
  }

  function FeeAmount(amount: real, feePercent: real): real {
    amount * feePercent / 100.0
  }

  /** The amount that buys shares: the trade amount net of the fee. */
  function ShareBase(amount: real, feePercent: real): (r: real)
    ensures r + FeeAmount(amount, feePercent) == amount
  {
    amount - FeeAmount(amount, feePercent)
  }

  /** For a positive amount the share base is positive exactly when the fee is below 100%. */
  lemma ShareBasePositive(amount: real, feePercent: real)
    requires amount > 0.0
    ensures ShareBase(amount, feePercent) > 0.0 <==> feePercent < 100.0
  {
    assert ShareBase(amount, feePercent) == amount * (100.0 - feePercent) / 100.0;
  }

  function Opposite(t: TradeType): TradeType {
    if t == Buy then Sell else Buy
  }

  /**
   * The buy/sell delta of `_apply_holding_change`: a buy adds the full
   * amount (not the net) and the shares, a sell subtracts both.
   */
  function ApplyDelta(h: FundHolding, tradeType: TradeType, amount: real, shares: real): (r: FundHolding)
    ensures r.accountId == h.accountId && r.fundCode == h.fundCode
    ensures tradeType == Buy ==> r.totalAmount - h.totalAmount == amount && r.totalShares - h.totalShares == shares
    ensures tradeType == Sell ==> h.totalAmount - r.totalAmount == amount && h.totalShares - r.totalShares == shares
  {
    match tradeType
    case Buy => h.(totalAmount := h.totalAmount + amount, totalShares := h.totalShares + shares)
    case Sell => h.(totalAmount := h.totalAmount - amount, totalShares := h.totalShares - shares)
  }

  /** A trade followed by the opposite trade of the same amount and shares restores the holding. */
  lemma DeltaInverse(h: FundHolding, tradeType: TradeType, amount: real, shares: real)
    ensures ApplyDelta(ApplyDelta(h, tradeType, amount, shares), Opposite(tradeType), amount, shares) == h
  {
  }

  predicate NonNegative(h: FundHolding) {
    h.totalAmount >= 0.0 && h.totalShares >= 0.0
  }

  /**
   * A sell that passed both sufficiency checks, and a buy of non-negative
   * amount and shares, never trips the negative-balance check.
   */
  lemma CheckedDeltaStaysNonNegative(h: FundHolding, tradeType: TradeType, amount: real, shares: real)
    requires NonNegative(h)
    requires tradeType == Sell ==> h.totalAmount >= amount && h.totalShares >= shares
    requires tradeType == Buy ==> amount >= 0.0 && shares >= 0.0
    ensures NonNegative(ApplyDelta(h, tradeType, amount, shares))
  {
  }
}
