/**
 * Trade recording and settlement (app/services/fund/fund_holding_service.py).
 *
 * Every operation works on a `Session`: it changes `s.db` step by step as
 * the source changes the session's objects, and only `Commit` makes the
 * result durable. The operations are proved against ghost functions
 * (`CreateOutcome`, `SweepUpTo`, …) that give the resulting database or the
 * error; the properties of the service are lemmas about those functions.
 */
module HoldingService {
  import opened Wrappers
  import opened Strings
  import opened TradingCalendar
  import opened Models
  import opened Store
  import opened Settlement

  /**
   * What the service takes from outside the database: today's date (China
   * standard time), the loaded trade-date set, and the NAV lookup by fund
   * code and date (None where the lookup raises).
   */
  datatype Env = Env(today: Day, calendar: set<Day>, nav: (string, Day) -> Option<real>)

  /** The arguments of `_create_transaction_record`, less the session and the commit flag. */
  datatype TradeRequest = TradeRequest(
    accountId: nat,
    fundCode: string,
    tradeType: TradeType,
    amount: real,
    feePercent: Option<real>,
    tradeDate: Day,
    isAfterCutoff: bool,
    remark: Option<string>,
    conversionId: Option<nat>)

  /** `db.add(holding); db.flush()`: the holding gets the next key. */
  function AddHolding(db: Db, h: FundHolding): Db {
    db.(holdings := db.holdings[db.nextHoldingId := h], nextHoldingId := db.nextHoldingId + 1)
  }

  /** `db.add(transaction); db.flush()`: the transaction gets the next key. */
  function AddTransaction(db: Db, t: FundTransaction): Db {
    db.(transactions := db.transactions[db.nextTransactionId := t], nextTransactionId := db.nextTransactionId + 1)
  }

  /*
   * Settling a trade against its holding: fetch the NAV, derive the shares,
   * check a sell against the balance, then apply the delta.
   */

  /** The state after settling, with the NAV and the shares; the error otherwise. */
  ghost function ConfirmOutcome(db: Db, holdingId: nat, code: string, navDate: Day, tradeType: TradeType,
                                amount: real, shareBase: real, env: Env): (r: Result<(Db, real, real), Error>)
    requires holdingId in db.holdings
  {
    match env.nav(code, navDate)
    case None => Err(NavUnavailable(code, navDate))
    case Some(nav) =>
      if nav <= 0.0 then Err(NonPositiveNav)
      else
        var shares := shareBase / nav;
        var h := db.holdings[holdingId];
        if tradeType == Sell && h.totalAmount < amount then Err(SellExceedsAmount)
        else if tradeType == Sell && h.totalShares < shares then Err(SellExceedsShares)
        else
          var h' := ApplyDelta(h, tradeType, amount, shares);
          if NonNegative(h') then Ok((db.(holdings := db.holdings[holdingId := h']), nav, shares))
          else Err(NegativeHolding)
  }

  /**
   * `_apply_holding_change`: the holding is changed first and checked
   * afterwards, so on failure the session still holds the changed balance.
   */
  method ApplyHoldingChange(s: Session, holdingId: nat, tradeType: TradeType, amount: real, shares: real)
    returns (r: Result<(), Error>)
    requires holdingId in s.db.holdings
    modifies s
    ensures s.db == old(s.db).(holdings := old(s.db).holdings[holdingId := ApplyDelta(old(s.db).holdings[holdingId], tradeType, amount, shares)])
    ensures s.committed == old(s.committed)
    ensures r.Ok? <==> NonNegative(s.db.holdings[holdingId])
    ensures r.Err? ==> r.error == NegativeHolding
  {
    var h := s.db.holdings[holdingId];
    if tradeType == Buy {
      h := h.(totalAmount := h.totalAmount + amount, totalShares := h.totalShares + shares);
    } else {
      h := h.(totalAmount := h.totalAmount - amount, totalShares := h.totalShares - shares);
    }
    s.db := s.db.(holdings := s.db.holdings[holdingId := h]);
    if h.totalAmount < 0.0 || h.totalShares < 0.0 {
      return Err(NegativeHolding);
    }
    return Ok(());
  }

  /**
   * The settlement block shared by trade creation and the sweep: NAV lookup,
   * positive-NAV check, shares, sell sufficiency, then the holding change.
   */
  method ConfirmAgainstHolding(s: Session, holdingId: nat, code: string, navDate: Day, tradeType: TradeType,
                               amount: real, shareBase: real, env: Env) returns (r: Result<(real, real), Error>)
    requires holdingId in s.db.holdings
    modifies s
    ensures s.committed == old(s.committed)
    ensures ConfirmOutcome(old(s.db), holdingId, code, navDate, tradeType, amount, shareBase, env) ==
      if r.Ok? then Ok((s.db, r.value.0, r.value.1)) else Err(r.error)
  {
    var found := env.nav(code, navDate);
    if found.None? {
      return Err(NavUnavailable(code, navDate));
    }
    var nav := found.value;
    if nav <= 0.0 {
      return Err(NonPositiveNav);
    }
    var shares := shareBase / nav;
    var h := s.db.holdings[holdingId];
    if tradeType == Sell {
      if h.totalAmount < amount {
        return Err(SellExceedsAmount);
      }
      if h.totalShares < shares {
        return Err(SellExceedsShares);
      }
    }
    var applied := ApplyHoldingChange(s, holdingId, tradeType, amount, shares);
    if applied.Err? {
      return Err(applied.error);
    }
    return Ok((nav, shares));
  }

  /*
   * Recording a trade.
   */

  /** The pair's holding; for a buy without one, a new empty holding; for a sell without one, the error. */
  ghost function ResolveHolding(db: Db, accountId: nat, code: string, tradeType: TradeType): (r: Result<(Db, nat), Error>)
    ensures r.Ok? ==> HoldingMatches(r.value.0.holdings, r.value.1, accountId, code)
    ensures r.Ok? ==> r.value.0.transactions == db.transactions && r.value.0.nextTransactionId == db.nextTransactionId
  {
    match FindHolding(db, accountId, code)
    case Some(id) => Ok((db, id))
    case None =>
      if tradeType == Sell then Err(FundHoldingNotFound(code))
      else Ok((AddHolding(db, FundHolding(accountId, code)), db.nextHoldingId))
  }

  /** The transaction row a trade stores. */
  function TradeRow(q: TradeRequest, holdingId: nat, code: string, status: TradeStatus, feePercent: real,
                    nav: real, navDate: Day, shares: real): FundTransaction {
    FundTransaction(q.accountId, Some(holdingId), q.conversionId, code, q.tradeType, q.amount, nav, navDate, shares,
                    ResolveTradeTime(q.tradeDate, q.isAfterCutoff), q.remark, status, feePercent, FeeAmount(q.amount, feePercent))
  }

  /**
   * What follows once the holding is known: the share-base check, the NAV
   * date, settlement when that date has come, and the stored row with its key.
   */
  ghost function RecordOutcome(db: Db, holdingId: nat, q: TradeRequest, code: string, feePercent: real, env: Env): Result<(Db, nat), Error>
    requires holdingId in db.holdings
    requires ResolvesNavDate(env.calendar, q.tradeDate, q.isAfterCutoff)
  {
    var base := ShareBase(q.amount, feePercent);
    if base <= 0.0 then Err(NonPositiveShareBase)
    else
      var navDate := ConfirmedNavDate(env.calendar, q.tradeDate, q.isAfterCutoff);
      if ResolveTradeStatus(navDate, env.today) == Pending then
        Ok((AddTransaction(db, TradeRow(q, holdingId, code, Pending, feePercent, 0.0, navDate, 0.0)), db.nextTransactionId))
      else
        var settled := ConfirmOutcome(db, holdingId, code, navDate, q.tradeType, q.amount, base, env);
        if settled.Err? then Err(settled.error)
        else
          var db2 := settled.value.0;
          Ok((AddTransaction(db2, TradeRow(q, holdingId, code, Confirmed, feePercent, settled.value.1, navDate, settled.value.2)), db2.nextTransactionId))
  }

  /** The state after `_create_transaction_record` and the new transaction's key, or the error it raises. */
  ghost function CreateOutcome(db: Db, q: TradeRequest, env: Env): Result<(Db, nat), Error>
    requires ResolvesNavDate(env.calendar, q.tradeDate, q.isAfterCutoff)
  {
    if q.accountId !in db.accounts then Err(FundAccountNotFound(q.accountId))
    else
      var feePercent := ResolveFeePercent(q.feePercent, q.tradeType, db.accounts[q.accountId].defaultBuyFeePercent);
      var code := Strip(q.fundCode);
      var resolved := ResolveHolding(db, q.accountId, code, q.tradeType);
      if resolved.Err? then Err(resolved.error)
      else RecordOutcome(resolved.value.0, resolved.value.1, q, code, feePercent, env)
  }

  /**
   * The second half of `_create_transaction_record`, once the holding is
   * known: reject a non-positive share base, date the trade, settle it now
   * if its NAV date has come, and store the row.
   */
  method RecordAgainstHolding(s: Session, holdingId: nat, q: TradeRequest, code: string, feePercent: real, env: Env)
    returns (r: Result<nat, Error>)
    requires holdingId in s.db.holdings
    requires ResolvesNavDate(env.calendar, q.tradeDate, q.isAfterCutoff)
    modifies s
    ensures RecordOutcome(old(s.db), holdingId, q, code, feePercent, env) == if r.Ok? then Ok((s.db, r.value)) else Err(r.error)
    ensures s.committed == old(s.committed)
  {
    var feeAmount := FeeAmount(q.amount, feePercent);
    var base := q.amount - feeAmount;
    if base <= 0.0 {
      return Err(NonPositiveShareBase);
    }

    var navDate := ResolveConfirmedNavDate(env.calendar, q.tradeDate, q.isAfterCutoff);
    var status := ResolveTradeStatus(navDate, env.today);

    var nav := 0.0;
    var shares := 0.0;
    if status == Confirmed {
      var settled := ConfirmAgainstHolding(s, holdingId, code, navDate, q.tradeType, q.amount, base, env);
      if settled.Err? {
        return Err(settled.error);
      }
      nav, shares := settled.value.0, settled.value.1;
    }

    var id := s.db.nextTransactionId;
    s.db := AddTransaction(s.db, TradeRow(q, holdingId, code, status, feePercent, nav, navDate, shares));
    return Ok(id);
  }

  /**
   * `_create_transaction_record`: check the account, resolve the fee
   * percent, find or create the holding, record the trade against it, and
   * commit when asked to.
   */
  method CreateTransactionRecord(s: Session, q: TradeRequest, env: Env, commit: bool) returns (r: Result<nat, Error>)
    requires ResolvesNavDate(env.calendar, q.tradeDate, q.isAfterCutoff)
    modifies s
    ensures CreateOutcome(old(s.db), q, env) == if r.Ok? then Ok((s.db, r.value)) else Err(r.error)
    ensures s.committed == if r.Ok? && commit then s.db else old(s.committed)
  {
    if q.accountId !in s.db.accounts {
      return Err(FundAccountNotFound(q.accountId));
    }
    var account := s.db.accounts[q.accountId];
    var resolvedFee := q.feePercent;
    if resolvedFee.None? && q.tradeType == Buy {
      resolvedFee := Some(account.defaultBuyFeePercent);
    }
    var feePercent := resolvedFee.GetOr(0.0);

    var code := Strip(q.fundCode);
    var found := FindHolding(s.db, q.accountId, code);
    if found.None? && q.tradeType == Sell {
      return Err(FundHoldingNotFound(code));
    }
    var holdingId: nat;
    if found.None? {
      holdingId := s.db.nextHoldingId;
      s.db := AddHolding(s.db, FundHolding(q.accountId, code));
    } else {
      holdingId := found.value;
    }
    assert Ok((s.db, holdingId)) == ResolveHolding(old(s.db), q.accountId, code, q.tradeType);

    r := RecordAgainstHolding(s, holdingId, q, code, feePercent, env);
    if r.Ok? && commit {
      s.Commit();
    }
  }

  /**
   * `create_transaction`: record with commit. The request's session is
   * closed afterwards, which discards whatever a failed attempt left
   * uncommitted; that close is the `Rollback` here.
   */
  method CreateTransaction(s: Session, q: TradeRequest, env: Env) returns (r: Result<nat, Error>)
    requires s.db == s.committed
    requires ResolvesNavDate(env.calendar, q.tradeDate, q.isAfterCutoff)
    modifies s
    ensures r.Ok? ==> CreateOutcome(old(s.db), q, env) == Ok((s.db, r.value)) && s.committed == s.db
    ensures r.Err? ==> CreateOutcome(old(s.db), q, env) == Err(r.error) && s.db == old(s.db) && s.committed == old(s.committed)
  {
    r := CreateTransactionRecord(s, q, env, true);
    if r.Err? {
      s.Rollback();
    }
  }

  /*
   * Properties of trade recording.
   */

  predicate AllNonNegative(db: Db) {
    forall id | id in db.holdings :: NonNegative(db.holdings[id])
  }

  /** A sell with no holding for the (account, stripped code) pair fails before anything is written. */
  lemma SellWithoutHoldingFails(db: Db, q: TradeRequest, env: Env)
    requires ResolvesNavDate(env.calendar, q.tradeDate, q.isAfterCutoff)
    requires q.accountId in db.accounts && q.tradeType == Sell
    requires FindHolding(db, q.accountId, Strip(q.fundCode)).None?
    ensures CreateOutcome(db, q, env) == Err(FundHoldingNotFound(Strip(q.fundCode)))
  {
  }

  /**
   * A share base of zero or less is rejected before the NAV date is used:
   * the outcome is the same whatever today, the calendar and the NAV lookup say.
   */
  lemma ShareBaseCheckedBeforeNav(db: Db, q: TradeRequest, env: Env)
    requires ResolvesNavDate(env.calendar, q.tradeDate, q.isAfterCutoff)
    requires q.accountId in db.accounts
    requires q.tradeType == Buy || FindHolding(db, q.accountId, Strip(q.fundCode)).Some?
    requires ShareBase(q.amount, ResolveFeePercent(q.feePercent, q.tradeType, db.accounts[q.accountId].defaultBuyFeePercent)) <= 0.0
    ensures CreateOutcome(db, q, env) == Err(NonPositiveShareBase)
  {
    var resolved := ResolveHolding(db, q.accountId, Strip(q.fundCode), q.tradeType);
    assert resolved.Ok?;
  }

  /**
   * Recording a trade adds exactly one transaction, under the next key, and
   * touches neither the accounts nor the conversions.
   */
  lemma CreateAddsOneRow(db: Db, q: TradeRequest, env: Env)
    requires ResolvesNavDate(env.calendar, q.tradeDate, q.isAfterCutoff)
    requires CreateOutcome(db, q, env).Ok?
    ensures var o := CreateOutcome(db, q, env).value;
      o.1 == db.nextTransactionId && o.0.nextTransactionId == db.nextTransactionId + 1 &&
      o.0.transactions == db.transactions[o.1 := o.0.transactions[o.1]] &&
      o.0.accounts == db.accounts && o.0.conversions == db.conversions &&
      o.0.nextAccountId == db.nextAccountId && o.0.nextConversionId == db.nextConversionId
  {
    var code := Strip(q.fundCode);
    var resolved := ResolveHolding(db, q.accountId, code, q.tradeType);
    assert resolved.Ok?;
  }

  /**
   * The stored row: NAV date by the settlement rule, status pending exactly
   * when that date is after today, the trade time of the cutoff flag, the
   * resolved fee percent (never absent) and its fee amount, and the holding it
   * belongs to.
   */
  lemma RecordedRow(db: Db, q: TradeRequest, env: Env)
    requires ResolvesNavDate(env.calendar, q.tradeDate, q.isAfterCutoff)
    requires CreateOutcome(db, q, env).Ok?
    ensures q.accountId in db.accounts
    ensures var o := CreateOutcome(db, q, env).value; var db', id := o.0, o.1;
      var feePercent := ResolveFeePercent(q.feePercent, q.tradeType, db.accounts[q.accountId].defaultBuyFeePercent);
      var navDate := ConfirmedNavDate(env.calendar, q.tradeDate, q.isAfterCutoff);
      id == db.nextTransactionId && id in db'.transactions &&
      var row := db'.transactions[id];
      row.confirmedNavDate == navDate &&
      (row.status == Pending <==> navDate > env.today) &&
      (row.status == Confirmed <==> navDate <= env.today) &&
      row.tradeTime == ResolveTradeTime(q.tradeDate, q.isAfterCutoff) &&
      row.feePercent == feePercent && row.feeAmount == FeeAmount(q.amount, feePercent) &&
      row.accountId == q.accountId && row.tradeType == q.tradeType && row.amount == q.amount &&
      row.fundCode == Strip(q.fundCode) && row.conversionId == q.conversionId &&
      row.holdingId.Some? && row.holdingId.value in db'.holdings &&
      db'.holdings[row.holdingId.value].accountId == q.accountId &&
      db'.holdings[row.holdingId.value].fundCode == Strip(q.fundCode)
  {
    var code := Strip(q.fundCode);
    var resolved := ResolveHolding(db, q.accountId, code, q.tradeType);
    assert resolved.Ok?;
  }

  /** A pending trade stores NAV 0 and shares 0 and leaves every existing holding as it was. */
  lemma PendingTradeLeavesHoldings(db: Db, q: TradeRequest, env: Env)
    requires KeysBelowCounters(db)
    requires ResolvesNavDate(env.calendar, q.tradeDate, q.isAfterCutoff)
    requires CreateOutcome(db, q, env).Ok?
    requires ConfirmedNavDate(env.calendar, q.tradeDate, q.isAfterCutoff) > env.today
    ensures var o := CreateOutcome(db, q, env).value; var db', id := o.0, o.1;
      id in db'.transactions &&
      db'.transactions[id].status == Pending &&
      db'.transactions[id].confirmedNav == 0.0 && db'.transactions[id].shares == 0.0 &&
      forall hid | hid in db.holdings :: hid in db'.holdings && db'.holdings[hid] == db.holdings[hid]
  {
  }

  /**
   * A pending sell is checked only for the holding's existence: with a
   * holding and a positive share base it is recorded whatever the holding's
   * balance.
   */
  lemma PendingSellSkipsBalanceCheck(db: Db, q: TradeRequest, env: Env)
    requires ResolvesNavDate(env.calendar, q.tradeDate, q.isAfterCutoff)
    requires q.accountId in db.accounts && q.tradeType == Sell
    requires FindHolding(db, q.accountId, Strip(q.fundCode)).Some?
    requires ShareBase(q.amount, ResolveFeePercent(q.feePercent, Sell, db.accounts[q.accountId].defaultBuyFeePercent)) > 0.0
    requires ConfirmedNavDate(env.calendar, q.tradeDate, q.isAfterCutoff) > env.today
    ensures CreateOutcome(db, q, env).Ok?
  {
  }

  /**
   * A confirmed trade is priced at a positive NAV, its shares are the share
   * base over that NAV, and its holding moves by the full amount and those
   * shares; a confirmed sell had at least the amount and the shares to give.
   */
  lemma ConfirmedTradeMovesHolding(db: Db, q: TradeRequest, env: Env)
    requires KeysBelowCounters(db)
    requires ResolvesNavDate(env.calendar, q.tradeDate, q.isAfterCutoff)
    requires CreateOutcome(db, q, env).Ok?
    requires ConfirmedNavDate(env.calendar, q.tradeDate, q.isAfterCutoff) <= env.today
    ensures q.accountId in db.accounts
    ensures var o := CreateOutcome(db, q, env).value; var db', id := o.0, o.1;
      var feePercent := ResolveFeePercent(q.feePercent, q.tradeType, db.accounts[q.accountId].defaultBuyFeePercent);
      id in db'.transactions && db'.transactions[id].holdingId.Some? &&
      var row := db'.transactions[id];
      var hid := row.holdingId.value;
      var before := if hid in db.holdings then db.holdings[hid] else FundHolding(q.accountId, Strip(q.fundCode));
      row.status == Confirmed && row.confirmedNav > 0.0 &&
      env.nav(row.fundCode, row.confirmedNavDate) == Some(row.confirmedNav) &&
      row.shares * row.confirmedNav == ShareBase(q.amount, feePercent) &&
      hid in db'.holdings && db'.holdings[hid] == ApplyDelta(before, q.tradeType, q.amount, row.shares) &&
      (q.tradeType == Sell ==> before.totalAmount >= q.amount && before.totalShares >= row.shares)
  {
    var code := Strip(q.fundCode);
    var feePercent := ResolveFeePercent(q.feePercent, q.tradeType, db.accounts[q.accountId].defaultBuyFeePercent);
    var resolved := ResolveHolding(db, q.accountId, code, q.tradeType);
    ResolvedHoldingStart(db, q.accountId, code, q.tradeType);
    var db1, hid := resolved.value.0, resolved.value.1;
    var navDate := ConfirmedNavDate(env.calendar, q.tradeDate, q.isAfterCutoff);
    var base := ShareBase(q.amount, feePercent);
    var settled := ConfirmOutcome(db1, hid, code, navDate, q.tradeType, q.amount, base, env);
    assert settled.Ok?;
    ConfirmMovesHolding(db1, hid, code, navDate, q.tradeType, q.amount, base, env);
    var row := TradeRow(q, hid, code, Confirmed, feePercent, settled.value.1, navDate, settled.value.2);
    assert CreateOutcome(db, q, env).value == (AddTransaction(settled.value.0, row), db.nextTransactionId);
  }

  /** The holding a trade resolves to starts from the pair's holding, or from an empty one at the next key. */
  lemma ResolvedHoldingStart(db: Db, accountId: nat, code: string, tradeType: TradeType)
    requires KeysBelowCounters(db)
    requires ResolveHolding(db, accountId, code, tradeType).Ok?
    ensures var r := ResolveHolding(db, accountId, code, tradeType).value;
      r.0.holdings[r.1] == (if r.1 in db.holdings then db.holdings[r.1] else FundHolding(accountId, code))
  {
  }

  /**
   * Settling against a holding prices the trade at the positive NAV the
   * lookup gives, derives the shares from the share base, and moves only
   * that holding; a sell had the amount and the shares to give.
   */
  lemma ConfirmMovesHolding(db: Db, holdingId: nat, code: string, navDate: Day, tradeType: TradeType,
                            amount: real, shareBase: real, env: Env)
    requires holdingId in db.holdings
    requires ConfirmOutcome(db, holdingId, code, navDate, tradeType, amount, shareBase, env).Ok?
    ensures var o := ConfirmOutcome(db, holdingId, code, navDate, tradeType, amount, shareBase, env).value;
      var h := db.holdings[holdingId];
      env.nav(code, navDate) == Some(o.1) && o.1 > 0.0 && o.2 * o.1 == shareBase &&
      o.0 == db.(holdings := db.holdings[holdingId := ApplyDelta(h, tradeType, amount, o.2)]) &&
      (tradeType == Sell ==> h.totalAmount >= amount && h.totalShares >= o.2)
  {
  }

  /** A confirmed sell larger than the holding's amount is rejected before the holding is touched. */
  lemma OversizedSellRejected(db: Db, q: TradeRequest, env: Env, holdingId: nat)
    requires ResolvesNavDate(env.calendar, q.tradeDate, q.isAfterCutoff)
    requires q.accountId in db.accounts && q.tradeType == Sell
    requires FindHolding(db, q.accountId, Strip(q.fundCode)) == Some(holdingId)
    requires ShareBase(q.amount, ResolveFeePercent(q.feePercent, Sell, db.accounts[q.accountId].defaultBuyFeePercent)) > 0.0
    requires ConfirmedNavDate(env.calendar, q.tradeDate, q.isAfterCutoff) <= env.today
    requires env.nav(Strip(q.fundCode), ConfirmedNavDate(env.calendar, q.tradeDate, q.isAfterCutoff)).Some?
    requires env.nav(Strip(q.fundCode), ConfirmedNavDate(env.calendar, q.tradeDate, q.isAfterCutoff)).value > 0.0
    requires db.holdings[holdingId].totalAmount < q.amount
    ensures CreateOutcome(db, q, env) == Err(SellExceedsAmount)
  {
  }

  /** A buy with no holding for the pair opens one at the next key, starting from zero. */
  lemma BuyOpensHolding(db: Db, q: TradeRequest, env: Env)
    requires ResolvesNavDate(env.calendar, q.tradeDate, q.isAfterCutoff)
    requires KeysBelowCounters(db)
    requires q.tradeType == Buy && CreateOutcome(db, q, env).Ok?
    requires FindHolding(db, q.accountId, Strip(q.fundCode)).None?
    ensures var o := CreateOutcome(db, q, env).value; var db', id := o.0, o.1;
      var hid := db.nextHoldingId;
      hid !in db.holdings && hid in db'.holdings &&
      id in db'.transactions && db'.transactions[id].holdingId == Some(hid) &&
      var row := db'.transactions[id];
      db'.holdings[hid].accountId == q.accountId && db'.holdings[hid].fundCode == Strip(q.fundCode) &&
      (row.status == Pending ==> db'.holdings[hid].totalAmount == 0.0 && db'.holdings[hid].totalShares == 0.0) &&
      (row.status == Confirmed ==> db'.holdings[hid].totalAmount == q.amount && db'.holdings[hid].totalShares == row.shares)
  {
    var code := Strip(q.fundCode);
    var feePercent := ResolveFeePercent(q.feePercent, q.tradeType, db.accounts[q.accountId].defaultBuyFeePercent);
    var resolved := ResolveHolding(db, q.accountId, code, q.tradeType);
    var db1, hid := resolved.value.0, resolved.value.1;
    assert db1 == AddHolding(db, FundHolding(q.accountId, code)) && hid == db.nextHoldingId;
    var navDate := ConfirmedNavDate(env.calendar, q.tradeDate, q.isAfterCutoff);
    var base := ShareBase(q.amount, feePercent);
    if navDate <= env.today {
      var settled := ConfirmOutcome(db1, hid, code, navDate, q.tradeType, q.amount, base, env);
      assert settled.Ok?;
      ConfirmMovesHolding(db1, hid, code, navDate, q.tradeType, q.amount, base, env);
      var row := TradeRow(q, hid, code, Confirmed, feePercent, settled.value.1, navDate, settled.value.2);
      assert CreateOutcome(db, q, env).value == (AddTransaction(settled.value.0, row), db.nextTransactionId);
    } else {
      var row := TradeRow(q, hid, code, Pending, feePercent, 0.0, navDate, 0.0);
      assert CreateOutcome(db, q, env).value == (AddTransaction(db1, row), db.nextTransactionId);
    }
  }

  /**
   * Recording a trade keeps the database well formed (keys below the
   * counters, one holding per pair) and keeps every balance non-negative.
   */
  lemma CreateKeepsInvariants(db: Db, q: TradeRequest, env: Env)
    requires ResolvesNavDate(env.calendar, q.tradeDate, q.isAfterCutoff)
    requires WellFormed(db) && AllNonNegative(db)
    requires CreateOutcome(db, q, env).Ok?
    ensures WellFormed(CreateOutcome(db, q, env).value.0)
    ensures AllNonNegative(CreateOutcome(db, q, env).value.0)
  {
    var code := Strip(q.fundCode);
    var feePercent := ResolveFeePercent(q.feePercent, q.tradeType, db.accounts[q.accountId].defaultBuyFeePercent);
    var (db1, holdingId) := ResolveHolding(db, q.accountId, code, q.tradeType).value;
    ResolveHoldingKeepsInvariants(db, q.accountId, code, q.tradeType);
    var base := ShareBase(q.amount, feePercent);
    var navDate := ConfirmedNavDate(env.calendar, q.tradeDate, q.isAfterCutoff);
    var status := ResolveTradeStatus(navDate, env.today);
    var db2 := db1;
    if status == Confirmed {
      ConfirmKeepsInvariants(db1, holdingId, code, navDate, q.tradeType, q.amount, base, env);
      db2 := ConfirmOutcome(db1, holdingId, code, navDate, q.tradeType, q.amount, base, env).value.0;
    }
    assert CreateOutcome(db, q, env).value.0.holdings == db2.holdings;
    assert CreateOutcome(db, q, env).value.0 == AddTransaction(db2, CreateOutcome(db, q, env).value.0.transactions[db2.nextTransactionId]);
  }

  lemma ResolveHoldingKeepsInvariants(db: Db, accountId: nat, code: string, tradeType: TradeType)
    requires WellFormed(db) && AllNonNegative(db)
    requires ResolveHolding(db, accountId, code, tradeType).Ok?
    ensures var (db1, hid) := ResolveHolding(db, accountId, code, tradeType).value;
      WellFormed(db1) && AllNonNegative(db1) && db1.transactions == db.transactions &&
      db1.nextTransactionId == db.nextTransactionId &&
      HoldingMatches(db1.holdings, hid, accountId, code) &&
      (hid in db.holdings ==> db1 == db) &&
      (hid !in db.holdings ==> hid == db.nextHoldingId && db1 == AddHolding(db, FundHolding(accountId, code)))
  {
    FindHoldingExact(db, accountId, code);
    if FindHolding(db, accountId, code).None? {
      var n := db.nextHoldingId;
      var holdings := AddHolding(db, FundHolding(accountId, code)).holdings;
      forall i, j | i in holdings && j in holdings &&
          holdings[i].accountId == holdings[j].accountId && holdings[i].fundCode == holdings[j].fundCode
        ensures i == j
      {
        if i != n && j != n {
          assert holdings[i] == db.holdings[i] && holdings[j] == db.holdings[j];
        } else if i != n {
          assert !HoldingMatches(db.holdings, i, accountId, code);
        } else if j != n {
          assert !HoldingMatches(db.holdings, j, accountId, code);
        }
      }
    }
  }

  lemma ConfirmKeepsInvariants(db: Db, holdingId: nat, code: string, navDate: Day, tradeType: TradeType,
                               amount: real, shareBase: real, env: Env)
    requires holdingId in db.holdings
    requires WellFormed(db) && AllNonNegative(db)
    requires ConfirmOutcome(db, holdingId, code, navDate, tradeType, amount, shareBase, env).Ok?
    ensures var db' := ConfirmOutcome(db, holdingId, code, navDate, tradeType, amount, shareBase, env).value.0;
      WellFormed(db') && AllNonNegative(db') &&
      db'.transactions == db.transactions && db'.nextTransactionId == db.nextTransactionId &&
      db'.holdings.Keys == db.holdings.Keys
  {
  }

  /*
   * The confirmation sweep (`confirm_pending_transactions`).
   */

  /** A pending row whose NAV date has come. */
  predicate Matured(t: FundTransaction, today: Day) {
    t.status == Pending && t.confirmedNavDate <= today
  }

  /** The rows the sweep's query selects. */
  function MaturedIds(db: Db, today: Day): set<nat> {
    set id | id in db.transactions && Matured(db.transactions[id], today)
  }

  /** The selected rows with keys below `i`. */
  function MaturedBelow(db: Db, today: Day, i: nat): set<nat> {
    set id | id in db.transactions && id < i && Matured(db.transactions[id], today)
  }

  /**
   * The holding a matured row settles against: the one it references, else
   * the pair's, else a new empty one, which the row is then pointed at.
   */
  ghost function SweepHolding(db: Db, id: nat): (r: (Db, nat))
    requires id in db.transactions
    ensures r.1 in r.0.holdings
    ensures r.0.transactions.Keys == db.transactions.Keys && r.0.nextTransactionId == db.nextTransactionId
    ensures forall j | j in db.transactions && j != id :: r.0.transactions[j] == db.transactions[j]
    ensures r.0.transactions[id] == db.transactions[id].(holdingId := r.0.transactions[id].holdingId)
    ensures r.0.accounts == db.accounts && r.0.conversions == db.conversions
    ensures var t := db.transactions[id];
      t.holdingId.Some? && t.holdingId.value in db.holdings ==> r == (db, t.holdingId.value)
    ensures var t := db.transactions[id];
      !(t.holdingId.Some? && t.holdingId.value in db.holdings) && FindHolding(db, t.accountId, t.fundCode).Some? ==>
        r == (db, FindHolding(db, t.accountId, t.fundCode).value) && HoldingMatches(db.holdings, r.1, t.accountId, t.fundCode)
    ensures var t := db.transactions[id];
      !(t.holdingId.Some? && t.holdingId.value in db.holdings) && FindHolding(db, t.accountId, t.fundCode).None? ==>
        r.1 == db.nextHoldingId && r.0.nextHoldingId == db.nextHoldingId + 1 &&
        r.0.holdings == db.holdings[r.1 := FundHolding(t.accountId, t.fundCode)] &&
        r.0.transactions[id].holdingId == Some(r.1)
  {
    var t := db.transactions[id];
    if t.holdingId.Some? && t.holdingId.value in db.holdings then (db, t.holdingId.value)
    else
      match FindHolding(db, t.accountId, t.fundCode)
      case Some(hid) => (db, hid)
      case None =>
        var hid := db.nextHoldingId;
        (AddHolding(db, FundHolding(t.accountId, t.fundCode)).(transactions := db.transactions[id := t.(holdingId := Some(hid))]), hid)
  }

  /**
   * Row `t` is row `t0` settled: confirmed at a positive NAV with the shares
   * its share base buys, and otherwise unchanged but for the holding link a
   * newly opened holding gives it.
   */
  predicate Settled(t0: FundTransaction, t: FundTransaction) {
    t.status == Confirmed && t.confirmedNav > 0.0 &&
    t.shares * t.confirmedNav == ShareBase(t0.amount, t0.feePercent) &&
    t == t0.(holdingId := t.holdingId, confirmedNav := t.confirmedNav, shares := t.shares, status := Confirmed)
  }

  /** One pass of the sweep's loop body over row `id`. */
  ghost function SettleRow(db: Db, id: nat, env: Env): (r: Result<Db, Error>)
    requires id in db.transactions
    ensures r.Ok? ==> r.value.transactions.Keys == db.transactions.Keys && r.value.nextTransactionId == db.nextTransactionId
    ensures r.Ok? ==> forall j | j in db.transactions && j != id :: r.value.transactions[j] == db.transactions[j]
    ensures r.Ok? ==> Settled(db.transactions[id], r.value.transactions[id])
    ensures r.Ok? ==> var resolved := SweepHolding(db, id); var hid := resolved.1; var t := db.transactions[id];
      r.value.holdings == resolved.0.holdings[hid := ApplyDelta(resolved.0.holdings[hid], t.tradeType, t.amount, r.value.transactions[id].shares)] &&
      r.value.accounts == db.accounts && r.value.conversions == db.conversions
  {
    var resolved := SweepHolding(db, id);
    var db1, hid := resolved.0, resolved.1;
    var t := db1.transactions[id];
    var base := ShareBase(t.amount, t.feePercent);
    if base <= 0.0 then Err(NonPositiveShareBase)
    else
      var settled := ConfirmOutcome(db1, hid, t.fundCode, t.confirmedNavDate, t.tradeType, t.amount, base, env);
      if settled.Err? then Err(settled.error)
      else
        ConfirmMovesHolding(db1, hid, t.fundCode, t.confirmedNavDate, t.tradeType, t.amount, base, env);
        var db2 := settled.value.0;
        Ok(db2.(transactions := db2.transactions[id := t.(confirmedNav := settled.value.1, shares := settled.value.2, status := Confirmed)]))
  }

  /**
   * The state and the settled count once the sweep has visited every key
   * below `i` in ascending order, or the first error. Which rows are
   * visited is decided on the starting state `db0`, as the source selects
   * them with one query before the loop.
   */
  ghost function SweepUpTo(db0: Db, env: Env, i: nat): (r: Result<(Db, nat), Error>)
    ensures r.Ok? ==> r.value.0.transactions.Keys == db0.transactions.Keys
    ensures r.Ok? ==> r.value.0.nextTransactionId == db0.nextTransactionId
    ensures r.Ok? ==> forall j | j in db0.transactions && (j >= i || !Matured(db0.transactions[j], env.today)) ::
      r.value.0.transactions[j] == db0.transactions[j]
    decreases i, 0
  {
    if i == 0 then Ok((db0, 0)) else SweepVisit(db0, env, i - 1)
  }

  /** The sweep's state and count after settling one more row, or that row's error. */
  function CountSettled(settled: Result<Db, Error>, n: nat): Result<(Db, nat), Error> {
    if settled.Err? then Err(settled.error) else Ok((settled.value, n + 1))
  }

  /** The sweep's visit of key `i`, after the keys below it. */
  ghost function SweepVisit(db0: Db, env: Env, i: nat): (r: Result<(Db, nat), Error>)
    ensures r.Ok? ==> r.value.0.transactions.Keys == db0.transactions.Keys
    ensures r.Ok? ==> r.value.0.nextTransactionId == db0.nextTransactionId
    ensures r.Ok? ==> forall j | j in db0.transactions && (j >= i + 1 || !Matured(db0.transactions[j], env.today)) ::
      r.value.0.transactions[j] == db0.transactions[j]
    decreases i, 2
  {
    var prev := SweepUpTo(db0, env, i);
    if prev.Err? then prev
    else if i in db0.transactions && Matured(db0.transactions[i], env.today) then SweepSettle(db0, env, i)
    else prev
  }

  /** The visit of a selected key `i`: its row is settled against the state the keys below it left. */
  ghost function SweepSettle(db0: Db, env: Env, i: nat): (r: Result<(Db, nat), Error>)
    requires i in db0.transactions && Matured(db0.transactions[i], env.today)
    requires SweepUpTo(db0, env, i).Ok?
    ensures r.Ok? ==> r.value.0.transactions.Keys == db0.transactions.Keys
    ensures r.Ok? ==> r.value.0.nextTransactionId == db0.nextTransactionId
    ensures r.Ok? ==> forall j | j in db0.transactions && (j >= i + 1 || !Matured(db0.transactions[j], env.today)) ::
      r.value.0.transactions[j] == db0.transactions[j]
    decreases i, 1
  {
    var prev := SweepUpTo(db0, env, i).value;
    CountSettled(SettleRow(prev.0, i, env), prev.1)
  }

  ghost function SweepOutcome(db: Db, env: Env): Result<(Db, nat), Error> {
    SweepUpTo(db, env, db.nextTransactionId)
  }

  /** Once the sweep has failed, later rows do not change the outcome. */
  lemma {:induction false} SweepErrorSticks(db0: Db, env: Env, i: nat, n: nat)
    requires i <= n && SweepUpTo(db0, env, i).Err?
    ensures SweepUpTo(db0, env, n) == SweepUpTo(db0, env, i)
    decreases n - i
  {
    if i < n {
      SweepErrorSticks(db0, env, i, n - 1);
    }
  }

  /** With nothing selected below `i`, the sweep changes nothing and counts nothing. */
  lemma {:induction false} SweepWithoutMatured(db0: Db, env: Env, i: nat)
    requires MaturedBelow(db0, env.today, i) == {}
    ensures SweepUpTo(db0, env, i) == Ok((db0, 0))
  {
    if i > 0 {
      assert MaturedBelow(db0, env.today, i - 1) <= MaturedBelow(db0, env.today, i);
      SweepWithoutMatured(db0, env, i - 1);
      assert i - 1 !in MaturedBelow(db0, env.today, i);
    }
  }

  lemma NothingMaturedSweepsNothing(db0: Db, env: Env)
    requires MaturedIds(db0, env.today) == {}
    ensures SweepOutcome(db0, env) == Ok((db0, 0))
  {
    assert MaturedBelow(db0, env.today, db0.nextTransactionId) <= MaturedIds(db0, env.today);
    SweepWithoutMatured(db0, env, db0.nextTransactionId);
  }

  /** A selected row is settled against the state the sweep has reached. */
  lemma SweepSettleStep(db0: Db, env: Env, i: nat, db: Db, n: nat)
    requires SweepUpTo(db0, env, i) == Ok((db, n))
    requires i in db0.transactions && Matured(db0.transactions[i], env.today)
    ensures i in db.transactions
    ensures SweepUpTo(db0, env, i + 1) == CountSettled(SettleRow(db, i, env), n)
  {
    assert SweepUpTo(db0, env, i + 1) == SweepVisit(db0, env, i) == SweepSettle(db0, env, i);
  }

  /** Any other row is skipped. */
  lemma SweepSkipStep(db0: Db, env: Env, i: nat, db: Db, n: nat)
    requires SweepUpTo(db0, env, i) == Ok((db, n))
    requires !(i in db0.transactions && Matured(db0.transactions[i], env.today))
    ensures SweepUpTo(db0, env, i + 1) == Ok((db, n))
  {
  }

  /** Settling a selected row adds one to the count. */
  lemma SweepSettledCount(db0: Db, env: Env, i: nat, db: Db, n: nat)
    requires SweepUpTo(db0, env, i) == Ok((db, n))
    requires i in db0.transactions && Matured(db0.transactions[i], env.today)
    requires SweepUpTo(db0, env, i + 1).Ok?
    ensures SweepUpTo(db0, env, i + 1).value.1 == n + 1
  {
    SweepSettleStep(db0, env, i, db, n);
  }

  /** Settling a selected row settles that row and leaves the others as they were. */
  lemma SweepSettledRow(db0: Db, env: Env, i: nat, db: Db, n: nat)
    requires SweepUpTo(db0, env, i) == Ok((db, n))
    requires i in db0.transactions && Matured(db0.transactions[i], env.today)
    requires SweepUpTo(db0, env, i + 1).Ok?
    ensures i in db.transactions
    ensures var next := SweepUpTo(db0, env, i + 1).value.0;
      Settled(db.transactions[i], next.transactions[i]) &&
      forall j | j in db.transactions && j != i :: next.transactions[j] == db.transactions[j]
  {
    SweepSettleStep(db0, env, i, db, n);
  }

  /**
   * Settling row `i` moves exactly one holding, the one `SweepHolding` picks
   * for it (created empty if the row has none), by the row's amount and the
   * shares it was confirmed with; every other holding is left as it was.
   */
  lemma SweepSettledHolding(db0: Db, env: Env, i: nat, db: Db, n: nat)
    requires SweepUpTo(db0, env, i) == Ok((db, n))
    requires i in db0.transactions && Matured(db0.transactions[i], env.today)
    requires SweepUpTo(db0, env, i + 1).Ok?
    ensures i in db.transactions
    ensures var resolved := SweepHolding(db, i); var hid := resolved.1; var t := db.transactions[i];
      var next := SweepUpTo(db0, env, i + 1).value.0;
      next.holdings == resolved.0.holdings[hid := ApplyDelta(resolved.0.holdings[hid], t.tradeType, t.amount, next.transactions[i].shares)] &&
      next.accounts == db.accounts && next.conversions == db.conversions
  {
    SweepSettleStep(db0, env, i, db, n);
  }

  /** Settling a selected row keeps the invariants. */
  lemma SweepSettledInvariants(db0: Db, env: Env, i: nat, db: Db, n: nat)
    requires SweepUpTo(db0, env, i) == Ok((db, n))
    requires i in db0.transactions && Matured(db0.transactions[i], env.today)
    requires SweepUpTo(db0, env, i + 1).Ok?
    requires WellFormed(db) && AllNonNegative(db)
    ensures WellFormed(SweepUpTo(db0, env, i + 1).value.0) && AllNonNegative(SweepUpTo(db0, env, i + 1).value.0)
  {
    SweepSettleStep(db0, env, i, db, n);
    SettleRowKeepsInvariants(db, i, env);
  }

  /** The selected keys below `i + 1`. */
  lemma MaturedBelowNext(db0: Db, today: Day, i: nat)
    ensures MaturedBelow(db0, today, i + 1) ==
      if i in db0.transactions && Matured(db0.transactions[i], today) then MaturedBelow(db0, today, i) + {i}
      else MaturedBelow(db0, today, i)
    ensures i !in MaturedBelow(db0, today, i)
  {
  }

  /** The count is the number of selected rows below `i`. */
  lemma {:induction false} SweepCountsMatured(db0: Db, env: Env, i: nat)
    requires SweepUpTo(db0, env, i).Ok?
    ensures SweepUpTo(db0, env, i).value.1 == |MaturedBelow(db0, env.today, i)|
    decreases i
  {
    if i > 0 {
      SweepPrefixOk(db0, env, i);
      var prev := SweepUpTo(db0, env, i - 1).value;
      SweepCountsMatured(db0, env, i - 1);
      MaturedBelowNext(db0, env.today, i - 1);
      if i - 1 in db0.transactions && Matured(db0.transactions[i - 1], env.today) {
        SweepSettledCount(db0, env, i - 1, prev.0, prev.1);
      } else {
        SweepSkipStep(db0, env, i - 1, prev.0, prev.1);
      }
    }
  }

  /** A sweep that gets past key `i - 1` got past every key before it. */
  lemma SweepPrefixOk(db0: Db, env: Env, i: nat)
    requires i > 0 && SweepUpTo(db0, env, i).Ok?
    ensures SweepUpTo(db0, env, i - 1).Ok?
  {
    assert SweepUpTo(db0, env, i) == SweepVisit(db0, env, i - 1);
  }

  /** A selected row `j` below `i` has been settled from its starting state. */
  lemma {:induction false} SweepSettlesMatured(db0: Db, env: Env, i: nat, j: nat)
    requires SweepUpTo(db0, env, i).Ok?
    requires j in MaturedBelow(db0, env.today, i)
    ensures Settled(db0.transactions[j], SweepUpTo(db0, env, i).value.0.transactions[j])
    decreases i
  {
    SweepPrefixOk(db0, env, i);
    var prev := SweepUpTo(db0, env, i - 1).value;
    if j == i - 1 {
      SweepSettledRow(db0, env, i - 1, prev.0, prev.1);
    } else {
      assert j in MaturedBelow(db0, env.today, i - 1);
      SweepSettlesMatured(db0, env, i - 1, j);
      if i - 1 in db0.transactions && Matured(db0.transactions[i - 1], env.today) {
        SweepSettledRow(db0, env, i - 1, prev.0, prev.1);
      } else {
        SweepSkipStep(db0, env, i - 1, prev.0, prev.1);
      }
    }
  }

  /**
   * A sweep that succeeds settles exactly the selected rows: it counts
   * them, confirms each at a positive NAV with the shares of its share
   * base, and leaves every other row as it was.
   */
  lemma SweepSettlesSelected(db0: Db, env: Env)
    requires KeysBelowCounters(db0)
    requires SweepOutcome(db0, env).Ok?
    ensures var o := SweepOutcome(db0, env).value;
      o.1 == |MaturedIds(db0, env.today)| &&
      o.0.transactions.Keys == db0.transactions.Keys &&
      (forall id | id in MaturedIds(db0, env.today) :: Settled(db0.transactions[id], o.0.transactions[id])) &&
      (forall id | id in db0.transactions && id !in MaturedIds(db0, env.today) :: o.0.transactions[id] == db0.transactions[id])
  {
    assert MaturedBelow(db0, env.today, db0.nextTransactionId) == MaturedIds(db0, env.today);
    SweepCountsMatured(db0, env, db0.nextTransactionId);
    forall id | id in MaturedIds(db0, env.today)
      ensures Settled(db0.transactions[id], SweepOutcome(db0, env).value.0.transactions[id])
    {
      SweepSettlesMatured(db0, env, db0.nextTransactionId, id);
    }
  }

  /** Sweeping again right after a successful sweep finds nothing to do. */
  lemma SweepIdempotent(db0: Db, env: Env)
    requires KeysBelowCounters(db0)
    requires SweepOutcome(db0, env).Ok?
    ensures var db1 := SweepOutcome(db0, env).value.0;
      MaturedIds(db1, env.today) == {} && SweepOutcome(db1, env) == Ok((db1, 0))
  {
    var db1 := SweepOutcome(db0, env).value.0;
    SweepSettlesSelected(db0, env);
    forall id | id in db1.transactions
      ensures !Matured(db1.transactions[id], env.today)
    {
      if id in MaturedIds(db0, env.today) {
        assert Settled(db0.transactions[id], db1.transactions[id]);
      }
    }
    NothingMaturedSweepsNothing(db1, env);
  }

  /** Resolving a row's holding keeps the database well formed and the balances non-negative. */
  lemma SweepHoldingKeepsInvariants(db: Db, id: nat)
    requires id in db.transactions
    requires WellFormed(db) && AllNonNegative(db)
    ensures WellFormed(SweepHolding(db, id).0) && AllNonNegative(SweepHolding(db, id).0)
  {
    var t := db.transactions[id];
    if !(t.holdingId.Some? && t.holdingId.value in db.holdings) && FindHolding(db, t.accountId, t.fundCode).None? {
      ResolveHoldingKeepsInvariants(db, t.accountId, t.fundCode, Buy);
      assert SweepHolding(db, id).0 == AddHolding(db, FundHolding(t.accountId, t.fundCode)).(transactions := db.transactions[id := t.(holdingId := Some(db.nextHoldingId))]);
    }
  }

  /** Settling one row keeps the database well formed and the balances non-negative. */
  lemma SettleRowKeepsInvariants(db: Db, id: nat, env: Env)
    requires id in db.transactions
    requires WellFormed(db) && AllNonNegative(db)
    requires SettleRow(db, id, env).Ok?
    ensures WellFormed(SettleRow(db, id, env).value) && AllNonNegative(SettleRow(db, id, env).value)
  {
    var resolved := SweepHolding(db, id);
    SweepHoldingKeepsInvariants(db, id);
    var t := resolved.0.transactions[id];
    ConfirmKeepsInvariants(resolved.0, resolved.1, t.fundCode, t.confirmedNavDate, t.tradeType, t.amount, ShareBase(t.amount, t.feePercent), env);
  }

  /** The sweep keeps the database well formed and the balances non-negative. */
  lemma {:induction false} SweepKeepsInvariants(db0: Db, env: Env, i: nat)
    requires WellFormed(db0) && AllNonNegative(db0)
    requires SweepUpTo(db0, env, i).Ok?
    ensures WellFormed(SweepUpTo(db0, env, i).value.0) && AllNonNegative(SweepUpTo(db0, env, i).value.0)
    decreases i
  {
    if i > 0 {
      SweepPrefixOk(db0, env, i);
      var prev := SweepUpTo(db0, env, i - 1).value;
      SweepKeepsInvariants(db0, env, i - 1);
      if i - 1 in db0.transactions && Matured(db0.transactions[i - 1], env.today) {
        SweepSettledInvariants(db0, env, i - 1, prev.0, prev.1);
      } else {
        SweepSkipStep(db0, env, i - 1, prev.0, prev.1);
      }
    }
  }

  /** A row neither linked to holding `k` nor of its pair never settles against `k`. */
  lemma SweepHoldingAvoids(db: Db, id: nat, k: nat)
    requires KeysBelowCounters(db) && id in db.transactions && k in db.holdings
    requires db.transactions[id].holdingId != Some(k)
    requires !(db.transactions[id].accountId == db.holdings[k].accountId && db.transactions[id].fundCode == db.holdings[k].fundCode)
    ensures SweepHolding(db, id).1 != k
  {
  }

  /**
   * Holding `k` is out of the sweep's reach: no selected row references it,
   * and none is for its (account, fund) pair.
   */
  predicate OutOfSweep(db0: Db, today: Day, k: nat)
    requires k in db0.holdings
  {
    forall id | id in MaturedIds(db0, today) ::
      db0.transactions[id].holdingId != Some(k) &&
      !(db0.transactions[id].accountId == db0.holdings[k].accountId && db0.transactions[id].fundCode == db0.holdings[k].fundCode)
  }

  /** One settle step of the sweep keeps every holding and leaves the ones out of its reach as they were. */
  lemma SweepStepKeepsOtherHoldings(db0: Db, env: Env, i: nat, db: Db, n: nat)
    requires SweepUpTo(db0, env, i) == Ok((db, n)) && KeysBelowCounters(db)
    requires i in db0.transactions && Matured(db0.transactions[i], env.today)
    requires SweepUpTo(db0, env, i + 1).Ok?
    ensures var next := SweepUpTo(db0, env, i + 1).value.0;
      db.holdings.Keys <= next.holdings.Keys && next.accounts == db.accounts && next.conversions == db.conversions
    ensures forall k | k in db0.holdings && k in db.holdings && db.holdings[k] == db0.holdings[k] && OutOfSweep(db0, env.today, k) ::
      SweepUpTo(db0, env, i + 1).value.0.holdings[k] == db.holdings[k]
  {
    SweepSettledHolding(db0, env, i, db, n);
    assert db.transactions[i] == db0.transactions[i];
    assert i in MaturedIds(db0, env.today);
    forall k | k in db0.holdings && k in db.holdings && db.holdings[k] == db0.holdings[k] && OutOfSweep(db0, env.today, k)
      ensures SweepHolding(db, i).1 != k
    {
      SweepHoldingAvoids(db, i, k);
    }
  }

  /**
   * The sweep never removes a holding, never changes accounts or
   * conversions, and leaves every holding out of its reach as it was.
   */
  lemma {:induction false} SweepKeepsOtherHoldings(db0: Db, env: Env, i: nat)
    requires WellFormed(db0) && AllNonNegative(db0)
    requires SweepUpTo(db0, env, i).Ok?
    ensures var db := SweepUpTo(db0, env, i).value.0;
      db0.holdings.Keys <= db.holdings.Keys && db.accounts == db0.accounts && db.conversions == db0.conversions
    ensures forall k | k in db0.holdings && OutOfSweep(db0, env.today, k) ::
      SweepUpTo(db0, env, i).value.0.holdings[k] == db0.holdings[k]
    decreases i
  {
    if i > 0 {
      SweepPrefixOk(db0, env, i);
      var prev := SweepUpTo(db0, env, i - 1).value;
      SweepKeepsOtherHoldings(db0, env, i - 1);
      if i - 1 in db0.transactions && Matured(db0.transactions[i - 1], env.today) {
        SweepKeepsInvariants(db0, env, i - 1);
        SweepStepKeepsOtherHoldings(db0, env, i - 1, prev.0, prev.1);
      } else {
        SweepSkipStep(db0, env, i - 1, prev.0, prev.1);
      }
    }
  }

  /** The loop body of the sweep for row `id`: resolve the holding, then settle the row against it. */
  method SettleMaturedRow(s: Session, id: nat, env: Env) returns (r: Result<(), Error>)
    requires id in s.db.transactions
    modifies s
    ensures s.committed == old(s.committed)
    ensures SettleRow(old(s.db), id, env) == if r.Ok? then Ok(s.db) else Err(r.error)
  {
    var t := s.db.transactions[id];
    var holdingId: nat;
    if t.holdingId.Some? && t.holdingId.value in s.db.holdings {
      holdingId := t.holdingId.value;
    } else {
      var found := FindHolding(s.db, t.accountId, t.fundCode);
      if found.Some? {
        holdingId := found.value;
      } else {
        holdingId := s.db.nextHoldingId;
        s.db := AddHolding(s.db, FundHolding(t.accountId, t.fundCode));
        t := t.(holdingId := Some(holdingId));
        s.db := s.db.(transactions := s.db.transactions[id := t]);
      }
    }
    assert (s.db, holdingId) == SweepHolding(old(s.db), id);
    var base := ShareBase(t.amount, t.feePercent);
    if base <= 0.0 {
      return Err(NonPositiveShareBase);
    }
    var settled := ConfirmAgainstHolding(s, holdingId, t.fundCode, t.confirmedNavDate, t.tradeType, t.amount, base, env);
    if settled.Err? {
      return Err(settled.error);
    }
    s.db := s.db.(transactions := s.db.transactions[id := t.(confirmedNav := settled.value.0, shares := settled.value.1, status := Confirmed)]);
    return Ok(());
  }

  /** The sweep's visit of key `i`: settle the row when the query selected it, skip it otherwise. */
  method VisitRow(s: Session, db0: Db, env: Env, i: nat, updated: nat) returns (r: Result<nat, Error>)
    requires i < db0.nextTransactionId
    requires SweepUpTo(db0, env, i) == Ok((s.db, updated))
    modifies s
    ensures s.committed == old(s.committed)
    ensures r.Ok? ==> SweepUpTo(db0, env, i + 1) == Ok((s.db, r.value))
    ensures r.Err? ==> SweepOutcome(db0, env) == Err(r.error)
  {
    if i in db0.transactions && Matured(db0.transactions[i], env.today) {
      SweepSettleStep(db0, env, i, s.db, updated);
      var settled := SettleMaturedRow(s, i, env);
      if settled.Err? {
        SweepErrorSticks(db0, env, i + 1, db0.nextTransactionId);
        return Err(settled.error);
      }
      return Ok(updated + 1);
    }
    SweepSkipStep(db0, env, i, s.db, updated);
    return Ok(updated);
  }

  /**
   * `confirm_pending_transactions`: select the matured rows; with none,
   * return 0; otherwise settle them in key order, raising on the first
   * failure before anything is committed, and commit once at the end.
   */
  method ConfirmPendingTransactions(s: Session, env: Env) returns (r: Result<nat, Error>)
    modifies s
    ensures SweepOutcome(old(s.db), env) == if r.Ok? then Ok((s.db, r.value)) else Err(r.error)
    ensures s.committed == if r.Ok? && MaturedIds(old(s.db), env.today) != {} then s.db else old(s.committed)
  {
    var db0 := s.db;
    if MaturedIds(db0, env.today) == {} {
      NothingMaturedSweepsNothing(db0, env);
      return Ok(0);
    }
    var updated := 0;
    var i := 0;
    while i < db0.nextTransactionId
      invariant 0 <= i <= db0.nextTransactionId
      invariant SweepUpTo(db0, env, i) == Ok((s.db, updated))
      invariant s.committed == old(s.committed)
    {
      var visited := VisitRow(s, db0, env, i, updated);
      if visited.Err? {
        return Err(visited.error);
      }
      updated := visited.value;
      i := i + 1;
    }
    s.Commit();
    return Ok(updated);
  }
}
