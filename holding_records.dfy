/**
 * Holding maintenance and the transaction listing
 * (app/services/fund/fund_holding_service.py: `create_holding`,
 * `update_holding`, `delete_holding`, `list_transactions`).
 *
 * `create_holding` opens a position from a total and a profit figure at the
 * fund's latest NAV, which it takes from a snapshot lookup (a parameter
 * here: the NAV and its date, or None where the lookup raises or the NAV
 * does not convert to a number).
 */
module HoldingRecords {
  import opened Wrappers
  import opened Strings
  import opened TradingCalendar
  import opened Models
  import opened Store
  import opened Settlement
  import opened HoldingService

  /** The fund's latest NAV and the date it is for. */
  type Snapshot = string -> Option<(real, Day)>

  /** `FundHoldingCreateRequest`. */
  datatype HoldingRequest = HoldingRequest(
    accountId: nat,
    fundCode: string,
    totalAmount: real,
    profitAmount: real,
    remark: Option<string>)

  /** The confirmed buy that `create_holding` records for the opened position. */
  function OpeningRow(p: HoldingRequest, holdingId: nat, code: string, nav: real, navDate: Day, shares: real): FundTransaction {
    FundTransaction(p.accountId, Some(holdingId), None, code, Buy, p.totalAmount, nav, navDate, shares,
                    ResolveTradeTime(navDate, false), p.remark, Confirmed, 0.0, 0.0,
                    Some(p.totalAmount + p.profitAmount), Some(p.profitAmount))
  }

  /** The state after `create_holding` and the key of its transaction, or the error it raises. */
  function CreateHoldingOutcome(db: Db, p: HoldingRequest, snapshot: Snapshot): Result<(Db, nat), Error> {
    if p.accountId !in db.accounts then Err(FundAccountNotFound(p.accountId))
    else
      var code := Strip(p.fundCode);
      if FindHolding(db, p.accountId, code).Some? then Err(HoldingAlreadyExists)
      else match snapshot(code)
        case None => Err(SnapshotUnavailable(code))
        case Some(latest) =>
          var nav := latest.0;
          if nav <= 0.0 then Err(NonPositiveNav)
          else
            var holdingAmount := p.totalAmount + p.profitAmount;
            if holdingAmount <= 0.0 then Err(NonPositiveHoldingAmount)
            else
              var shares := holdingAmount / nav;
              var db1 := AddHolding(db, FundHolding(p.accountId, code, p.totalAmount, shares));
              Ok((AddTransaction(db1, OpeningRow(p, db.nextHoldingId, code, nav, latest.1, shares)), db1.nextTransactionId))
  }

  /**
   * `create_holding`: every check comes before the first write, so a
   * failure leaves the session as it was; success commits.
   */
  method CreateHolding(s: Session, p: HoldingRequest, snapshot: Snapshot) returns (r: Result<nat, Error>)
    modifies s
    ensures CreateHoldingOutcome(old(s.db), p, snapshot) == if r.Ok? then Ok((s.db, r.value)) else Err(r.error)
    ensures r.Err? ==> s.db == old(s.db)
    ensures s.committed == if r.Ok? then s.db else old(s.committed)
  {
    if p.accountId !in s.db.accounts {
      return Err(FundAccountNotFound(p.accountId));
    }
    var code := Strip(p.fundCode);
    var existing := FindHolding(s.db, p.accountId, code);
    if existing.Some? {
      return Err(HoldingAlreadyExists);
    }
    var latest := snapshot(code);
    if latest.None? {
      return Err(SnapshotUnavailable(code));
    }
    var nav, navDate := latest.value.0, latest.value.1;
    if nav <= 0.0 {
      return Err(NonPositiveNav);
    }
    var holdingAmount := p.totalAmount + p.profitAmount;
    if holdingAmount <= 0.0 {
      return Err(NonPositiveHoldingAmount);
    }
    var shares := holdingAmount / nav;

    var holdingId := s.db.nextHoldingId;
    s.db := AddHolding(s.db, FundHolding(p.accountId, code, p.totalAmount, shares));
    var id := s.db.nextTransactionId;
    s.db := AddTransaction(s.db, OpeningRow(p, holdingId, code, nav, navDate, shares));
    s.Commit();
    return Ok(id);
  }

  /**
   * A successful `create_holding` adds exactly one holding, for the
   * (account, stripped code) pair, whose cost is the given total but whose
   * shares value total plus profit at the snapshot NAV; and one confirmed,
   * fee-free buy of the total at that NAV, dated 14:59 on the NAV date.
   */
  lemma OpenedHolding(db: Db, p: HoldingRequest, snapshot: Snapshot)
    requires CreateHoldingOutcome(db, p, snapshot).Ok?
    ensures var o := CreateHoldingOutcome(db, p, snapshot).value;
      var h := o.0.holdings[db.nextHoldingId];
      var t := o.0.transactions[o.1];
      var code := Strip(p.fundCode);
      p.accountId in db.accounts &&
      FindHolding(db, p.accountId, code).None? &&
      snapshot(code).Some? && snapshot(code).value.0 > 0.0 &&
      o.0.holdings == db.holdings[db.nextHoldingId := h] &&
      o.0.transactions == db.transactions[o.1 := t] && o.1 == db.nextTransactionId &&
      h.accountId == p.accountId && h.fundCode == code &&
      h.totalAmount == p.totalAmount &&
      h.totalShares * snapshot(code).value.0 == p.totalAmount + p.profitAmount &&
      h.totalShares > 0.0 &&
      t.holdingId == Some(db.nextHoldingId) && t.conversionId == None &&
      t.tradeType == Buy && t.status == Confirmed && t.amount == p.totalAmount &&
      t.feePercent == 0.0 && t.feeAmount == 0.0 &&
      t.confirmedNav == snapshot(code).value.0 && t.confirmedNavDate == snapshot(code).value.1 &&
      t.shares == h.totalShares &&
      t.holdingAmount == Some(p.totalAmount + p.profitAmount) && t.profitAmount == Some(p.profitAmount) &&
      t.tradeTime == DateTime(t.confirmedNavDate, 14, 59)
  {
  }

  /** A second holding for the same (account, stripped code) pair is refused. */
  lemma DuplicateHoldingRejected(db: Db, p: HoldingRequest, snapshot: Snapshot, id: nat)
    requires WellFormed(db)
    requires p.accountId in db.accounts
    requires HoldingMatches(db.holdings, id, p.accountId, Strip(p.fundCode))
    ensures CreateHoldingOutcome(db, p, snapshot) == Err(HoldingAlreadyExists)
  {
    FindHoldingExact(db, p.accountId, Strip(p.fundCode));
  }

  /** Opening a holding keeps the keys below the counters and the pair unique. */
  lemma CreateHoldingKeepsWellFormed(db: Db, p: HoldingRequest, snapshot: Snapshot)
    requires WellFormed(db)
    requires CreateHoldingOutcome(db, p, snapshot).Ok?
    ensures WellFormed(CreateHoldingOutcome(db, p, snapshot).value.0)
  {
    var code := Strip(p.fundCode);
    FindHoldingExact(db, p.accountId, code);
    var latest := snapshot(code).value;
    var shares := (p.totalAmount + p.profitAmount) / latest.0;
    var h := FundHolding(p.accountId, code, p.totalAmount, shares);
    assert CreateHoldingOutcome(db, p, snapshot).value.0
        == AddTransaction(AddHolding(db, h), OpeningRow(p, db.nextHoldingId, code, latest.0, latest.1, shares));
    AddFreshHoldingKeepsWellFormed(db, h, OpeningRow(p, db.nextHoldingId, code, latest.0, latest.1, shares));
  }

  /** Adding a holding for a pair that has none, and a transaction, keeps the database well formed. */
  lemma AddFreshHoldingKeepsWellFormed(db: Db, h: FundHolding, t: FundTransaction)
    requires WellFormed(db)
    requires forall id: nat :: !HoldingMatches(db.holdings, id, h.accountId, h.fundCode)
    ensures WellFormed(AddTransaction(AddHolding(db, h), t))
  {
    var hs := AddHolding(db, h).holdings;
    forall i, j | i in hs && j in hs && hs[i].accountId == hs[j].accountId && hs[i].fundCode == hs[j].fundCode
      ensures i == j
    {
      if i != j && (i == db.nextHoldingId || j == db.nextHoldingId) {
        assert HoldingMatches(db.holdings, if i == db.nextHoldingId then j else i, h.accountId, h.fundCode);
      }
    }
  }

  /**
   * Only total plus profit has to be positive, so a negative cost is
   * stored: the database is left with a holding that every trade-time
   * check would have refused.
   */
  lemma NegativeCostAccepted()
    ensures var db := Db(map[0 := FundAccount("a", None)], map[], map[], map[], 1, 0, 0, 0);
      var p := HoldingRequest(0, "000001", -5.0, 10.0, None);
      var o := CreateHoldingOutcome(db, p, _ => Some((1.0, 0)));
      o.Ok? && !AllNonNegative(o.value.0)
  {
    var db := Db(map[0 := FundAccount("a", None)], map[], map[], map[], 1, 0, 0, 0);
    var p := HoldingRequest(0, "000001", -5.0, 10.0, None);
    assert Strip(p.fundCode) == "000001";
    var o := CreateHoldingOutcome(db, p, _ => Some((1.0, 0)));
    assert o.value.0.holdings[0].totalAmount == -5.0;
  }

  /*
   * Updating and deleting a holding.
   */

  /** The state after `update_holding`, or the error it raises. */
  function UpdateHoldingOutcome(db: Db, holdingId: nat, totalAmount: real, totalShares: real): (r: Result<Db, Error>)
    ensures r.Ok? <==> holdingId in db.holdings && totalAmount >= 0.0 && totalShares >= 0.0
    ensures holdingId !in db.holdings ==> r == Err(FundHoldingNotFound(NatToString(holdingId)))
    ensures holdingId in db.holdings && !r.Ok? ==> r == Err(NegativeHolding)
  {
    if holdingId !in db.holdings then Err(FundHoldingNotFound(NatToString(holdingId)))
    else if totalAmount < 0.0 || totalShares < 0.0 then Err(NegativeHolding)
    else
      var h := db.holdings[holdingId];
      Ok(db.(holdings := db.holdings[holdingId := h.(totalAmount := totalAmount, totalShares := totalShares)]))
  }

  /**
   * An accepted update sets the two balances exactly as given; the holding's
   * account and code, every other holding and every other table are unchanged.
   */
  lemma UpdateSetsBalances(db: Db, holdingId: nat, totalAmount: real, totalShares: real)
    requires UpdateHoldingOutcome(db, holdingId, totalAmount, totalShares).Ok?
    ensures var db' := UpdateHoldingOutcome(db, holdingId, totalAmount, totalShares).value;
      db'.holdings.Keys == db.holdings.Keys &&
      db'.holdings[holdingId].totalAmount == totalAmount && db'.holdings[holdingId].totalShares == totalShares &&
      db'.holdings[holdingId].accountId == db.holdings[holdingId].accountId &&
      db'.holdings[holdingId].fundCode == db.holdings[holdingId].fundCode &&
      (forall id | id in db.holdings && id != holdingId :: db'.holdings[id] == db.holdings[id]) &&
      db' == db.(holdings := db'.holdings)
  {
  }

  /** An update keeps the database well formed and, holding by holding, non-negative. */
  lemma UpdateKeepsInvariants(db: Db, holdingId: nat, totalAmount: real, totalShares: real)
    requires WellFormed(db) && AllNonNegative(db)
    requires UpdateHoldingOutcome(db, holdingId, totalAmount, totalShares).Ok?
    ensures WellFormed(UpdateHoldingOutcome(db, holdingId, totalAmount, totalShares).value)
    ensures AllNonNegative(UpdateHoldingOutcome(db, holdingId, totalAmount, totalShares).value)
  {
  }

  /** `update_holding`: look the holding up, check the figures, set both, commit. */
  method UpdateHolding(s: Session, holdingId: nat, totalAmount: real, totalShares: real) returns (r: Result<(), Error>)
    modifies s
    ensures UpdateHoldingOutcome(old(s.db), holdingId, totalAmount, totalShares) == if r.Ok? then Ok(s.db) else Err(r.error)
    ensures r.Err? ==> s.db == old(s.db)
    ensures s.committed == if r.Ok? then s.db else old(s.committed)
  {
    if holdingId !in s.db.holdings {
      return Err(FundHoldingNotFound(NatToString(holdingId)));
    }
    if totalAmount < 0.0 || totalShares < 0.0 {
      return Err(NegativeHolding);
    }
    var h := s.db.holdings[holdingId];
    s.db := s.db.(holdings := s.db.holdings[holdingId := h.(totalAmount := totalAmount, totalShares := totalShares)]);
    s.Commit();
    return Ok(());
  }

  /** `delete_holding`: a missing holding is an error; otherwise it goes with its transactions. */
  method RemoveHolding(s: Session, holdingId: nat) returns (r: Result<(), Error>)
    modifies s
    ensures r.Ok? <==> holdingId in old(s.db).holdings
    ensures r.Err? ==> r.error == FundHoldingNotFound(NatToString(holdingId)) && s.db == old(s.db) && s.committed == old(s.committed)
    ensures r.Ok? ==> s.db == DeleteHolding(old(s.db), holdingId) && s.committed == s.db
  {
    if holdingId !in s.db.holdings {
      return Err(FundHoldingNotFound(NatToString(holdingId)));
    }
    s.db := DeleteHolding(s.db, holdingId);
    s.Commit();
    return Ok(());
  }

  /*
   * Listing transactions.
   */

  predicate TransactionListed(t: FundTransaction, accountId: nat, code: Option<string>) {
    t.accountId == accountId && (code.None? || t.fundCode == code.value)
  }

  /** `list_transactions`: the account's transactions (of the fund, when one is named), newest key first. */
  function ListTransactions(db: Db, accountId: nat, fundCode: Option<string>): (r: Result<seq<nat>, Error>)
    ensures r.Err? <==> accountId !in db.accounts
    ensures r.Err? ==> r.error == FundAccountNotFound(accountId)
    ensures r.Ok? ==> forall id :: id in r.value <==>
      id in db.transactions && id < db.nextTransactionId && TransactionListed(db.transactions[id], accountId, CodeFilter(fundCode))
    ensures r.Ok? ==> forall i, j | 0 <= i < j < |r.value| :: r.value[i] > r.value[j]
  {
    if accountId !in db.accounts then Err(FundAccountNotFound(accountId))
    else
      var code := CodeFilter(fundCode);
      Ok(SelectDesc(db.transactions, (t: FundTransaction) => TransactionListed(t, accountId, code), db.nextTransactionId))
  }

  /** Without a code (or with an empty one) the listing is every transaction of the account. */
  lemma ListingWithoutCode(db: Db, accountId: nat, fundCode: Option<string>)
    requires KeysBelowCounters(db)
    requires accountId in db.accounts
    requires fundCode.None? || fundCode == Some("")
    ensures forall id :: id in ListTransactions(db, accountId, fundCode).value <==>
      id in db.transactions && db.transactions[id].accountId == accountId
  {
  }
}
