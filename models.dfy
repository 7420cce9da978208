/**
 * The persisted records (app/models/db/models.py, app/models/enums.py,
 * app/exceptions.py) and the database they live in.
 *
 * Each table is a map from primary key to row; the `next…Id` counters play
 * the part of the auto-incremented keys. Column defaults are constructor
 * defaults. Timestamps other than `trade_time` (`created_at`,
 * `updated_at`) come from the clock and are not modelled.
 */
module Models {
  import opened Wrappers
  import opened TradingCalendar
  import opened Strings

  datatype TradeType = Buy | Sell

  datatype TradeStatus = Pending | Confirmed | Canceled

  /** A wall-clock timestamp to the minute. */
  datatype DateTime = DateTime(day: Day, hour: nat, minute: nat)

  datatype FundAccount = FundAccount(
    name: string,
    remark: Option<string>,
    defaultBuyFeePercent: real := 0.0)

  datatype FundHolding = FundHolding(
    accountId: nat,
    fundCode: string,
    totalAmount: real := 0.0,
    totalShares: real := 0.0)

  datatype FundConversion = FundConversion(
    accountId: nat,
    fromFundCode: string,
    toFundCode: string,
    tradeTime: DateTime,
    remark: Option<string>)

  datatype FundTransaction = FundTransaction(
    accountId: nat,
    holdingId: Option<nat>,
    conversionId: Option<nat>,
    fundCode: string,
    tradeType: TradeType,
    amount: real,
    confirmedNav: real,
    confirmedNavDate: Day,
    shares: real,
    tradeTime: DateTime,
    remark: Option<string>,
    status: TradeStatus := Confirmed,
    feePercent: real := 0.0,
    feeAmount: real := 0.0,
    holdingAmount: Option<real> := None,
    profitAmount: Option<real> := None)

  /** The exceptions the fund services raise, one case per distinct condition. */
  datatype Error =
    | FundNotFound(code: string)
    | FundAccountNotFound(accountId: nat)
    | FundHoldingNotFound(what: string)
    | HoldingAlreadyExists
    | NonPositiveNav
    | NonPositiveHoldingAmount
    | NonPositiveShareBase
    | SellExceedsAmount
    | SellExceedsShares
    | NegativeHolding
    | ConversionIncomplete
    | NavUnavailable(fundCode: string, day: Day)
    | SnapshotUnavailable(fundCode: string)
    /** A pandas `KeyError`: the frame has no such column. */
    | MissingColumn(column: string)

  /** Column defaults of freshly constructed rows. */
  lemma ColumnDefaults(accountId: nat, code: string, name: string)
    ensures FundAccount(name, None).defaultBuyFeePercent == 0.0
    ensures FundHolding(accountId, code).totalAmount == 0.0
    ensures FundHolding(accountId, code).totalShares == 0.0
    ensures forall t: FundTransaction | t == FundTransaction(accountId, None, None, code, Buy, 0.0, 0.0, 0, 0.0, DateTime(0, 0, 0), None) ::
      t.status == Confirmed && t.feePercent == 0.0 && t.feeAmount == 0.0
  {
  }

  datatype Db = Db(
    accounts: map<nat, FundAccount>,
    holdings: map<nat, FundHolding>,
    conversions: map<nat, FundConversion>,
    transactions: map<nat, FundTransaction>,
    nextAccountId: nat,
    nextHoldingId: nat,
    nextConversionId: nat,
    nextTransactionId: nat)

  /** Every key was handed out by its table's counter. */
  predicate KeysBelowCounters(db: Db) {
    (forall id | id in db.accounts :: id < db.nextAccountId) &&
    (forall id | id in db.holdings :: id < db.nextHoldingId) &&
    (forall id | id in db.conversions :: id < db.nextConversionId) &&
    (forall id | id in db.transactions :: id < db.nextTransactionId)
  }

  predicate HoldingMatches(holdings: map<nat, FundHolding>, id: nat, accountId: nat, code: string) {
    id in holdings && holdings[id].accountId == accountId && holdings[id].fundCode == code
  }

  /** The `uniq_account_fund` constraint: one holding per (account, fund code). */
  predicate UniqueHoldings(holdings: map<nat, FundHolding>) {
    forall i, j | i in holdings && j in holdings ::
      holdings[i].accountId == holdings[j].accountId && holdings[i].fundCode == holdings[j].fundCode ==> i == j
  }

  predicate WellFormed(db: Db) {
    KeysBelowCounters(db) && UniqueHoldings(db.holdings)
  }

  /** The first holding id in `from..bound` for the (account, code) pair. */
  function FindHoldingFrom(holdings: map<nat, FundHolding>, accountId: nat, code: string, from: nat, bound: nat): (r: Option<nat>)
    ensures r.Some? ==> from <= r.value < bound && HoldingMatches(holdings, r.value, accountId, code)
    ensures r.Some? ==> forall j | from <= j < r.value :: !HoldingMatches(holdings, j, accountId, code)
    ensures r.None? ==> forall j | from <= j < bound :: !HoldingMatches(holdings, j, accountId, code)
    decreases bound - from
  {
    if from >= bound then None
    else if HoldingMatches(holdings, from, accountId, code) then Some(from)
    else FindHoldingFrom(holdings, accountId, code, from + 1, bound)
  }

  /** `select(FundHolding).where(account_id == …, fund_code == …).first()`. */
  function FindHolding(db: Db, accountId: nat, code: string): Option<nat> {
    FindHoldingFrom(db.holdings, accountId, code, 0, db.nextHoldingId)
  }

  /** In a well-formed database the lookup finds exactly the holding of the pair, if there is one. */
  lemma FindHoldingExact(db: Db, accountId: nat, code: string)
    requires WellFormed(db)
    ensures FindHolding(db, accountId, code).None? <==> forall id: nat :: !HoldingMatches(db.holdings, id, accountId, code)
    ensures forall id: nat | HoldingMatches(db.holdings, id, accountId, code) :: FindHolding(db, accountId, code) == Some(id)
  {
  }

  /** The transactions that survive when the rows in `holdingIds` and `conversionIds` and account `accountId`'s rows go. */
  function KeepTransactions(transactions: map<nat, FundTransaction>, accountId: Option<nat>, holdingIds: set<nat>, conversionIds: set<nat>): map<nat, FundTransaction> {
    map id | id in transactions && Survives(transactions[id], accountId, holdingIds, conversionIds) :: transactions[id]
  }

  predicate Survives(t: FundTransaction, accountId: Option<nat>, holdingIds: set<nat>, conversionIds: set<nat>) {
    (accountId.None? || t.accountId != accountId.value) &&
    (t.holdingId.None? || t.holdingId.value !in holdingIds) &&
    (t.conversionId.None? || t.conversionId.value !in conversionIds)
  }

  /**
   * `select(...).where(keep)` over a table without `ORDER BY`: the keys below
   * `bound` whose rows pass `keep`, in ascending key order.
   */
  function SelectAsc<T>(table: map<nat, T>, keep: T -> bool, bound: nat): (r: seq<nat>)
    ensures forall i | 0 <= i < |r| :: r[i] in table && r[i] < bound && keep(table[r[i]])
    ensures forall i, j | 0 <= i < j < |r| :: r[i] < r[j]
    ensures forall id | id in table && id < bound && keep(table[id]) :: id in r
    decreases bound
  {
    if bound == 0 then []
    else
      var rest := SelectAsc(table, keep, bound - 1);
      if bound - 1 in table && keep(table[bound - 1]) then rest + [bound - 1] else rest
  }

  /** The same selection with `ORDER BY id DESC`: highest key first. */
  function SelectDesc<T>(table: map<nat, T>, keep: T -> bool, bound: nat): (r: seq<nat>)
    ensures forall i | 0 <= i < |r| :: r[i] in table && r[i] < bound && keep(table[r[i]])
    ensures forall i, j | 0 <= i < j < |r| :: r[i] > r[j]
    ensures forall id | id in table && id < bound && keep(table[id]) :: id in r
    decreases bound
  {
    if bound == 0 then []
    else
      var rest := SelectDesc(table, keep, bound - 1);
      if bound - 1 in table && keep(table[bound - 1]) then [bound - 1] + rest else rest
  }

  /**
   * The fund-code filter of the listings (`if fund_code:`): applied only when a non-empty
   * code is given and then on the stripped code.
   */
  function CodeFilter(fundCode: Option<string>): (r: Option<string>)
    ensures r.Some? <==> fundCode.Some? && fundCode.value != ""
    ensures r.Some? ==> r.value == Strip(fundCode.value)
  {
    if fundCode.Some? && fundCode.value != "" then Some(Strip(fundCode.value)) else None
  }

  /** Deleting a holding deletes the transactions that reference it, and nothing else. */
  function DeleteHolding(db: Db, holdingId: nat): (r: Db)
    ensures holdingId !in r.holdings && r.holdings.Keys == db.holdings.Keys - {holdingId}
    ensures forall id | id in r.holdings :: r.holdings[id] == db.holdings[id]
    ensures forall id | id in r.transactions :: r.transactions[id].holdingId != Some(holdingId)
    ensures forall id | id in db.transactions ::
      (id in r.transactions <==> db.transactions[id].holdingId != Some(holdingId)) &&
      (id in r.transactions ==> r.transactions[id] == db.transactions[id])
    ensures r.accounts == db.accounts && r.conversions == db.conversions
  {
    db.(holdings := db.holdings - {holdingId},
        transactions := KeepTransactions(db.transactions, None, {holdingId}, {}))
  }

  /** Deleting a conversion deletes both of its legs (every transaction that references it), and nothing else. */
  function DeleteConversion(db: Db, conversionId: nat): (r: Db)
    ensures conversionId !in r.conversions && r.conversions.Keys == db.conversions.Keys - {conversionId}
    ensures forall id | id in r.conversions :: r.conversions[id] == db.conversions[id]
    ensures forall id | id in db.transactions ::
      (id in r.transactions <==> db.transactions[id].conversionId != Some(conversionId)) &&
      (id in r.transactions ==> r.transactions[id] == db.transactions[id])
    ensures r.accounts == db.accounts && r.holdings == db.holdings
  {
    db.(conversions := db.conversions - {conversionId},
        transactions := KeepTransactions(db.transactions, None, {}, {conversionId}))
  }

  function HoldingsOf(db: Db, accountId: nat): set<nat> {
    set id | id in db.holdings && db.holdings[id].accountId == accountId
  }

  function ConversionsOf(db: Db, accountId: nat): set<nat> {
    set id | id in db.conversions && db.conversions[id].accountId == accountId
  }

  /**
   * Deleting an account deletes its holdings, conversions and transactions,
   * and, through the holdings' and conversions' own cascades, every
   * transaction that references one of those.
   */
  function DeleteAccount(db: Db, accountId: nat): (r: Db)
    ensures r.accounts.Keys == db.accounts.Keys - {accountId}
    ensures forall id | id in r.holdings :: r.holdings[id].accountId != accountId
    ensures forall id | id in r.conversions :: r.conversions[id].accountId != accountId
    ensures forall id | id in r.transactions :: r.transactions[id].accountId != accountId
    ensures forall id | id in r.transactions ::
      (r.transactions[id].holdingId.Some? ==> r.transactions[id].holdingId.value !in HoldingsOf(db, accountId)) &&
      (r.transactions[id].conversionId.Some? ==> r.transactions[id].conversionId.value !in ConversionsOf(db, accountId))
    ensures forall id | id in db.holdings :: id in r.holdings <==> db.holdings[id].accountId != accountId
    ensures forall id | id in db.conversions :: id in r.conversions <==> db.conversions[id].accountId != accountId
    ensures forall id | id in r.holdings :: id in db.holdings && r.holdings[id] == db.holdings[id]
    ensures forall id | id in r.conversions :: id in db.conversions && r.conversions[id] == db.conversions[id]
    ensures forall id | id in r.transactions :: id in db.transactions && r.transactions[id] == db.transactions[id]
  {
    var hs := HoldingsOf(db, accountId);
    var cs := ConversionsOf(db, accountId);
    db.(accounts := db.accounts - {accountId},
        holdings := db.holdings - hs,
        conversions := db.conversions - cs,
        transactions := KeepTransactions(db.transactions, Some(accountId), hs, cs))
  }

  /** The cascades keep the database well formed. */
  lemma DeletesKeepWellFormed(db: Db, accountId: nat, holdingId: nat, conversionId: nat)
    requires WellFormed(db)
    ensures WellFormed(DeleteAccount(db, accountId))
    ensures WellFormed(DeleteHolding(db, holdingId))
    ensures WellFormed(DeleteConversion(db, conversionId))
  {
  }
}
