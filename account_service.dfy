/**
 * Fund accounts and the valuation of their holdings
 * (app/services/fund/fund_account_service.py; the position builder is the
 * same function in app/services/fund/fund_holding_service.py).
 *
 * A position values a holding at the fund's estimated NAV, falling back to
 * the last published NAV. Both come from the realtime-estimate lookup, which
 * is a parameter here; `parse_float` turns its raw fields into numbers.
 */
module AccountService {
  import opened Wrappers
  import opened Strings
  import opened Models
  import opened Store
  import opened Parsing

  /** `FundAccountUpdateRequest`: every field optional. */
  datatype AccountUpdate = AccountUpdate(
    name: Option<string>,
    remark: Option<string>,
    defaultBuyFeePercent: Option<real>)

  /** The account with each field the payload carries replaced, the others kept. */
  function Patched(a: FundAccount, u: AccountUpdate): FundAccount {
    a.(name := u.name.GetOr(a.name),
       remark := if u.remark.Some? then u.remark else a.remark,
       defaultBuyFeePercent := u.defaultBuyFeePercent.GetOr(a.defaultBuyFeePercent))
  }

  /** The state after `update_account`, or the error it raises. */
  function UpdateAccountOutcome(db: Db, accountId: nat, u: AccountUpdate): (r: Result<Db, Error>)
    ensures r.Ok? <==> accountId in db.accounts
    ensures r.Err? ==> r.error == FundAccountNotFound(accountId)
    ensures r.Ok? ==> r.value == db.(accounts := r.value.accounts) && r.value.accounts.Keys == db.accounts.Keys
    ensures r.Ok? ==> forall id | id in db.accounts && id != accountId :: r.value.accounts[id] == db.accounts[id]
  {
    if accountId !in db.accounts then Err(FundAccountNotFound(accountId))
    else Ok(db.(accounts := db.accounts[accountId := Patched(db.accounts[accountId], u)]))
  }

  /**
   * A field is overwritten exactly when the payload carries it; the remark
   * can be replaced but never cleared back to none.
   */
  lemma UpdateChangesOnlyGivenFields(a: FundAccount, u: AccountUpdate)
    ensures u.name.Some? ==> Patched(a, u).name == u.name.value
    ensures u.name.None? ==> Patched(a, u).name == a.name
    ensures u.remark.Some? ==> Patched(a, u).remark == u.remark
    ensures u.remark.None? ==> Patched(a, u).remark == a.remark
    ensures u.defaultBuyFeePercent.Some? ==> Patched(a, u).defaultBuyFeePercent == u.defaultBuyFeePercent.value
    ensures u.defaultBuyFeePercent.None? ==> Patched(a, u).defaultBuyFeePercent == a.defaultBuyFeePercent
    ensures a.remark.Some? ==> Patched(a, u).remark.Some?
  {
  }

  /** Sending the same update twice is the same as sending it once; an empty update changes nothing. */
  lemma UpdateIdempotent(a: FundAccount, u: AccountUpdate)
    ensures Patched(Patched(a, u), u) == Patched(a, u)
    ensures Patched(a, AccountUpdate(None, None, None)) == a
  {
  }

  /** `update_account`: change the fields the payload carries, then commit. */
  method UpdateAccount(s: Session, accountId: nat, u: AccountUpdate) returns (r: Result<(), Error>)
    modifies s
    ensures UpdateAccountOutcome(old(s.db), accountId, u) == if r.Ok? then Ok(s.db) else Err(r.error)
    ensures r.Err? ==> s.db == old(s.db)
    ensures s.committed == if r.Ok? then s.db else old(s.committed)
  {
    if accountId !in s.db.accounts {
      return Err(FundAccountNotFound(accountId));
    }
    var account := s.db.accounts[accountId];
    if u.name.Some? {
      account := account.(name := u.name.value);
    }
    if u.remark.Some? {
      account := account.(remark := u.remark);
    }
    if u.defaultBuyFeePercent.Some? {
      account := account.(defaultBuyFeePercent := u.defaultBuyFeePercent.value);
    }
    s.db := s.db.(accounts := s.db.accounts[accountId := account]);
    s.Commit();
    return Ok(());
  }

  /*
   * Valuation.
   */

  /** The two raw NAV fields of a realtime estimate: the estimated NAV and the last published NAV. */
  datatype FundEstimate = FundEstimate(estimatedNav: PyValue, lastNav: PyValue)

  /** `FundHoldingPositionResponse`, less the update timestamp. */
  datatype HoldingPosition = HoldingPosition(
    holdingId: nat,
    accountId: nat,
    fundCode: string,
    totalAmount: real,
    totalShares: real,
    estimatedNav: Option<real>,
    estimatedValue: Option<real>,
    estimatedProfit: Option<real>,
    estimatedProfitPercent: Option<real>)

  /** The NAV a position is valued at: the estimate when it parses, else the last NAV. */
  function ValuationNav(e: FundEstimate, parse: string -> Option<real>): (r: Option<real>)
    ensures ParseFloat(e.estimatedNav, parse).Some? ==> r == ParseFloat(e.estimatedNav, parse)
    ensures ParseFloat(e.estimatedNav, parse).None? ==> r == ParseFloat(e.lastNav, parse)
  {
    match ParseFloat(e.estimatedNav, parse)
    case Some(nav) => Some(nav)
    case None => ParseFloat(e.lastNav, parse)
  }

  /** `_build_holding_position`: value, profit and profit percent of a holding at the valuation NAV. */
  function BuildHoldingPosition(holdingId: nat, h: FundHolding, e: FundEstimate, parse: string -> Option<real>): HoldingPosition {
    var nav := ValuationNav(e, parse);
    if nav.None? then
      HoldingPosition(holdingId, h.accountId, h.fundCode, h.totalAmount, h.totalShares, None, None, None, None)
    else
      var value := h.totalShares * nav.value;
      var profit := value - h.totalAmount;
      var percent := if h.totalAmount > 0.0 then Some(profit / h.totalAmount * 100.0) else None;
      HoldingPosition(holdingId, h.accountId, h.fundCode, h.totalAmount, h.totalShares, nav, Some(value), Some(profit), percent)
  }

  /** What a well-built position says about itself. */
  predicate Consistent(p: HoldingPosition) {
    (p.estimatedValue.Some? <==> p.estimatedNav.Some?) &&
    (p.estimatedProfit.Some? <==> p.estimatedNav.Some?) &&
    (p.estimatedNav.Some? ==>
      p.estimatedValue.value == p.totalShares * p.estimatedNav.value &&
      p.estimatedProfit.value == p.estimatedValue.value - p.totalAmount) &&
    (p.estimatedProfitPercent.Some? <==> p.estimatedNav.Some? && p.totalAmount > 0.0) &&
    (p.estimatedProfitPercent.Some? ==> p.estimatedProfitPercent.value * p.totalAmount == p.estimatedProfit.value * 100.0)
  }

  /**
   * A position carries its holding's figures unchanged; it is valued
   * exactly when some NAV parses; value is shares times NAV and profit is
   * value less cost; the percent exists only for a positive cost and is the
   * profit per hundred of cost.
   */
  lemma PositionValuation(holdingId: nat, h: FundHolding, e: FundEstimate, parse: string -> Option<real>)
    ensures var p := BuildHoldingPosition(holdingId, h, e, parse);
      p.holdingId == holdingId && p.accountId == h.accountId && p.fundCode == h.fundCode &&
      p.totalAmount == h.totalAmount && p.totalShares == h.totalShares &&
      p.estimatedNav == ValuationNav(e, parse) &&
      Consistent(p)
  {
    var p := BuildHoldingPosition(holdingId, h, e, parse);
    if p.estimatedProfitPercent.Some? {
      var profit := p.estimatedProfit.value;
      assert p.estimatedProfitPercent.value == profit / h.totalAmount * 100.0;
    }
  }

  /** `FundAccountSummaryResponse`. */
  datatype AccountSummary = AccountSummary(
    accountId: nat,
    totalCost: real,
    totalValue: Option<real>,
    totalProfit: Option<real>,
    totalProfitPercent: Option<real>)

  function TotalCost(ps: seq<HoldingPosition>): real {
    if ps == [] then 0.0 else TotalCost(ps[..|ps| - 1]) + ps[|ps| - 1].totalAmount
  }

  predicate AllValued(ps: seq<HoldingPosition>) {
    forall k | 0 <= k < |ps| :: ps[k].estimatedValue.Some?
  }

  /** The sum of the values that are present (the comprehension's `if … is not None`). */
  function TotalValue(ps: seq<HoldingPosition>): real {
    if ps == [] then 0.0
    else TotalValue(ps[..|ps| - 1]) + ps[|ps| - 1].estimatedValue.GetOr(0.0)
  }

  function TotalProfit(ps: seq<HoldingPosition>): real
    requires forall k | 0 <= k < |ps| :: ps[k].estimatedProfit.Some?
  {
    if ps == [] then 0.0 else TotalProfit(ps[..|ps| - 1]) + ps[|ps| - 1].estimatedProfit.value
  }

  /**
   * `_build_account_summary`: the cost is always summed; value and profit
   * only when there is at least one position and every position is valued;
   * the percent only for a positive cost; the account id defaults to 0.
   */
  function BuildAccountSummary(ps: seq<HoldingPosition>, accountId: Option<nat>): (r: AccountSummary)
    ensures r.accountId == accountId.GetOr(0)
    ensures r.totalCost == TotalCost(ps)
    ensures r.totalValue.Some? <==> |ps| > 0 && AllValued(ps)
    ensures r.totalProfit.Some? <==> r.totalValue.Some?
    ensures r.totalValue.Some? ==> r.totalProfit.value == r.totalValue.value - r.totalCost
    ensures r.totalProfitPercent.Some? <==> r.totalValue.Some? && r.totalCost > 0.0
    ensures r.totalProfitPercent.Some? ==> r.totalProfitPercent.value * r.totalCost == r.totalProfit.value * 100.0
  {
    var cost := TotalCost(ps);
    if |ps| > 0 && AllValued(ps) then
      var value := TotalValue(ps);
      var profit := value - cost;
      AccountSummary(accountId.GetOr(0), cost, Some(value), Some(profit),
                     if cost > 0.0 then Some(profit / cost * 100.0) else None)
    else
      AccountSummary(accountId.GetOr(0), cost, None, None, None)
  }

  /** Over positions that are consistent and all valued, total value less total cost is the sum of the positions' profits. */
  lemma {:induction false} ProfitIsSumOfProfits(ps: seq<HoldingPosition>)
    requires forall k | 0 <= k < |ps| :: Consistent(ps[k])
    requires AllValued(ps)
    ensures forall k | 0 <= k < |ps| :: ps[k].estimatedProfit.Some?
    ensures TotalValue(ps) - TotalCost(ps) == TotalProfit(ps)
  {
    if ps != [] {
      ProfitIsSumOfProfits(ps[..|ps| - 1]);
    }
  }

  /** The summary's profit is the sum of the per-holding profits. */
  lemma SummaryProfitAddsUp(ps: seq<HoldingPosition>, accountId: Option<nat>)
    requires forall k | 0 <= k < |ps| :: Consistent(ps[k])
    requires BuildAccountSummary(ps, accountId).totalProfit.Some?
    ensures forall k | 0 <= k < |ps| :: ps[k].estimatedProfit.Some?
    ensures BuildAccountSummary(ps, accountId).totalProfit.value == TotalProfit(ps)
  {
    ProfitIsSumOfProfits(ps);
  }

  /** `list_account_holdings`' row filter: the account's holdings, of the stripped code when a non-empty one is given. */
  predicate HoldingListed(h: FundHolding, accountId: nat, code: Option<string>) {
    h.accountId == accountId && (code.None? || h.fundCode == code.value)
  }

  function PositionsOf(db: Db, ids: seq<nat>, estimate: string -> FundEstimate, parse: string -> Option<real>): (r: seq<HoldingPosition>)
    requires forall k | 0 <= k < |ids| :: ids[k] in db.holdings
    ensures |r| == |ids|
    ensures forall k | 0 <= k < |ids| ::
      r[k] == BuildHoldingPosition(ids[k], db.holdings[ids[k]], estimate(db.holdings[ids[k]].fundCode), parse)
  {
    seq(|ids|, k requires 0 <= k < |ids| =>
      BuildHoldingPosition(ids[k], db.holdings[ids[k]], estimate(db.holdings[ids[k]].fundCode), parse))
  }

  /** `list_account_holdings`: the account's holdings (of one fund, when a code is given), each valued. */
  function ListAccountHoldings(db: Db, accountId: nat, fundCode: Option<string>,
                               estimate: string -> FundEstimate, parse: string -> Option<real>): (r: Result<seq<HoldingPosition>, Error>)
    ensures r.Err? <==> accountId !in db.accounts
    ensures r.Err? ==> r.error == FundAccountNotFound(accountId)
    ensures r.Ok? ==> forall k | 0 <= k < |r.value| ::
      var id := r.value[k].holdingId;
      id in db.holdings && id < db.nextHoldingId && HoldingListed(db.holdings[id], accountId, CodeFilter(fundCode)) &&
      r.value[k] == BuildHoldingPosition(id, db.holdings[id], estimate(db.holdings[id].fundCode), parse)
    ensures r.Ok? ==> forall id | id in db.holdings && id < db.nextHoldingId && HoldingListed(db.holdings[id], accountId, CodeFilter(fundCode)) ::
      exists k | 0 <= k < |r.value| :: r.value[k].holdingId == id
    ensures r.Ok? ==> forall i, j | 0 <= i < j < |r.value| :: r.value[i].holdingId < r.value[j].holdingId
  {
    if accountId !in db.accounts then Err(FundAccountNotFound(accountId))
    else
      var code := CodeFilter(fundCode);
      var ids := SelectAsc(db.holdings, (h: FundHolding) => HoldingListed(h, accountId, code), db.nextHoldingId);
      var ps := PositionsOf(db, ids, estimate, parse);
      assert forall k | 0 <= k < |ps| :: ps[k].holdingId == ids[k];
      Ok(ps)
  }

  /**
   * With the pair unique, naming a fund lists one holding at most: every
   * listed position is the same holding (and the keys strictly increase).
   */
  lemma OneHoldingPerCode(db: Db, accountId: nat, code: string, estimate: string -> FundEstimate, parse: string -> Option<real>)
    requires WellFormed(db)
    requires accountId in db.accounts && code != ""
    ensures var ps := ListAccountHoldings(db, accountId, Some(code), estimate, parse).value;
      forall i, j | 0 <= i < |ps| && 0 <= j < |ps| :: ps[i].holdingId == ps[j].holdingId
  {
    var ps := ListAccountHoldings(db, accountId, Some(code), estimate, parse).value;
    forall i, j | 0 <= i < |ps| && 0 <= j < |ps| ensures ps[i].holdingId == ps[j].holdingId {
      var a, b := ps[i].holdingId, ps[j].holdingId;
      assert db.holdings[a].accountId == db.holdings[b].accountId && db.holdings[a].fundCode == db.holdings[b].fundCode;
    }
  }
}
