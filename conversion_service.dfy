/**
 * Fund conversions (app/services/fund/fund_conversion_service.py): moving
 * money from one fund to another as a sell leg and a buy leg under one
 * conversion record, committed together.
 */
module ConversionService {
  import opened Wrappers
  import opened Strings
  import opened TradingCalendar
  import opened Models
  import opened Store
  import opened Settlement
  import opened HoldingService

  /** `FundConversionCreateRequest`. */
  datatype ConversionRequest = ConversionRequest(
    accountId: nat,
    fromFundCode: string,
    toFundCode: string,
    fromAmount: real,
    fromFeePercent: Option<real>,
    toAmount: real,
    toFeePercent: Option<real>,
    tradeDate: Day,
    isAfterCutoff: bool,
    remark: Option<string>)

  /** `db.add(conversion); db.flush()`: the conversion gets the next key. */
  function AddConversion(db: Db, v: FundConversion): Db {
    db.(conversions := db.conversions[db.nextConversionId := v], nextConversionId := db.nextConversionId + 1)
  }

  /** The conversion record: stripped codes and the trade time of the date and cutoff flag. */
  function ConversionRecord(c: ConversionRequest): FundConversion {
    FundConversion(c.accountId, Strip(c.fromFundCode), Strip(c.toFundCode), ResolveTradeTime(c.tradeDate, c.isAfterCutoff), c.remark)
  }

  /** The sell leg: the source fund, the amount out, under the conversion. */
  function SellLeg(c: ConversionRequest, conversionId: nat): TradeRequest {
    TradeRequest(c.accountId, c.fromFundCode, Sell, c.fromAmount, c.fromFeePercent, c.tradeDate, c.isAfterCutoff, c.remark, Some(conversionId))
  }

  /** The buy leg: the target fund, the amount in, under the conversion. */
  function BuyLeg(c: ConversionRequest, conversionId: nat): TradeRequest {
    TradeRequest(c.accountId, c.toFundCode, Buy, c.toAmount, c.toFeePercent, c.tradeDate, c.isAfterCutoff, c.remark, Some(conversionId))
  }

  /** The two legs recorded in order on the state that already holds the conversion. */
  ghost function LegsOutcome(db: Db, c: ConversionRequest, conversionId: nat, env: Env): Result<(Db, nat, nat), Error>
    requires ResolvesNavDate(env.calendar, c.tradeDate, c.isAfterCutoff)
  {
    var sell := CreateOutcome(db, SellLeg(c, conversionId), env);
    if sell.Err? then Err(sell.error)
    else
      var buy := CreateOutcome(sell.value.0, BuyLeg(c, conversionId), env);
      if buy.Err? then Err(buy.error)
      else Ok((buy.value.0, sell.value.1, buy.value.1))
  }

  /**
   * The state after `create_conversion` with the keys of the conversion, the
   * sell leg and the buy leg, or the error it raises.
   */
  ghost function ConversionOutcome(db: Db, c: ConversionRequest, env: Env): Result<(Db, nat, nat, nat), Error>
    requires ResolvesNavDate(env.calendar, c.tradeDate, c.isAfterCutoff)
  {
    if c.accountId !in db.accounts then Err(FundAccountNotFound(c.accountId))
    else
      var legs := LegsOutcome(AddConversion(db, ConversionRecord(c)), c, db.nextConversionId, env);
      if legs.Err? then Err(legs.error)
      else Ok((legs.value.0, db.nextConversionId, legs.value.1, legs.value.2))
  }

  /**
   * `create_conversion`: check the account, add the conversion, record the
   * sell leg and then the buy leg without committing, and commit once. A
   * failure anywhere leaves the database as it was: nothing was committed,
   * and closing the request's session (the `Rollback`) drops the rest.
   */
  method CreateConversion(s: Session, c: ConversionRequest, env: Env) returns (r: Result<(nat, nat, nat), Error>)
    requires s.db == s.committed
    requires ResolvesNavDate(env.calendar, c.tradeDate, c.isAfterCutoff)
    modifies s
    ensures ConversionOutcome(old(s.db), c, env) == if r.Ok? then Ok((s.db, r.value.0, r.value.1, r.value.2)) else Err(r.error)
    ensures r.Ok? ==> s.committed == s.db
    ensures r.Err? ==> s.db == old(s.db) && s.committed == old(s.committed)
  {
    if c.accountId !in s.db.accounts {
      return Err(FundAccountNotFound(c.accountId));
    }
    var conversionId := s.db.nextConversionId;
    s.db := AddConversion(s.db, ConversionRecord(c));
    ghost var db1 := s.db;

    var sell := CreateTransactionRecord(s, SellLeg(c, conversionId), env, false);
    if sell.Err? {
      s.Rollback();
      return Err(sell.error);
    }
    var buy := CreateTransactionRecord(s, BuyLeg(c, conversionId), env, false);
    if buy.Err? {
      s.Rollback();
      return Err(buy.error);
    }
    assert LegsOutcome(db1, c, conversionId, env) == Ok((s.db, sell.value, buy.value));
    s.Commit();
    return Ok((conversionId, sell.value, buy.value));
  }

  /** A conversion for a missing account fails before anything is written. */
  lemma ConversionNeedsAccount(db: Db, c: ConversionRequest, env: Env)
    requires ResolvesNavDate(env.calendar, c.tradeDate, c.isAfterCutoff)
    ensures ConversionOutcome(db, c, env).Err? <==> c.accountId !in db.accounts || LegsOutcome(AddConversion(db, ConversionRecord(c)), c, db.nextConversionId, env).Err?
    ensures c.accountId !in db.accounts ==> ConversionOutcome(db, c, env) == Err(FundAccountNotFound(c.accountId))
  {
  }

  /** What the two recorded legs look like. */
  predicate LegsAgree(db': Db, c: ConversionRequest, conversionId: nat, sellId: nat, buyId: nat, navDate: Day) {
    sellId in db'.transactions && buyId in db'.transactions &&
    var sell, buy := db'.transactions[sellId], db'.transactions[buyId];
    sell.conversionId == Some(conversionId) && buy.conversionId == Some(conversionId) &&
    sell.tradeType == Sell && buy.tradeType == Buy &&
    sell.fundCode == Strip(c.fromFundCode) && buy.fundCode == Strip(c.toFundCode) &&
    sell.amount == c.fromAmount && buy.amount == c.toAmount &&
    sell.accountId == c.accountId && buy.accountId == c.accountId &&
    sell.confirmedNavDate == navDate && buy.confirmedNavDate == navDate &&
    sell.tradeTime == ResolveTradeTime(c.tradeDate, c.isAfterCutoff) &&
    buy.tradeTime == ResolveTradeTime(c.tradeDate, c.isAfterCutoff)
  }

  /**
   * A recorded conversion: the record with the stripped codes and the trade
   * time of the date and cutoff flag; a sell leg on the source fund keyed
   * just before a buy leg on the target fund; both legs under the new
   * conversion, settling on the same NAV date, with the conversion's trade
   * time; and apart from these three rows only holdings have changed.
   */
  lemma ConversionLegs(db: Db, c: ConversionRequest, env: Env)
    requires ResolvesNavDate(env.calendar, c.tradeDate, c.isAfterCutoff)
    requires ConversionOutcome(db, c, env).Ok?
    ensures var o := ConversionOutcome(db, c, env).value;
      var db', conversionId, sellId, buyId := o.0, o.1, o.2, o.3;
      LegsAgree(db', c, conversionId, sellId, buyId, ConfirmedNavDate(env.calendar, c.tradeDate, c.isAfterCutoff)) &&
      conversionId == db.nextConversionId &&
      db'.conversions == db.conversions[conversionId := ConversionRecord(c)] &&
      sellId == db.nextTransactionId && buyId == sellId + 1 && db'.nextTransactionId == buyId + 1 &&
      db'.transactions == db.transactions[sellId := db'.transactions[sellId]][buyId := db'.transactions[buyId]] &&
      db'.accounts == db.accounts
  {
    var conversionId := db.nextConversionId;
    var db1 := AddConversion(db, ConversionRecord(c));
    var q1, q2 := SellLeg(c, conversionId), BuyLeg(c, conversionId);
    var sell := CreateOutcome(db1, q1, env);
    var buy := CreateOutcome(sell.value.0, q2, env);
    assert sell.Ok? && buy.Ok?;
    RecordedRow(db1, q1, env);
    CreateAddsOneRow(db1, q1, env);
    RecordedRow(sell.value.0, q2, env);
    CreateAddsOneRow(sell.value.0, q2, env);
    assert sell.value.0.transactions[sell.value.1] == buy.value.0.transactions[sell.value.1];
  }

  /** A conversion keeps the database well formed and every holding non-negative. */
  lemma ConversionKeepsInvariants(db: Db, c: ConversionRequest, env: Env)
    requires ResolvesNavDate(env.calendar, c.tradeDate, c.isAfterCutoff)
    requires WellFormed(db) && AllNonNegative(db)
    requires ConversionOutcome(db, c, env).Ok?
    ensures WellFormed(ConversionOutcome(db, c, env).value.0)
    ensures AllNonNegative(ConversionOutcome(db, c, env).value.0)
  {
    var conversionId := db.nextConversionId;
    var db1 := AddConversion(db, ConversionRecord(c));
    var sell := CreateOutcome(db1, SellLeg(c, conversionId), env);
    assert sell.Ok?;
    CreateKeepsInvariants(db1, SellLeg(c, conversionId), env);
    CreateKeepsInvariants(sell.value.0, BuyLeg(c, conversionId), env);
  }

  /*
   * Reading conversions back.
   */

  /** `conversion.transactions`: the keys of the rows under the conversion, in key order. */
  function LegIds(db: Db, conversionId: nat): (r: seq<nat>)
    ensures forall k | 0 <= k < |r| :: r[k] in db.transactions && db.transactions[r[k]].conversionId == Some(conversionId)
  {
    SelectAsc(db.transactions, (t: FundTransaction) => t.conversionId == Some(conversionId), db.nextTransactionId)
  }

  /** `next(tx for tx in transactions if tx.trade_type == …)`: the first key whose row has the trade type. */
  function FirstOfType(db: Db, ids: seq<nat>, tradeType: TradeType): (r: Option<nat>)
    requires forall k | 0 <= k < |ids| :: ids[k] in db.transactions
    ensures r.Some? ==> r.value in ids && db.transactions[r.value].tradeType == tradeType
    ensures r.Some? ==> forall k | 0 <= k < |ids| && ids[k] != r.value && db.transactions[ids[k]].tradeType == tradeType ::
      exists m | 0 <= m < k :: ids[m] == r.value
    ensures r.None? ==> forall k | 0 <= k < |ids| :: db.transactions[ids[k]].tradeType != tradeType
  {
    if ids == [] then None
    else if db.transactions[ids[0]].tradeType == tradeType then Some(ids[0])
    else
      var rest := FirstOfType(db, ids[1..], tradeType);
      assert rest.Some? ==> forall k | 0 <= k < |ids| && ids[k] != rest.value && db.transactions[ids[k]].tradeType == tradeType ::
        exists m | 0 <= m < k :: ids[m] == rest.value by {
        if rest.Some? {
          forall k | 0 <= k < |ids| && ids[k] != rest.value && db.transactions[ids[k]].tradeType == tradeType
            ensures exists m | 0 <= m < k :: ids[m] == rest.value
          {
            assert ids[k] == ids[1..][k - 1];
            var m :| 0 <= m < k - 1 && ids[1..][m] == rest.value;
            assert ids[m + 1] == rest.value;
          }
        }
      }
      rest
  }

  /** Some row among `ids` has the trade type. */
  predicate HasLeg(db: Db, ids: seq<nat>, tradeType: TradeType) {
    exists k | 0 <= k < |ids| :: ids[k] in db.transactions && db.transactions[ids[k]].tradeType == tradeType
  }

  /**
   * `_resolve_conversion_transactions`: the first sell and the first buy
   * among the conversion's rows; a conversion missing either is an error.
   */
  function ResolveConversionTransactions(db: Db, ids: seq<nat>): (r: Result<(nat, nat), Error>)
    requires forall k | 0 <= k < |ids| :: ids[k] in db.transactions
    ensures r.Ok? <==> HasLeg(db, ids, Sell) && HasLeg(db, ids, Buy)
    ensures r.Err? ==> r.error == ConversionIncomplete
    ensures r.Ok? ==> r.value.0 in ids && db.transactions[r.value.0].tradeType == Sell &&
                      r.value.1 in ids && db.transactions[r.value.1].tradeType == Buy
  {
    var sell := FirstOfType(db, ids, Sell);
    var buy := FirstOfType(db, ids, Buy);
    if sell.None? || buy.None? then Err(ConversionIncomplete) else Ok((sell.value, buy.value))
  }

  /** The legs `list_conversions` reports for a conversion. */
  function Legs(db: Db, conversionId: nat): Result<(nat, nat), Error> {
    ResolveConversionTransactions(db, LegIds(db, conversionId))
  }

  /**
   * A fresh conversion reads back as the legs it was created with: its rows
   * are exactly the two legs, and they resolve to the sell leg and the buy
   * leg, provided no earlier row already pointed at the key the conversion
   * gets.
   */
  lemma ConversionRoundTrip(db: Db, c: ConversionRequest, env: Env)
    requires ResolvesNavDate(env.calendar, c.tradeDate, c.isAfterCutoff)
    requires KeysBelowCounters(db)
    requires forall id | id in db.transactions :: db.transactions[id].conversionId != Some(db.nextConversionId)
    requires ConversionOutcome(db, c, env).Ok?
    ensures var o := ConversionOutcome(db, c, env).value;
      var ids := LegIds(o.0, o.1);
      o.2 in ids && o.3 in ids && (forall k | 0 <= k < |ids| :: ids[k] == o.2 || ids[k] == o.3) &&
      Legs(o.0, o.1) == Ok((o.2, o.3))
  {
    var o := ConversionOutcome(db, c, env).value;
    var db', conversionId, sellId, buyId := o.0, o.1, o.2, o.3;
    ConversionLegs(db, c, env);
    OnlyTheLegs(db, db', conversionId, sellId, buyId);
  }

  /** The rows under a conversion that no earlier row referenced are the two legs just added. */
  lemma OnlyTheLegs(db: Db, db': Db, conversionId: nat, sellId: nat, buyId: nat)
    requires sellId in db'.transactions && buyId in db'.transactions && sellId < buyId < db'.nextTransactionId
    requires db'.transactions == db.transactions[sellId := db'.transactions[sellId]][buyId := db'.transactions[buyId]]
    requires forall id | id in db.transactions :: db.transactions[id].conversionId != Some(conversionId)
    requires db'.transactions[sellId].conversionId == Some(conversionId) && db'.transactions[sellId].tradeType == Sell
    requires db'.transactions[buyId].conversionId == Some(conversionId) && db'.transactions[buyId].tradeType == Buy
    ensures var ids := LegIds(db', conversionId);
      sellId in ids && buyId in ids && (forall k | 0 <= k < |ids| :: ids[k] == sellId || ids[k] == buyId) &&
      Legs(db', conversionId) == Ok((sellId, buyId))
  {
    var ids := LegIds(db', conversionId);
    forall id | id in db'.transactions && db'.transactions[id].conversionId == Some(conversionId)
      ensures id == sellId || id == buyId
    {
      assert id == sellId || id == buyId || id in db.transactions;
    }
    assert sellId in ids && buyId in ids;
    var r := ResolveConversionTransactions(db', ids);
    assert HasLeg(db', ids, Sell) by {
      var k :| 0 <= k < |ids| && ids[k] == sellId;
    }
    assert HasLeg(db', ids, Buy) by {
      var k :| 0 <= k < |ids| && ids[k] == buyId;
    }
  }

  /** One row of `list_conversions`: the conversion and its two legs. */
  datatype ConversionView = ConversionView(conversionId: nat, sellId: nat, buyId: nat)

  /** `Legs` as a function of the conversion key. */
  function LegsOf(db: Db): nat -> Result<(nat, nat), Error> {
    conversionId => Legs(db, conversionId)
  }

  /**
   * The views of the conversions in `ids`, in that order, with the legs
   * `legsOf` finds for each; the first conversion without legs makes it an error.
   */
  function ConversionViews(ids: seq<nat>, legsOf: nat -> Result<(nat, nat), Error>): Result<seq<ConversionView>, Error> {
    if ids == [] then Ok([])
    else
      var prev := ConversionViews(ids[..|ids| - 1], legsOf);
      var last := ids[|ids| - 1];
      var legs := legsOf(last);
      if prev.Err? then prev
      else if legs.Err? then Err(legs.error)
      else Ok(prev.value + [ConversionView(last, legs.value.0, legs.value.1)])
  }

  /**
   * The views succeed exactly when every conversion has its legs, and fail
   * with the first failure; on success there is one view per conversion, in
   * order, carrying its legs.
   */
  lemma {:induction false} ViewsResolveEach(ids: seq<nat>, legsOf: nat -> Result<(nat, nat), Error>)
    ensures ConversionViews(ids, legsOf).Ok? <==> forall k | 0 <= k < |ids| :: legsOf(ids[k]).Ok?
    ensures ConversionViews(ids, legsOf).Err? ==> exists k | 0 <= k < |ids| ::
      legsOf(ids[k]).Err? && ConversionViews(ids, legsOf).error == legsOf(ids[k]).error
    ensures ConversionViews(ids, legsOf).Ok? ==> var vs := ConversionViews(ids, legsOf).value;
      |vs| == |ids| && forall k | 0 <= k < |ids| ::
        vs[k].conversionId == ids[k] && legsOf(ids[k]) == Ok((vs[k].sellId, vs[k].buyId))
  {
    if ids != [] {
      var init := ids[..|ids| - 1];
      ViewsResolveEach(init, legsOf);
      assert forall k | 0 <= k < |init| :: init[k] == ids[k];
    }
  }

  /** The account's conversions, newest key first. */
  function AccountConversionIds(db: Db, accountId: nat): (r: seq<nat>)
    ensures forall id :: id in r <==> id in db.conversions && id < db.nextConversionId && db.conversions[id].accountId == accountId
    ensures forall i, j | 0 <= i < j < |r| :: r[i] > r[j]
  {
    SelectDesc(db.conversions, (v: FundConversion) => v.accountId == accountId, db.nextConversionId)
  }

  /** `list_conversions`' answer: a view per conversion of the account, newest key first. */
  function ConversionListing(db: Db, accountId: nat): (r: Result<seq<ConversionView>, Error>)
    ensures accountId !in db.accounts ==> r == Err(FundAccountNotFound(accountId))
  {
    if accountId !in db.accounts then Err(FundAccountNotFound(accountId))
    else ConversionViews(AccountConversionIds(db, accountId), LegsOf(db))
  }

  /**
   * For an existing account the listing fails exactly when one of its
   * conversions lacks a leg, and then with that conversion's error.
   */
  lemma ListingFailsOnIncomplete(db: Db, accountId: nat)
    requires accountId in db.accounts
    ensures ConversionListing(db, accountId).Err? <==> exists id | id in AccountConversionIds(db, accountId) :: Legs(db, id).Err?
    ensures ConversionListing(db, accountId).Err? ==> ConversionListing(db, accountId).error == ConversionIncomplete
  {
    var ids := AccountConversionIds(db, accountId);
    ViewsResolveEach(ids, LegsOf(db));
    assert forall k | 0 <= k < |ids| :: LegsOf(db)(ids[k]) == Legs(db, ids[k]);
  }

  /**
   * A successful listing holds one view per conversion of the account,
   * newest key first, each with the legs that conversion resolves to.
   */
  lemma ListingContents(db: Db, accountId: nat)
    requires ConversionListing(db, accountId).Ok?
    ensures var vs := ConversionListing(db, accountId).value;
      (forall k | 0 <= k < |vs| :: vs[k].conversionId in db.conversions && db.conversions[vs[k].conversionId].accountId == accountId &&
                                   Legs(db, vs[k].conversionId) == Ok((vs[k].sellId, vs[k].buyId))) &&
      (forall id | id in db.conversions && id < db.nextConversionId && db.conversions[id].accountId == accountId ::
        exists k | 0 <= k < |vs| :: vs[k].conversionId == id) &&
      (forall i, j | 0 <= i < j < |vs| :: vs[i].conversionId > vs[j].conversionId)
  {
    var ids := AccountConversionIds(db, accountId);
    ViewsResolveEach(ids, LegsOf(db));
    var vs := ConversionViews(ids, LegsOf(db)).value;
    assert vs == ConversionListing(db, accountId).value;
    forall k | 0 <= k < |vs|
      ensures vs[k].conversionId in db.conversions && db.conversions[vs[k].conversionId].accountId == accountId
      ensures Legs(db, vs[k].conversionId) == Ok((vs[k].sellId, vs[k].buyId))
    {
      assert vs[k].conversionId == ids[k] && ids[k] in ids;
      assert LegsOf(db)(ids[k]) == Legs(db, ids[k]);
    }
    forall id | id in db.conversions && id < db.nextConversionId && db.conversions[id].accountId == accountId
      ensures exists k | 0 <= k < |vs| :: vs[k].conversionId == id
    {
      var k :| 0 <= k < |ids| && ids[k] == id;
      assert vs[k].conversionId == id;
    }
  }

  /** Once a prefix has failed, the whole listing fails the same way. */
  lemma {:induction false} ViewsErrorSticks(ids: seq<nat>, legsOf: nat -> Result<(nat, nat), Error>, n: nat)
    requires n <= |ids|
    requires ConversionViews(ids[..n], legsOf).Err?
    ensures ConversionViews(ids, legsOf) == ConversionViews(ids[..n], legsOf)
    decreases |ids| - n
  {
    if n < |ids| {
      assert ids[..n + 1][..n] == ids[..n];
      ViewsErrorSticks(ids, legsOf, n + 1);
    } else {
      assert ids[..n] == ids;
    }
  }

  /** One more conversion either fails the views or appends its view. */
  lemma ViewsStep(ids: seq<nat>, legsOf: nat -> Result<(nat, nat), Error>, i: nat)
    requires i < |ids| && ConversionViews(ids[..i], legsOf).Ok?
    ensures ConversionViews(ids[..i + 1], legsOf) ==
      if legsOf(ids[i]).Err? then Err(legsOf(ids[i]).error)
      else Ok(ConversionViews(ids[..i], legsOf).value + [ConversionView(ids[i], legsOf(ids[i]).value.0, legsOf(ids[i]).value.1)])
  {
    assert ids[..i + 1][..i] == ids[..i];
  }

  /** `list_conversions`: build the views one conversion at a time, stopping at the first incomplete one. */
  method ListConversions(db: Db, accountId: nat) returns (r: Result<seq<ConversionView>, Error>)
    ensures r == ConversionListing(db, accountId)
  {
    if accountId !in db.accounts {
      return Err(FundAccountNotFound(accountId));
    }
    var ids := AccountConversionIds(db, accountId);
    var views: seq<ConversionView> := [];
    var i := 0;
    while i < |ids|
      invariant 0 <= i <= |ids|
      invariant ConversionViews(ids[..i], LegsOf(db)) == Ok(views)
    {
      var legs := Legs(db, ids[i]);
      ViewsStep(ids, LegsOf(db), i);
      if legs.Err? {
        ViewsErrorSticks(ids, LegsOf(db), i + 1);
        return Err(legs.error);
      }
      views := views + [ConversionView(ids[i], legs.value.0, legs.value.1)];
      i := i + 1;
    }
    assert ids[..i] == ids;
    return Ok(views);
  }
}
