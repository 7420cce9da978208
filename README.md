# StockDeal fund settlement core, modelled in Dafny

StockDeal keeps fund accounts, the holdings of each account (one per fund
code), and the buy and sell transactions recorded against them. Every trade
gets a confirmed NAV date from the trading calendar: the trade day itself
when it is a trading day and the order was placed before the 15:00 cutoff,
otherwise the next trading day. A trade whose NAV date has come is confirmed
at once. Its shares come from the NAV of that date, and the holding's cost
and share balances move. A trade whose NAV date lies in the future stays
pending until a scheduled sweep confirms it. A fund conversion is a sell leg
and a buy leg recorded together. Around this core sit:

- the fund information services: fund lookup by code, the latest quarterly
  portfolio, the period filter of the NAV history, and the intraday estimate
  built from the portfolio's stock quotes;
- the stock quote service, which reads and writes a Redis cache;
- the schema migration runner;
- the front end's query-string builder.

The project models these as follows:

- **Dates** are day numbers counted from Monday 0001-01-01, so the weekday
  of a day is its remainder modulo 7.
- **The trading calendar** is a set of days. When that set is empty,
  Monday to Friday are trading days.
- **The database** is a value `Db`: maps from ids to accounts, holdings,
  conversions and transactions, plus the id counters.
- **A database session** is the class `Store.Session`, holding the working
  state `db` and the last `committed` state. `Commit` and `Rollback` move
  one to the other.
- **Each service operation** is a method on the session. Its contract ties
  the new state and the result to a specification function of the old
  state. The lemmas prove the operation's promises about that function.
- **Amounts, NAVs and shares** are `real`.
- **External inputs become parameters:**
  - the NAV look-up of the fund data provider;
  - "today";
  - the text-to-number conversion of `float()`;
  - JSON encoding and decoding;
  - the quote provider's HTTP answer;
  - number rendering.
- **Redis** is a map from keys to strings, plus a `Link` that says whether
  a client exists and whether it answers.

Modules: `Settlement`, `TradingCalendar`, `Models`, `Store`,
`HoldingService`, `HoldingRecords`, `ConversionService`, `AccountService`,
`FundService`, `FundEstimate`, `StockSymbols`, `StockQuotes`, `Cache`,
`Migration`, `QueryString`, and the helpers `Parsing`, `Strings`, `Dicts`,
`JsonValues` and `Wrappers`.

The per-row isolation of the pending-trade sweep is described for the system
but not implemented. Each settled row is written in the loop of
`confirm_pending_transactions` (app/services/fund/fund_holding_service.py:186-241),
and any failure there raises before the one commit at line 243. So one bad
row (no NAV yet, a sell larger than the holding) aborts the whole sweep, and
every row stays pending. The scheduler only logs the error
(app/services/scheduler.py:55-56). The model follows the code:
`HoldingService.SweepOutcome` is `Err` as soon as one matured row fails, and
`HoldingService.ConfirmPendingTransactions` then commits nothing.

## Model

| member | source | states |
|---|---|---|
| Settlement.WeekdayFallbackResolves | app/services/trading_calendar.py:15-16 | With an empty calendar (Monday to Friday fallback), every trade date and cutoff flag has a confirmed NAV date. |
| Settlement.ScanTradingDay | app/services/fund/fund_holding_service.py:423-426 | The forward scan stops at a trading day between the start and the bound, and no earlier day in that range is a trading day. |
| Settlement.ConfirmedNavDate | app/services/fund/fund_holding_service.py:417-426 | The result is the trade date when the trade date is a trading day and the order is before the cutoff, and otherwise the first trading day after the trade date. |
| Settlement.NavDateUnique | app/services/fund/fund_holding_service.py:417-426 | Any day meeting that definition is the confirmed NAV date, so the rule has exactly one answer. |
| Settlement.ResolveConfirmedNavDate | app/services/fund/fund_holding_service.py:417-426 | The day-by-day loop returns exactly the confirmed NAV date of the definition. |
| Settlement.NavDateBounds | app/services/fund/fund_holding_service.py:417-426 | The NAV date is a trading day on or after the trade date, and equals the trade date exactly when the trade date is a trading day and the order is before the cutoff. |
| Settlement.NavDateWithinThreeDays | app/services/trading_calendar.py:15-16 | Under the weekday fallback a NAV date is at most three days after the trade date (Friday after the cutoff gives Monday). |
| Settlement.NavDateMonotonic | app/services/fund/fund_holding_service.py:417-426 | A later trade, or the same day with the cutoff passed, never gets an earlier NAV date. |
| Settlement.CutoffIrrelevantOnClosedDays | app/services/fund/fund_holding_service.py:421-426 | On a non-trading day the cutoff flag does not change the NAV date. |
| Settlement.ResolveTradeTime | app/services/fund/fund_holding_service.py:429-434 | The trade time lies on the trade date, at 15:01 after the cutoff and at 14:59 before it, so it is after 15:00 exactly when the flag is set. |
| Settlement.TradeTimeInjective | app/services/fund/fund_holding_service.py:429-434 | The stored trade time determines both the trade date and the cutoff flag. |
| Settlement.ResolveTradeStatus | app/services/fund/fund_holding_service.py:437-441 | The status is pending exactly when the NAV date is after today, and confirmed exactly when it is today or earlier. |
| Settlement.ResolveFeePercent | app/services/fund/fund_holding_service.py:264-266 | A fee percent given with the trade is used as is. Without one, a buy uses the account's default buy fee and a sell uses 0. |
| Settlement.ShareBase | app/services/fund/fund_holding_service.py:292-293 | The amount turned into shares plus the fee amount equals the trade amount. |
| Settlement.ShareBasePositive | app/services/fund/fund_holding_service.py:292-295 | For a positive amount the share base is positive exactly when the fee percent is below 100. |
| Settlement.ApplyDelta | app/services/fund/fund_holding_service.py:401-412 | A buy adds the amount and shares to the holding and a sell subtracts them. Account and fund code are kept. |
| Settlement.DeltaInverse | app/services/fund/fund_holding_service.py:401-412 | Applying a trade and then the opposite trade of the same size restores the holding. |
| Settlement.CheckedDeltaStaysNonNegative | app/services/fund/fund_holding_service.py:311-317 | A non-negative holding stays non-negative after a buy of non-negative size, or after a sell that the balance check let through. |
| TradingCalendar.WeekdayGap | app/services/trading_calendar.py:15-16 | Under the weekday fallback the next trading day is 1 to 3 days ahead, with none in between. |
| TradingCalendar.ColumnValues | app/services/trading_calendar.py:37-38 | Reading a column by name returns the values of its first column of that name. |
| TradingCalendar.PreferredColumnName | app/services/trading_calendar.py:36-37 | The chosen name is the first of `trade_date`, `date`, `交易日期`, `交易日` that the frame has, and every name before it is absent. No name is chosen only when the frame has none of the four. |
| TradingCalendar.PreferredColumnNameSkips | app/services/trading_calendar.py:36-38 | Names the frame lacks are skipped without changing the choice. |
| TradingCalendar.SeriesPrefersEarlierNames | app/services/trading_calendar.py:35-39 | When the k-th preferred name is the first one present, the series is that column's values. |
| TradingCalendar.ExtractTradeDateSeries | app/services/trading_calendar.py:35-39 | The series is the first preferred column the frame has. Without any of them it is the frame's first column. There is no series only for a frame with no columns, where `iloc[:, 0]` raises. |
| TradingCalendar.LoadTradeDates | app/services/trading_calendar.py:27-32 | An empty frame gives no trade dates. Otherwise the result is the set of dates in the chosen series. |
| TradingCalendar.TradeDateCache.GetTradeDates | app/services/trading_calendar.py:20-24 | The first call loads and memoises the dates. Later calls return the memo unchanged. |
| TradingCalendar.TradeDateCache.IsTradingDayCached | app/services/trading_calendar.py:12-17 | The answer is the trading-day test against the memoised calendar, which is loaded once if missing. |
| Parsing.ParseFloat | app/utils/parsing.py:8-17 | None, the empty string, NaN and booleans give no number. Numbers are returned as they are. Other text and other values' `str()` go to `float()` with commas removed and edge whitespace stripped. |
| Parsing.ParsePercent | app/utils/parsing.py:20-34 | None, NaN and unsupported values give no number. A boolean gives 1 or 0. Numbers are returned as they are. Text goes to `float()` with `%` and commas removed and edge whitespace stripped. |
| Parsing.PercentTextIsFloatText | app/utils/parsing.py:8-34 | On text that is not only `%` signs, the percent parser is the float parser applied to the text without `%`. The text handed to `float()` holds no `%` and no comma. |
| Parsing.NormalisedTextParsesAlike | app/utils/parsing.py:15 | Removing thousands separators and edge whitespace before conversion gives the same number as the normalised text. |
| Parsing.PercentAgreesWithFloat | app/utils/parsing.py:8-34 | On numbers, None, NaN and text without `%`, the percent parser and the float parser agree. |
| Models.ColumnDefaults | app/models/db/models.py:117-122 | New accounts have fee 0, new holdings have zero balances, and new transactions are confirmed with zero fee. |
| Models.FindHoldingFrom | app/services/fund/fund_holding_service.py:269-278 | The holding search finds the lowest id of a holding with the given account and code, or reports that none exists. |
| Models.FindHoldingExact | app/models/db/models.py:52-54 | Under the (account, fund code) uniqueness constraint, the lookup finds the one matching holding, and finds none exactly when none exists. |
| Models.SelectAsc | app/services/fund/fund_holding_service.py:173-182 | The selection holds exactly the ids of rows passing the filter, in strictly ascending order. |
| Models.SelectDesc | app/services/fund/fund_holding_service.py:162-165 | The selection holds exactly the ids of rows passing the filter, in strictly descending order. |
| Models.CodeFilter | app/services/fund/fund_holding_service.py:163-164 | A fund-code filter applies only when given and non-empty, and then it is the stripped code. |
| Models.DeleteHolding | app/models/db/models.py:70-75 | Deleting a holding removes it and exactly its transactions. Everything else is kept unchanged. |
| Models.DeleteConversion | app/models/db/models.py:96-101 | Deleting a conversion removes it and exactly the transactions linked to it. Accounts and holdings are kept. |
| Models.DeleteAccount | app/models/db/models.py:28-45 | Deleting an account cascades to its holdings and conversions, and to every transaction of the account or of those holdings and conversions. Other rows survive unchanged. |
| Models.DeletesKeepWellFormed | app/models/db/models.py:28-75 | All three cascading deletes preserve the ids-below-counters and one-holding-per-code invariants. |
| HoldingService.ApplyHoldingChange | app/services/fund/fund_holding_service.py:401-414 | The holding is changed by the trade even when the check then fails. Ok exactly when the new balances are non-negative, and nothing is committed. |
| HoldingService.ConfirmAgainstHolding | app/services/fund/fund_holding_service.py:303-317 | The confirmation step's new state, NAV and shares are those of `ConfirmOutcome` for the old state, and nothing is committed. |
| HoldingService.ResolveHolding | app/services/fund/fund_holding_service.py:268-290 | On success the returned id names a holding of the account and code, and transactions are untouched. |
| HoldingService.RecordAgainstHolding | app/services/fund/fund_holding_service.py:292-336 | The share-base check, optional confirmation and row insert produce exactly `RecordOutcome` of the old state. |
| HoldingService.CreateTransactionRecord | app/services/fund/fund_holding_service.py:247-341 | The new state and id are exactly `CreateOutcome` of the old state. It commits only on success when asked to. |
| HoldingService.CreateTransaction | app/services/fund/fund_holding_service.py:131-150 | On success the recorded state is committed. On failure the session is rolled back to the old state. |
| HoldingService.SellWithoutHoldingFails | app/services/fund/fund_holding_service.py:280-281 | A sell for a fund the account does not hold fails with holding-not-found. |
| HoldingService.ShareBaseCheckedBeforeNav | app/services/fund/fund_holding_service.py:292-298 | A fee of 100 percent or more is rejected before any NAV is consulted. |
| HoldingService.CreateAddsOneRow | app/services/fund/fund_holding_service.py:319-336 | A recorded trade adds exactly one transaction under the next id and leaves accounts, conversions and other rows alone. |
| HoldingService.RecordedRow | app/services/fund/fund_holding_service.py:319-334 | The stored row carries the settlement NAV date, the status (pending iff that date is after today), the cutoff trade time, the resolved fee and its amount, the stripped code, and a holding of the same account and code. |
| HoldingService.PendingTradeLeavesHoldings | app/services/fund/fund_holding_service.py:298-303 | A pending trade stores zero NAV and shares and leaves every existing holding unchanged. |
| HoldingService.PendingSellSkipsBalanceCheck | app/services/fund/fund_holding_service.py:303-317 | A pending sell is accepted whatever the holding's balance. |
| HoldingService.ConfirmedTradeMovesHolding | app/services/fund/fund_holding_service.py:303-317 | A confirmed trade stores the provider's positive NAV and shares with shares times NAV equal to the share base. Its holding moves by exactly the trade, and a sell never exceeds the holding. |
| HoldingService.ResolvedHoldingStart | app/services/fund/fund_holding_service.py:282-290 | The resolved holding is the existing one, or a fresh zero holding. |
| HoldingService.ConfirmMovesHolding | app/services/fund/fund_holding_service.py:304-317 | Confirmation uses the provider's positive NAV, divides the share base by it, and moves only the given holding by the trade. |
| HoldingService.OversizedSellRejected | app/services/fund/fund_holding_service.py:311-313 | A confirmed sell larger than the holding's amount is rejected. |
| HoldingService.BuyOpensHolding | app/services/fund/fund_holding_service.py:282-290 | A buy for a new code opens a holding under the next holding id. It is empty while pending and holds exactly the trade once confirmed. |
| HoldingService.CreateKeepsInvariants | app/services/fund/fund_holding_service.py:247-341 | Recording a trade preserves well-formedness and non-negative holdings. |
| HoldingService.ResolveHoldingKeepsInvariants | app/services/fund/fund_holding_service.py:268-290 | Holding resolution keeps the invariants. It either reuses the matching holding or adds one fresh holding. |
| HoldingService.ConfirmKeepsInvariants | app/services/fund/fund_holding_service.py:303-317 | A successful confirmation keeps the invariants and the set of holdings. |
| HoldingService.SweepHolding | app/services/fund/fund_holding_service.py:188-209 | The row's holding is the one it references when that exists. Otherwise it is the first holding of the row's (account, fund code) pair, with nothing changed. Otherwise it is a new empty holding under the next id, and the row is linked to it. Accounts, conversions and every other transaction are unchanged. |
| HoldingService.SettleRow | app/services/fund/fund_holding_service.py:188-241 | Settling a matured row confirms it with its NAV and shares and changes no other row. The holding `SweepHolding` picks for it moves by the row's amount and those shares, and no other holding, account or conversion changes. |
| HoldingService.SweepUpTo | app/services/fund/fund_holding_service.py:186-241 | After the first i ids, rows at or above i and rows not matured are unchanged. |
| HoldingService.SweepVisit | app/services/fund/fund_holding_service.py:187-241 | Visiting id i changes no row above i and no unmatured row. |
| HoldingService.SweepSettle | app/services/fund/fund_holding_service.py:187-241 | Settling id i changes no row above i and no unmatured row. |
| HoldingService.SweepErrorSticks | app/services/fund/fund_holding_service.py:213-229 | Once a row fails, the sweep's result is that failure, whatever rows follow. |
| HoldingService.SweepWithoutMatured | app/services/fund/fund_holding_service.py:183-184 | With no matured row below i the sweep changes nothing and counts zero. |
| HoldingService.NothingMaturedSweepsNothing | app/services/fund/fund_holding_service.py:183-184 | With no pending row whose NAV date has come, the sweep returns 0 and the state unchanged. |
| HoldingService.SweepSettledCount | app/services/fund/fund_holding_service.py:241 | Each settled row adds one to the count. |
| HoldingService.SweepSettledRow | app/services/fund/fund_holding_service.py:231-240 | Settling row i confirms it and changes no other row. |
| HoldingService.SweepSettledHolding | app/services/fund/fund_holding_service.py:188-239 | Settling row i moves exactly the holding `SweepHolding` picks for it, by the row's amount and confirmed shares. Accounts and conversions are unchanged. |
| HoldingService.SweepHoldingAvoids | app/services/fund/fund_holding_service.py:188-209 | A row that neither references a holding nor is of its (account, fund code) pair never settles against it. |
| HoldingService.SweepStepKeepsOtherHoldings | app/services/fund/fund_holding_service.py:187-241 | One settle step keeps every holding, and the holdings out of the sweep's reach keep their values. |
| HoldingService.SweepKeepsOtherHoldings | app/services/fund/fund_holding_service.py:186-243 | A successful sweep removes no holding and changes no account or conversion. A holding that no matured row references or shares a pair with is left as it was. |
| HoldingService.SweepCountsMatured | app/services/fund/fund_holding_service.py:186-244 | The count after the first i ids is the number of matured rows among them. |
| HoldingService.SweepSettlesMatured | app/services/fund/fund_holding_service.py:231-240 | Every matured row below i ends up settled. |
| HoldingService.SweepSettlesSelected | app/services/fund/fund_holding_service.py:170-244 | A successful sweep returns the number of matured rows and settles exactly them. Every other row is unchanged. |
| HoldingService.SweepIdempotent | app/services/fund/fund_holding_service.py:173-182 | Right after a successful sweep nothing is matured, and a second sweep does nothing. |
| HoldingService.SweepHoldingKeepsInvariants | app/services/fund/fund_holding_service.py:188-209 | Finding or creating the row's holding keeps the invariants. |
| HoldingService.SettleRowKeepsInvariants | app/services/fund/fund_holding_service.py:211-240 | Settling one row keeps the invariants. |
| HoldingService.SweepKeepsInvariants | app/services/fund/fund_holding_service.py:186-243 | Every prefix of a successful sweep keeps the invariants. |
| HoldingService.SettleMaturedRow | app/services/fund/fund_holding_service.py:188-241 | The imperative settlement of one row produces exactly `SettleRow` of the old state, and nothing is committed. |
| HoldingService.VisitRow | app/services/fund/fund_holding_service.py:187-241 | One loop step advances the sweep specification to i+1, or returns the sweep's error. |
| HoldingService.ConfirmPendingTransactions | app/services/fund/fund_holding_service.py:170-244 | The job's state and count are exactly `SweepOutcome` of the old state. It commits only when the sweep succeeds and something had matured. |
| HoldingRecords.CreateHolding | app/services/fund/fund_holding_service.py:24-89 | The new state and id are exactly `CreateHoldingOutcome`. A success is committed, and a failure leaves the state alone. |
| HoldingRecords.OpenedHolding | app/services/fund/fund_holding_service.py:53-86 | Opening a position adds one holding, with cost equal to the total amount and shares equal to (amount + profit) over the latest NAV. It adds one confirmed opening buy with zero fee, the snapshot's NAV and date, and a 14:59 trade time. |
| HoldingRecords.DuplicateHoldingRejected | app/services/fund/fund_holding_service.py:33-45 | A second holding for the same account and code is refused. |
| HoldingRecords.CreateHoldingKeepsWellFormed | app/services/fund/fund_holding_service.py:44-65 | Opening a position keeps the ids below the counters and one holding per code. |
| HoldingRecords.NegativeCostAccepted | app/services/fund/fund_holding_service.py:53-63 | With a total amount of -5 and a profit of 10, the source accepts the request and stores a negative cost. |
| HoldingRecords.UpdateHoldingOutcome | app/services/fund/fund_holding_service.py:109-116 | The update succeeds exactly when the holding exists and both balances are non-negative, and the error names which check failed. |
| HoldingRecords.UpdateSetsBalances | app/services/fund/fund_holding_service.py:115-116 | An update sets exactly the two balances of that holding. Everything else is kept. |
| HoldingRecords.UpdateKeepsInvariants | app/services/fund/fund_holding_service.py:112-116 | An update keeps well-formedness and non-negative holdings. |
| HoldingRecords.UpdateHolding | app/services/fund/fund_holding_service.py:103-119 | The session ends in `UpdateHoldingOutcome` of the old state, committed on success and unchanged on error. |
| HoldingRecords.RemoveHolding | app/services/fund/fund_holding_service.py:122-128 | Deletion succeeds exactly when the holding exists. It commits the cascading delete, and otherwise reports holding-not-found and changes nothing. |
| HoldingRecords.ListTransactions | app/services/fund/fund_holding_service.py:153-167 | An unknown account is an error. Otherwise the listing holds exactly the account's transactions, filtered by the stripped code when one is given, newest id first. |
| HoldingRecords.ListingWithoutCode | app/services/fund/fund_holding_service.py:162-165 | Without a code, or with an empty one, every transaction of the account is listed. |
| ConversionService.CreateConversion | app/services/fund/fund_conversion_service.py:13-66 | The session ends in `ConversionOutcome`: committed with the conversion and both legs on success, and unchanged on error. |
| ConversionService.ConversionNeedsAccount | app/services/fund/fund_conversion_service.py:18-20 | A conversion fails exactly when the account is unknown or a leg fails. An unknown account gives account-not-found. |
| ConversionService.ConversionLegs | app/services/fund/fund_conversion_service.py:22-61 | A conversion adds one conversion row and two legs under consecutive ids (sell first, then buy), with the same NAV date and linked to the conversion. Accounts are untouched. |
| ConversionService.ConversionKeepsInvariants | app/services/fund/fund_conversion_service.py:36-63 | A conversion keeps well-formedness and non-negative holdings. |
| ConversionService.LegIds | app/models/db/models.py:96-101 | Every listed id is a transaction linked to the conversion. |
| ConversionService.FirstOfType | app/services/fund/fund_conversion_service.py:120-127 | The result is the first leg of the requested type in list order, or none when there is no such leg. |
| ConversionService.ResolveConversionTransactions | app/services/fund/fund_conversion_service.py:117-130 | Success exactly when both a sell and a buy leg exist. It returns one of each, and otherwise gives conversion-incomplete. |
| ConversionService.ConversionRoundTrip | app/services/fund/fund_conversion_service.py:36-61 | Reading back a newly created conversion finds exactly its two legs, sell and buy. |
| ConversionService.ViewsResolveEach | app/services/fund/fund_conversion_service.py:91-114 | The listing succeeds exactly when every conversion resolves, carries the first failure otherwise, and pairs each id with its legs in order. |
| ConversionService.AccountConversionIds | app/services/fund/fund_conversion_service.py:88-89 | Exactly the account's conversion ids, newest first. |
| ConversionService.ConversionListing | app/services/fund/fund_conversion_service.py:83-114 | An unknown account gives account-not-found. |
| ConversionService.ListingFailsOnIncomplete | app/services/fund/fund_conversion_service.py:92-95 | For a known account, listing fails exactly when some conversion lacks a leg, and the error is conversion-incomplete. |
| ConversionService.ListingContents | app/services/fund/fund_conversion_service.py:88-114 | A successful listing shows every conversion of the account exactly once, newest first, each with its resolved sell and buy legs. |
| ConversionService.ListConversions | app/services/fund/fund_conversion_service.py:83-114 | The loop returns exactly the listing specification. |
| AccountService.UpdateAccountOutcome | app/services/fund/fund_account_service.py:62-70 | The update succeeds exactly when the account exists. It changes only that account, and otherwise gives account-not-found. |
| AccountService.UpdateChangesOnlyGivenFields | app/services/fund/fund_account_service.py:65-70 | Each given field replaces the stored one, and every absent field is kept. A remark is never cleared. |
| AccountService.UpdateIdempotent | app/services/fund/fund_account_service.py:65-70 | Applying the same update twice equals applying it once, and an empty update changes nothing. |
| AccountService.UpdateAccount | app/services/fund/fund_account_service.py:56-72 | The session ends in `UpdateAccountOutcome`, committed on success and unchanged on error. |
| AccountService.ValuationNav | app/services/fund/fund_account_service.py:142-145 | The valuation uses the estimated NAV when it parses, and otherwise the last published NAV. |
| AccountService.PositionValuation | app/services/fund/fund_account_service.py:141-165 | A position copies the holding and uses the valuation NAV. Value is shares times NAV, profit is value minus cost, and the percent is profit over cost when cost is positive. |
| AccountService.BuildAccountSummary | app/services/fund/fund_account_service.py:168-193 | Total cost is the sum of costs. A total value exists only for a non-empty, fully valued list. Profit is value minus cost, and the percent exists only for positive cost. |
| AccountService.ProfitIsSumOfProfits | app/services/fund/fund_account_service.py:176-184 | For consistent, fully valued positions, total value minus total cost is the sum of the positions' profits. |
| AccountService.SummaryProfitAddsUp | app/services/fund/fund_account_service.py:184 | The summary's profit equals the sum of the per-position profits. |
| AccountService.PositionsOf | app/services/fund/fund_account_service.py:138 | One position per holding id, in the same order, built from that holding's estimate. |
| AccountService.ListAccountHoldings | app/services/fund/fund_account_service.py:128-138 | An unknown account is an error. Otherwise every holding of the account matching the code filter appears exactly once as its position, in ascending id. |
| AccountService.OneHoldingPerCode | app/services/fund/fund_account_service.py:135-137 | Filtering by a code lists at most one holding. |
| FundService.FirstMatch | app/services/fund/fund_service.py:37-42 | The result is the first row with the given code, or none exactly when no row has it. |
| FundService.ResolveFundByCode | app/services/fund/fund_service.py:33-47 | The corrected lookup finds the first row whose code is the stripped input, and gives fund-not-found otherwise, including for an empty fund list. |
| FundService.EmptyFundListRaisesKeyError | app/services/fund/fund_service.py:35-37 | The lookup as written fails with a missing column on an empty fund list, where fund-not-found is meant. It agrees with the corrected lookup on every real table. |
| FundService.ResolveIgnoresEdgeSpace | app/services/fund/fund_service.py:36 | Stripping the code before the lookup changes nothing. |
| FundService.HighestQuarterIsHighest | app/services/fund/fund_service.py:100-103 | The quarter found is the highest k whose mark "k季度" occurs, or none when no mark occurs. |
| FundService.QuarterOfSpec | app/services/fund/fund_service.py:94-103 | A description yields a quarter exactly when it is text containing "YYYY年" and some quarter mark, and the quarter is the highest mark present. |
| FundService.QuarterDescriptionRoundTrip | app/services/fund/fund_service.py:94-103 | "YYYY年" followed by the mark of quarter q is read back as q. |
| FundService.ExtractQuarter | app/services/fund/fund_service.py:94-103 | The loop from quarter 4 downwards returns exactly the quarter of the specification. |
| FundService.LatestQuarter | app/services/fund/fund_service.py:112-116 | The latest quarter is one some row describes and is at least every described quarter. It is none when no row names the year. |
| FundService.RowsNaming | app/services/fund/fund_service.py:117-119 | The kept rows are exactly those whose quarter text contains the mark. |
| FundService.RowsNamingConcat | app/services/fund/fund_service.py:117-119 | The filter keeps the table's order: filtering two tables in sequence gives the first's rows followed by the second's. |
| FundService.HoldingsOfYear | app/services/fund/fund_service.py:106-119 | A year with no quarter gives none. Otherwise the result is exactly the rows whose quarter text contains `"{year}年{latest}季度"`, in their order, and every kept row is of the year's latest quarter. |
| FundService.NamingLatestIsLatest | app/services/fund/fund_service.py:116-119 | A row whose text names the latest quarter is of that quarter. |
| FundService.LatestQuarterHoldings | app/services/fund/fund_service.py:122-129 | The current year's latest portfolio is used when non-empty, else the previous year's, else none. A result is never empty. |
| FundService.FormatHolding | app/services/fund/fund_service.py:139-150 | The weight is shown as two decimals and "%" exactly when it converts to a number. The market value is shown with thousands separators and two decimals exactly when it converts. Quarter, stock code and stock name are their `str()`. |
| FundService.FormatHoldings | app/services/fund/fund_service.py:132-152 | No portfolio gives no rows. Otherwise each row is formatted in order. |
| FundService.LatestDay | app/services/fund/fund_service.py:252 | The latest day is some row's day and is at least every row's day. |
| FundService.RowsFrom | app/services/fund/fund_service.py:254 | Exactly the rows on or after the start day are kept. |
| FundService.RowsFromConcat | app/services/fund/fund_service.py:254 | The date filter keeps the history's order. |
| FundService.FilterHistoryByPeriod | app/services/fund/fund_service.py:234-254 | "Since inception" keeps all rows, and an empty history stays empty. |
| FundService.FilterWindow | app/services/fund/fund_service.py:243-254 | Any other period keeps the rows from (latest day minus the period's days) on. |
| FundService.FilterMembers | app/services/fund/fund_service.py:252-254 | A row is kept exactly when it lies within the window ending at the latest day. |
| FundService.LatestRowsKept | app/services/fund/fund_service.py:252-254 | Rows of the latest day are always kept, so a non-empty history stays non-empty. |
| FundService.WiderWindowKeepsMore | app/services/fund/fund_service.py:243-248 | A row kept for a shorter period is kept for every longer one. |
| FundService.FilterKeepsLatestDay | app/services/fund/fund_service.py:252-254 | Filtering keeps the latest day of the history. |
| FundService.FilterIdempotent | app/services/fund/fund_service.py:234-254 | Filtering twice by the same period equals filtering once. |
| FundEstimate.StockChangePercents | app/services/fund/fund_service.py:182-190 | No codes gives an empty map. A value or runtime error maps every code to no change, and other errors propagate. Otherwise each quoted code maps to its change percent. |
| FundEstimate.ChangePercentsFromQuoteService | app/services/fund/fund_service.py:186-190 | Fed from the quote service, the change map covers every code. An unrecognised code makes every change absent. |
| FundEstimate.Contribution | app/services/fund/fund_service.py:213-218 | A contribution exists exactly when both weight and change are known. |
| FundEstimate.DetailOf | app/services/fund/fund_service.py:206-228 | The detail takes the stock's change from the map. Its contribution is missing exactly when the weight does not parse or the change is missing. |
| FundEstimate.DetailsOf | app/services/fund/fund_service.py:206-228 | One detail per portfolio row, in order. |
| FundEstimate.StockCodes | app/services/fund/fund_service.py:199 | The codes are the portfolio rows' stock codes rendered as text, in order. |
| FundEstimate.SkippedCodesSpec | app/services/fund/fund_service.py:213-214 | The skipped codes are exactly those of details without a contribution. |
| FundEstimate.GrowthAbsentIffAllSkipped | app/services/fund/fund_service.py:230 | The estimated growth is missing exactly when every stock was skipped. |
| FundEstimate.SkippedCountsMissing | app/services/fund/fund_service.py:213-230 | Every stock is skipped exactly when no detail has a contribution. |
| FundEstimate.TotalNonNegative | app/services/fund/fund_service.py:216-217 | Non-negative contributions sum to a non-negative total. |
| FundEstimate.QuoteFailureSkipsEverything | app/services/fund/fund_service.py:186-214 | When the quote service fails with a value or runtime error, every stock is skipped and no growth is given. |
| FundEstimate.EstimateStep | app/services/fund/fund_service.py:213-218 | One more detail appends its code to the skipped list or adds its contribution to the total. |
| FundEstimate.Tally | app/services/fund/fund_service.py:213-218 | The loop's running skipped list, total and any-valid flag follow the specification after each detail. |
| FundEstimate.EstimateFromHoldings | app/services/fund/fund_service.py:193-231 | No portfolio gives an empty estimate, and quote errors propagate. Otherwise there is one detail per row, and growth and skipped codes follow from the details. |
| FundEstimate.EstimateRows | app/services/fund/fund_service.py:206-231 | The loop's details are exactly the specified details, and the estimate is the one derived from them. |
| FundEstimate.EstimatedNav | app/services/fund/fund_service.py:333-336 | An estimated NAV exists exactly when the last NAV parses and a growth exists. |
| FundEstimate.EstimatedNavFollowsGrowth | app/services/fund/fund_service.py:336 | The estimate is NAV times (1 + growth/100). Zero growth keeps the NAV, positive growth raises it, negative growth lowers it, and the implied growth is the given one. |
| StockSymbols.NormalizeIdempotent | app/services/stock/stock_service.py:15-16 | Normalising a code twice equals normalising once. |
| StockSymbols.ResolveMarket | app/services/stock/stock_service.py:19-25 | Five pure digits is a Hong Kong share and six is an A share. Anything else is an unrecognised-code error. |
| StockSymbols.BuildNowapiSymbol | app/services/stock/stock_service.py:28-45 | The symbol is an exchange prefix plus the pure digits. HK uses "hk". An explicit SH/SZ/BJ prefix is kept. Otherwise a leading 0 or 3 gives "sz", 8 or 4 gives "bj", and anything else "sh". |
| StockSymbols.GetNowapiConfig | app/services/stock/stock_service.py:48-54 | The configuration is missing exactly when the app key or sign is blank. Otherwise it returns the three values stripped. |
| StockSymbols.DictRowQuote | app/services/stock/stock_service.py:119-124 | A key of `lists` has a quote exactly when the last member under that key, the one the decoded dict keeps, is an object. |
| StockSymbols.QuotesOfUnique | app/services/stock/stock_service.py:118-124 | The map the loop builds never holds a key twice. |
| StockSymbols.LookupDictQuotes | app/services/stock/stock_service.py:119-124 | In a dict without repeated keys, a key's quote is the quote of its item when that item is an object, and none otherwise. |
| StockSymbols.DictQuotesAppend | app/services/stock/stock_service.py:119-124 | One more dict item adds its own quote, if any, at the end. |
| StockSymbols.QuotesOfUniqueDict | app/services/stock/stock_service.py:118-124 | Over the items of a dict, the loop's assignments only append, so the loop builds the object items' quotes in the dict's order. |
| StockSymbols.QuotesMatchRows | app/services/stock/stock_service.py:115-125 | The quote table of `lists` is built over the decoded dict. It has unique keys, maps each key to the quote of the member the dict keeps, and is what the loop builds. |
| StockSymbols.RepeatedKeyKeepsFirstPosition | app/services/stock/stock_service.py:119 | A key repeated in `lists` keeps the position of its first member, so it is listed before a key first seen later. |
| StockSymbols.LastNonObjectMemberSkipped | app/services/stock/stock_service.py:120-121 | A key whose last member is not an object gives no quote, even if an earlier member under it was one. |
| StockSymbols.NowapiQuotes | app/services/stock/stock_service.py:106-125 | An unsuccessful payload or a missing result object gives the matching error. Otherwise the quotes are the object items of the decoded `lists` dict, in the dict's order, with unique keys. |
| StockSymbols.ExtractNowapiQuotes | app/services/stock/stock_service.py:106-125 | The loop over the decoded dict's items returns exactly the specified quotes. |
| StockSymbols.ExtractNowapiQuote | app/services/stock/stock_service.py:99-103 | A single quote is the first quote of the decoded dict's order, an empty quote when there is none, or the payload's error. |
| StockSymbols.PrefixedCode | app/services/stock/stock_service.py:19-44 | "SH"/"SZ"/"BJ" plus six digits is an A share whose symbol is the lower-case prefix plus the digits. |
| StockSymbols.BareCode | app/services/stock/stock_service.py:19-38 | Bare five digits map to "hk". Bare six digits map to "sh" for 6, "sz" for 0 or 3, and "bj" for 8 or 4. |
| StockQuotes.FromCache | app/services/stock/stock_service.py:140-146 | A cached entry becomes a quote for the requested code with the cached market, defaulting to the resolved one. A malformed entry gives bad-cached-quote. |
| JsonValues.Get | app/services/stock/stock_service.py:109-115 | `dict.get` on decoded JSON gives the last member with the key, since a repeated key overwrites the earlier one, or none when no member has it. |
| JsonValues.GetAppend | app/services/stock/stock_service.py:109-115 | Appending a member changes only the reading of its own key. |
| JsonValues.AsDict | app/services/stock/stock_service.py:96 | The dict decoded from an object's members has no repeated key, and it is empty exactly when there are no members. |
| JsonValues.AsDictLookup | app/services/stock/stock_service.py:96 | Looking a key up in the decoded dict reads the same value as `Get` on the members. |
| JsonValues.GetUnique | app/services/stock/stock_service.py:143-145 | A key held by exactly one member reads as that member's value. |
| StockQuotes.CachePayloadRoundTrip | app/services/stock/stock_service.py:160-166 | A quote written to the cache reads back as the same quote. |
| StockQuotes.Symbols | app/services/stock/stock_service.py:153 | One provider symbol per pending code, in order. |
| StockQuotes.PartitionCodes | app/services/stock/stock_service.py:135-150 | The first pass over the codes returns exactly the partition specification. |
| StockQuotes.PartitionOutcome | app/services/stock/stock_service.py:135-137 | The first pass succeeds exactly when every code has a plan, and otherwise fails with some code's error. |
| StockQuotes.PartitionCovers | app/services/stock/stock_service.py:135-150 | Every code is either answered from cache or pending once with its request. |
| StockQuotes.RequestQuotes | app/services/stock/stock_service.py:152-154 | The provider call returns exactly the fetch specification. |
| StockQuotes.SettlePending | app/services/stock/stock_service.py:155-172 | Pending codes get their fetched quotes and are written to the cache. The output and cache are exactly as specified. |
| StockQuotes.SettleCovers | app/services/stock/stock_service.py:155-172 | The output has exactly the cached and pending codes, and pending codes get their fetched quote. |
| StockQuotes.GetStockRealtimeQuotes | app/services/stock/stock_service.py:128-174 | The answer and the new cache are exactly `RealtimeQuotes` of the old cache, and an error leaves the cache unchanged. |
| StockQuotes.AnswersFollowPlans | app/services/stock/stock_service.py:135-172 | Every code is answered according to its plan, cached or fetched, and no other code appears. |
| StockQuotes.QuotesAnswerEveryCode | app/services/stock/stock_service.py:128-174 | A successful batch answers every requested code according to its cache or provider plan. |
| StockQuotes.RequestedSymbols | app/services/stock/stock_service.py:152-153 | The provider is asked for exactly the symbols of the codes that missed the cache. |
| StockQuotes.FullyCachedBatch | app/services/stock/stock_service.py:140-152 | When every code is cached, nothing is fetched and the cache is unchanged. |
| StockQuotes.UnrecognisedCodeFailsBatch | app/services/stock/stock_service.py:136-137 | One unrecognised code fails the whole batch with a value error. |
| StockQuotes.PlanErrors | app/services/stock/stock_service.py:136-146 | An unrecognised code has no plan, and every planning error is a value or runtime error. |
| StockQuotes.CacheWritesFootprint | app/services/stock/stock_service.py:166 | Writes touch only the keys of the fetched codes. With a healthy link each such key is written, and without one the cache is unchanged. |
| Cache.CacheKeyInjective | app/services/cache.py:31-32 | Within one family, keys are equal exactly when the codes are equal. |
| Cache.CacheFamiliesDisjoint | app/services/cache.py:16-32 | Keys of two different families never collide, and none equals the fund-list key. |
| Cache.ReadJson | app/services/cache.py:76-91 | A read gives a value exactly when the link is healthy, the key holds a non-empty string, and it decodes. |
| Cache.WriteJson | app/services/cache.py:94-106 | A write changes at most the one key, and every other entry is kept. |
| Cache.WriteKeepsOtherKeys | app/services/cache.py:94-106 | Writing one key never changes what is read under another. |
| Cache.RedisCache.SetJsonCache | app/services/cache.py:94-106 | The stored entries become the write specification of the old ones. |
| Cache.Typed | app/services/cache.py:115-117 | A cached value is used only when it has the expected JSON kind. |
| Cache.ReadAfterWrite | app/services/cache.py:109-128 | With a healthy link and a lossless encoding, a value written is read back unchanged. |
| Cache.RedisCache.GetOrSetJsonCache | app/services/cache.py:109-128 | The loader runs exactly when no cached value of the right kind is readable. A hit returns it and writes nothing. A miss returns the loaded value and stores it when it has the right kind. |
| Cache.RedisCache.GetOrSetCache | app/services/cache.py:35-48 | A hit returns the cached value without loading or writing. A miss returns the loaded value, stored unless the predicate refuses it. |
| Cache.RedisCache.GetStockQuoteCache | app/services/cache.py:173-181 | Without a loader it only reads a dict entry. With a loader, the loader runs exactly when no dict is readable under the stock's key. A hit returns that dict and writes nothing. A miss returns the loaded value and stores it only when it is a dict. |
| Cache.RedisCache.GetFundListCache | app/services/cache.py:136-146 | The fund list comes from the cache or the loader, and only a load writes. An empty list becomes a frame without columns. |
| Migration.Pending | app/db_migration.py:55-57 | The pending list is never longer than the migration list. |
| Migration.PendingMembers | app/db_migration.py:55-57 | Exactly the unapplied migrations are pending. |
| Migration.NothingPendingAfterRun | app/db_migration.py:53-61 | After the pending migrations are recorded, nothing is pending. |
| Migration.DistinctListHasDistinctPending | app/db_migration.py:55-60 | A list without repeated versions has no repeated pending version. |
| Migration.ShippedMigrations | app/db_migration.py:31-33 | The shipped list has no repeats. A fresh database has exactly "0001_initial" pending, and afterwards nothing. |
| Migration.MigrationDb.AppliedVersions | app/db_migration.py:41-44 | Reading the applied versions creates the table if needed and returns the recorded versions unchanged. |
| Migration.MigrationDb.RunMigrations | app/db_migration.py:47-61 | With auto-migration off, nothing changes. Otherwise the run succeeds exactly when no pending version repeats, records all pending versions and runs them in order. A failure changes nothing, given transactional DDL. |
| Migration.MigrationDb.ApplyPending | app/db_migration.py:55-61 | Without a duplicate, every pending migration is run in order and recorded. A duplicate is reported exactly when the pending list repeats. |
| Migration.InsertStep | app/db_migration.py:60 | Inserting a version already recorded means the pending list repeats, and otherwise the list stays repeat-free. |
| QueryString.SetPairLookup | StockDeal/src/api/query.ts:10 | After setting a name, it reads back the new value and every other name is unchanged. |
| QueryString.SetPairKeepsKeysUnique | StockDeal/src/api/query.ts:10 | Setting a name never duplicates a name. |
| QueryString.SearchParams.Set | StockDeal/src/api/query.ts:10 | The pair list becomes the set specification of the old list. |
| QueryString.DistinctNamesAppend | StockDeal/src/api/query.ts:8-11 | Setting pairs with distinct names in turn yields the pairs as given. |
| QueryString.KeptPairsDistinct | StockDeal/src/api/query.ts:4 | Dropping nullish values keeps names distinct, and every kept name comes from the parameters. |
| QueryString.KeptExactlyTheDefined | StockDeal/src/api/query.ts:4 | Every non-nullish parameter is kept as its text, and nothing is kept exactly when all are nullish. |
| QueryString.FilterDefined | StockDeal/src/api/query.ts:4 | The loop keeps exactly the specified pairs. |
| QueryString.ObjectQuery | StockDeal/src/api/query.ts:3-13 | With something kept, the query is "?" followed by the serialized pairs. |
| QueryString.BuildQuery | StockDeal/src/api/query.ts:3-13 | The query is empty exactly when every value is null or undefined, and otherwise it starts with "?". |

## Left out

- HTTP routers, request schemas and the application start-up are not part of this model.
- Calls to the fund data provider (akshare) are not modelled: the fund list and NAV loaders, `get_fund_snapshot`, `get_fund_nav_history`, `_latest_nav_open_fund`, `_latest_nav_money_fund`, `_get_basic_info` and the cached loaders around them, and `_load_cached_list`. Their results are parameters: `env.nav` for NAVs, the snapshot function for `create_holding`, and the `fetch` function for the quarterly portfolio.
- `get_fund_realtime_estimate` is modelled only for its estimate step and the estimated NAV. The rest of its response is plain field copying.
- `_request_nowapi`, the HTTP client and its lifecycle, and `get_stock_realtime_quote` are not modelled. The provider's answer is the `fetch` parameter.
- The Redis client's lifecycle, key expiry (TTL), `warm_up_cache` with its thread pool, and the per-family getters not listed above are not modelled. Those getters are `GetOrSetJsonCache` under another key.
- The scheduler thread, concurrent sessions and lost updates between them are not modelled. One session runs at a time.
- The clock and time zone (`cst_now`, `ensure_cst`) are not modelled. "Today" is a parameter, and a trade time is a day with an hour and minute.
- Floating point is not modelled: amounts are exact reals, NaN and infinity do not occur, and rounding and number rendering are parameters.
- `pd.to_datetime` and date parsing are not modelled. Calendar frames hold days already.
- URL percent-encoding is the `encode` parameter of the query builder.
- `create_account`, `list_accounts`, `get_account_detail`, `get_account_summary`, `get_holding_detail`, `_build_transaction_response` and `_ensure_date` are not modelled. They copy rows into responses, and the summary they use is `AccountService.BuildAccountSummary`.
- The schema effect of `_migration_0001_initial` is not modelled. Running it is recorded only as its version in `ran`.
- The `created_at` and `updated_at` timestamps are not modelled.
- Rows read without `ORDER BY` are taken in ascending id order.
- Settlement.ResolveConfirmedNavDate: requires that a NAV date exists (`ResolvesNavDate`). With a non-empty calendar that has no trading day after the trade date, the source loops forever.
- HoldingService.CreateTransactionRecord: requires `ResolvesNavDate` for the same reason.
- HoldingService.CreateTransaction: requires `ResolvesNavDate`. It also requires a clean session (`db == committed`), because its rollback in the model returns to the committed state.
- ConversionService.CreateConversion: requires `ResolvesNavDate` and a clean session, for the same reasons.
- HoldingService.SweepHolding: a holding found through the (account, fund code) pair is not linked to the row. The source sets `holding_id` only when it creates a new holding (app/services/fund/fund_holding_service.py:209), and the model does the same.
- Strings.Strip, Strings.Upper and Strings.IsDigits are ASCII-only, while Python's `str.strip`, `str.upper` and `str.isdigit` follow Unicode. For example, Python also strips the ideographic space, accepts full-width digits, and upper-cases "ß" to "SS". `StockSymbols.NormalizeCode`, `StockSymbols.ResolveMarket`, `FundService.ResolveFundByCode` and the code filters can therefore differ from the source on such input.
- `fund_service.resolve_fund_nav_by_date` is called at app/services/fund/fund_holding_service.py:216 and :304, but app/services/fund/fund_service.py defines no function of that name, so as written those calls raise AttributeError. The model assumes the intended lookup: `env.nav(code, day)`, which gives None where no NAV is published.
- StockQuotes.CachedNumber: pydantic's lax coercion of cached prices is not modelled. Numeric text such as `"12.3"` and booleans are accepted by the response model but give BadCachedQuote here. Numbers and null are read as the source reads them.
- Migration.MigrationDb.RunMigrations: "a failure changes nothing" assumes transactional DDL. The default backend is MySQL (app/config.py:35-38), where `create` of the migrations table (app/db_migration.py:38) and `create_all` (app/db_migration.py:28) commit implicitly. There, a failed run can leave the table created, the schema changed and earlier versions recorded.
- HoldingRecords.CreateHolding: the cost is stored as `total_amount`, while the shares come from `total_amount + profit_amount`. No sign is checked, so a negative cost is accepted (`HoldingRecords.NegativeCostAccepted`).

## Findings

| source | as written | input that shows it | evidently intended | confidence | as-written member | corrected member |
|---|---|---|---|---|---|---|
| app/services/fund/fund_service.py:35-40 | An empty fund list is cached and rebuilt as a frame without columns, and `fund_list["基金代码"]` then raises KeyError | an empty fund list from the cache or the loader, with any code | the lookup reports fund-not-found for the code | not executed | FundService.EmptyFundListRaisesKeyError | FundService.ResolveFundByCode |
