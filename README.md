# Trading back office: data service and signal handler, in Dafny

This project models the core of a trading back office that collects what
MetaTrader terminals report and serves it to a web UI:

- the **data service** (`BusinessLogic/Repo/DataService.cs`) keeps a cache
  of exchange rates and converts amounts to US dollars. It also stores the
  deal history a terminal uploads, reads back the deals closed today, and
  records account balances with at most one snapshot per day. Finally, it
  computes the daily performance of a month and per-meta-symbol profit
  statistics;
- the **signal handler** (`BusinessLogic/BusinessObjects/ServerSignalsHandler.cs`)
  dispatches each terminal signal to the service that handles its kind. It
  also routes UI messages, and reads the dollar's official rate from the
  national bank of Belarus feed.

The data service is the class `DataServices.DataService`. Its database
tables are `seq` fields, and its rate cache is a `map` field. Each method
changes only what its `modifies` clause names. Its `ensures` ties the new
state or the result to a specification function, about which the lemmas
prove what the code promises.

The signal handler is a set of functions. They return the calls the handler
makes on its collaborators, in order, and the exception that escapes, if any.
The one object it changes in place, the UI message, is the class
`Protocol.WsMessage`.

Modelling conventions:
- C# `decimal` and `double` are `real`. `Math.Round(x, 2)` is banker's
  rounding, written out exactly.
- Unchecked `(int)` and `(sbyte)` casts are explicit two's-complement
  wrap-arounds (`Basics.ToInt32`, `Basics.ToInt8`).
- A thrown exception is a `Result.Err`, or a `raised` failure.
- Time comes in as parameters: the clock (`now`, `utcNow`), date parsing and
  formatting.
- JSON binding, the HTTP fetch and the main service's answers come in as
  parameters too.

Files: `basics.dfy`, `calendar.dfy`, `sorting.dfy`, `decimals.dfy` and
`parsing.dfy` hold the shared building blocks. `entities.dfy` and
`protocol.dfy` hold the records. `rate_cache.dfy`, `deals.dfy`,
`account_states.dfy` and `performance.dfy` specify the data service, and
`data_service.dfy` is the class. `signals_handler.dfy` holds the handler.

Where the code departs from what its own helpers or comments suggest, the
model follows the code:
- `UpdateBalance` decides whether to overwrite the latest snapshot by
  comparing days of the year only (`DataService.cs` line 228), not with
  `isSameDay` (lines 170-173). The class does the same. The calendar-day
  rule is modelled beside it, under "## Findings".
- `GetRates` reloads every rate row, retired ones included.
- On a rates update, a failure to read the national bank feed means the
  terminal's rates are not stored at all. The feed does not merely go
  without the USDBYN quote.

## Model

| member | source | states |
|---|---|---|
| DataServices.DataService.constructor | BusinessLogic/Repo/DataService.cs:34-54 | the tables are the given ones and the rate cache is the refresh of an empty cache from the rate table |
| DataServices.DataService.GetRates | BusinessLogic/Repo/DataService.cs:623-644 | a non-empty cache is returned as is unless a reread is asked for; otherwise every rate row is written into the cache under its meta-symbol, later rows overriding earlier ones |
| RateCache.RefreshedKeys | BusinessLogic/Repo/DataService.cs:631-636 | after a refresh the cache holds exactly its old keys plus the meta-symbol names of the rate rows |
| RateCache.RefreshedKeepsOthers | BusinessLogic/Repo/DataService.cs:631-636 | a cached key that no rate row names keeps its old rates |
| RateCache.RefreshedLastRow | BusinessLogic/Repo/DataService.cs:631-636 | a rate row that no later row with the same name follows decides what the refreshed cache holds under that name (the last row wins) |
| RateCache.RatesDTO | BusinessLogic/Repo/DataService.cs:725-739 | the cached rate carries the row's meta-symbol, bid and ask |
| RateCache.ConvertToUSDIdentity | BusinessLogic/Repo/DataService.cs:115-119 | dollars and zero amounts convert to themselves whatever the cache holds |
| RateCache.ConvertToUSDDirectQuoteWins | BusinessLogic/Repo/DataService.cs:120-125 | with a CURUSD quote the amount is multiplied by its bid, and the USDCUR quote is then irrelevant |
| RateCache.ConvertToUSDInverseQuote | BusinessLogic/Repo/DataService.cs:126-134 | without a direct quote the amount is divided by the USDCUR ask; a zero ask throws a division by zero |
| RateCache.ConvertToUSDReadsTwoPairs | BusinessLogic/Repo/DataService.cs:115-136 | the conversion depends only on the CURUSD and USDCUR entries of the cache |
| RateCache.ConvertToUSDAdditive | BusinessLogic/Repo/DataService.cs:115-136 | when a quote is usable, converting a sum gives the sum of the conversions |
| RateCache.FactorApplies | BusinessLogic/Repo/DataService.cs:115-136 | every successful conversion is multiplication by one factor per currency |
| RateCache.UpdatedRowsFields | BusinessLogic/Repo/DataService.cs:144-159 | the rate table keeps its length; a row changes only its ask, bid and update time; a row no quote names is unchanged; a quoted row takes the ask and bid of the first quote naming its meta-symbol, stamped with the update time |
| RateCache.UpdateThenRefreshPublishesQuote | BusinessLogic/Repo/DataService.cs:138-161 | after an update and reread, a quoted meta-symbol's cache entry holds the quote's bid and ask |
| RateCache.LastWithName | BusinessLogic/Repo/DataService.cs:632-636 | the last row carrying a name exists past any row carrying it |
| DataServices.DataService.UpdateRates | BusinessLogic/Repo/DataService.cs:138-168 | rows whose meta-symbol is quoted take the quote's ask, bid and the update time, the others are unchanged, then the cache is reread; a missing list changes nothing |
| Calendar.IsSameDayIffSameDate | BusinessLogic/Repo/DataService.cs:170-173 | same year and same day of the year means the same calendar date, both ways |
| Calendar.DaysInMonth | BusinessLogic/Repo/DataService.cs:424 | months have 28 to 31 days and only February of a leap year has 29 |
| Calendar.DayOfYear | BusinessLogic/Repo/DataService.cs:172 | the day of the year lies in 1..366 |
| Calendar.DaysBeforeGrows | BusinessLogic/Repo/DataService.cs:172 | a later month starts after an earlier one ends, so day-of-year numbers are distinct within a year |
| Calendar.DaysBeforeAtMost | BusinessLogic/Repo/DataService.cs:172 | the days before a month and in it never exceed 366 |
| Deals.SymbolByName | BusinessLogic/Repo/DataService.cs:955-969 | a symbol is found iff one has the name, and the one found is the first that has it |
| Deals.TerminalByNumber | BusinessLogic/Repo/DataService.cs:923-936 | the terminal found is the first with the account number cast to 32 bits; none is found iff no terminal has it |
| Deals.DealByDealId | BusinessLogic/Repo/DataService.cs:938-951 | a deal is found iff one has the ticket, cast to 32 bits, as its deal id |
| Deals.DealByKey | BusinessLogic/Repo/DataService.cs:307 | a deal is found iff one has the key |
| Deals.Insertion | BusinessLogic/Repo/DataService.cs:304-339 | a deal is inserted iff its symbol exists and neither its key nor its deal id is stored; the row inserted is the deal's record under the symbol found, with the cast ticket as key and deal id |
| Deals.Ingest | BusinessLogic/Repo/DataService.cs:302-346 | ingesting a batch only appends rows, and the saved count is the number appended |
| Deals.ProcessingOrderSorted | BusinessLogic/Repo/DataService.cs:302 | deals are processed in close-time order, and the order is a permutation of the batch |
| Deals.IngestAppendsBatchDeals | BusinessLogic/Repo/DataService.cs:316-336 | every appended row is exactly the record built from a batch deal and the symbol found for it |
| Deals.IngestKeepsKeysUnique | BusinessLogic/Repo/DataService.cs:307-311 | no key or deal id is ever stored twice |
| Deals.IngestSettlesBatch | BusinessLogic/Repo/DataService.cs:304-311 | after a batch, while the database accepts the same records, none of its deals would be inserted again |
| Deals.ReplayInsertsNothing | BusinessLogic/Repo/DataService.cs:289-359 | uploading the same history twice saves nothing the second time, while the database accepts the same records |
| Deals.IngestAppendsFresh | BusinessLogic/Repo/DataService.cs:307-311 | no appended row reuses the key or the deal id of a row stored before the batch |
| Deals.ReplayStoresOnlyNewTickets | BusinessLogic/Repo/DataService.cs:289-359 | replaying a history whatever the database accepts the second time keeps the first table as a prefix, saves only what it appends, reuses no stored key or deal id, and appends only records of batch deals |
| Deals.IngestInsertsFreshDeal | BusinessLogic/Repo/DataService.cs:316-338 | a fresh deal with a known symbol is saved as exactly its record |
| Deals.InsertionSettled | BusinessLogic/Repo/DataService.cs:307-311 | a deal whose key is stored stays skipped however the table grows |
| Deals.IngestOfSettled | BusinessLogic/Repo/DataService.cs:302-346 | a batch of settled deals changes nothing |
| Deals.StoredDealReadsBack | BusinessLogic/Repo/DataService.cs:696-723 | a saved deal reads back with its symbol, account number, the terminal's broker as account name (empty when no terminal has the account), its magic number when that is a known adviser and 0 otherwise, and its figures; the ticket comes back as the order id and the open price as the close price |
| Deals.SymbolByIdFinds | BusinessLogic/Repo/DataService.cs:717-718 | with unique ids, the lookup by id finds the stored symbol |
| Deals.TerminalByIdFinds | BusinessLogic/Repo/DataService.cs:710-714 | with unique ids, the lookup by id finds the stored terminal |
| Deals.TodayRowsSelectsToday | BusinessLogic/Repo/DataService.cs:175-197 | with deals without a close time read last, exactly the deals closed on today's date are read, latest first |
| Deals.TodayRowsAllTimed | BusinessLogic/Repo/DataService.cs:175-197 | when every deal has a close time, exactly the deals closed on today's date are read, wherever the database puts missing close times |
| Deals.TodayRowsNullsFirstUntimed | BusinessLogic/Repo/DataService.cs:183-186 | with deals without a close time read first, one such deal makes the list empty |
| Deals.TodayScanUntimedHead | BusinessLogic/Repo/DataService.cs:184-186 | a scan whose first deal has no close time stops at once, reading nothing |
| Deals.TodayScanSelectsToday | BusinessLogic/Repo/DataService.cs:184-188 | the scan over a close-time-descending list keeps exactly the deals closed today |
| Deals.TodayScanStops | BusinessLogic/Repo/DataService.cs:184-186 | the scan stops iff some deal lacks a close time |
| Deals.TodayScanListed | BusinessLogic/Repo/DataService.cs:184-188 | every deal read was closed today and only timed deals precede it |
| Deals.TodayScanLists | BusinessLogic/Repo/DataService.cs:184-188 | a deal closed today with only timed deals before it is read |
| Deals.TodayScanMembers | BusinessLogic/Repo/DataService.cs:184-188 | the scan stops at the first deal without a close time, and keeps exactly the deals closed today before it |
| Deals.TodayScanSorted | BusinessLogic/Repo/DataService.cs:183-188 | the deals read keep the descending close-time order |
| Deals.CloseTimeDescTotal | BusinessLogic/Repo/DataService.cs:183 | descending close time, unknown last, is a total preorder |
| Deals.CloseTimeDescNullsFirstTotal | BusinessLogic/Repo/DataService.cs:183 | descending close time, unknown first, is a total preorder |
| Sorting.StrLeTotal | BusinessLogic/Repo/DataService.cs:302 | any two texts are ordered one way or the other |
| Sorting.StrLeTransitive | BusinessLogic/Repo/DataService.cs:302 | ordinal text order is transitive |
| Deals.CloseTimeLeTotal | BusinessLogic/Repo/DataService.cs:302 | ordering deals by close-time text is a total preorder |
| DataServices.DataService.SaveDeals | BusinessLogic/Repo/DataService.cs:289-359 | a missing or empty batch changes nothing; otherwise the deal table and the saved count are the ingestion of the batch in close-time order |
| DataServices.DataService.TodayDeals | BusinessLogic/Repo/DataService.cs:175-197 | the result is the transfer objects, one per row in order, of the deals the scan reads from the table in the database's descending close-time order |
| AccountStates.Latest | BusinessLogic/Repo/DataService.cs:220-227 | the snapshot chosen is one of the account's within the bound; none iff the account has no such snapshot |
| AccountStates.LatestIsLatest | BusinessLogic/Repo/DataService.cs:220-227 | the snapshot chosen has the latest date of the account's within the bound, and no earlier row has that date |
| AccountStates.SnapshotTouchesOnlyAccount | BusinessLogic/Repo/DataService.cs:220-249 | for any same-day rule, including line 228's day-of-year comparison the class uses: snapshots of other accounts keep their places and values, at most one is added, and an account without snapshots gets none |
| AccountStates.SnapshotRecordsBalance | BusinessLogic/Repo/DataService.cs:228-246 | for any same-day rule, including line 228's: the written snapshot, with the new balance, becomes the account's latest |
| AccountStates.SnapshotOncePerDay | BusinessLogic/Repo/DataService.cs:228-246 | for any same-day rule, including line 228's: two updates on a day the rule counts as today add at most one snapshot |
| AccountStates.BalanceUpdateSetsAccount | BusinessLogic/Repo/DataService.cs:199-252 | the account behind the first terminal with the number gets the balance, equity and update time, no other account changes, and its snapshot is written with line 228's day-of-year comparison |
| AccountStates.SnapshotAsWrittenAgreesWithinYear | BusinessLogic/Repo/DataService.cs:228 | the day-of-year comparison agrees with the calendar-date one while all snapshots are from the current year |
| AccountStates.SnapshotAsWrittenOverwritesLastYear | BusinessLogic/Repo/DataService.cs:228 | a snapshot taken one year earlier on the same date is overwritten instead of kept |
| AccountStates.SnapshotKeepsEarlierDays | BusinessLogic/Repo/DataService.cs:170-173 | with the calendar-day rule, a snapshot dated on another calendar day than today is never overwritten |
| DataServices.DataService.UpdateBalance | BusinessLogic/Repo/DataService.cs:199-252 | the accounts and snapshots become the balance update of the old ones, with line 228's day-of-year comparison |
| Performance.Window | BusinessLogic/Repo/DataService.cs:510-517 | the month's year is this year, or last year for a month still to come; the days run to today in the current month, else to the month's end; invalid months have no window |
| Performance.MakeStat | BusinessLogic/Repo/DataService.cs:577-590 | gains and losses are non-negative and exclusive, their difference is the rounded change, and the sign of the change decides which one is set |
| Performance.DaysFrom | BusinessLogic/Repo/DataService.cs:520-593 | the series from a day on never has more statistics than days remain |
| Performance.PerformanceSeriesShape | BusinessLogic/Repo/DataService.cs:502-602 | every statistic carries its day, date and period, with exclusive non-negative gains and losses |
| Performance.DaysFromShape | BusinessLogic/Repo/DataService.cs:520-593 | the i-th statistic is of day i+1 of the month, dated that day, with exclusive non-negative gains and losses |
| Performance.DaysFromStats | BusinessLogic/Repo/DataService.cs:522-592 | each day's statistic is made from that day's balance sums, which succeeded |
| Performance.DaysFromComplete | BusinessLogic/Repo/DataService.cs:520-593 | when every day's sums succeed, the series covers every day |
| Performance.DaysFromEndsAtFailure | BusinessLogic/Repo/DataService.cs:520-593 | a day whose sums fail ends the series before it |
| Performance.DayChange | BusinessLogic/Repo/DataService.cs:577-590 | the checking change is the rounded difference of end and start balances |
| Performance.SkippedAccountAddsNothing | BusinessLogic/Repo/DataService.cs:532-543 | a demo account, one without snapshots up to the day's end, or one whose first snapshot falls during the day adds nothing to the day's sums |
| Performance.DaySumsFailurePersists | BusinessLogic/Repo/DataService.cs:530-576 | a conversion failure ends the day's sums whatever accounts follow |
| Performance.ChartMessagesPerDay | BusinessLogic/Repo/DataService.cs:410-500 | the messages end with the done message; each earlier one is the daily chart value of day i+1 of the asked month; an invalid month sends only the done message; in the current month no more values than days so far are sent |
| Performance.ProfitTotal | BusinessLogic/Repo/DataService.cs:374-380 | a successful sum counts every deal |
| Performance.FilterDeals | BusinessLogic/Repo/DataService.cs:372-373 | exactly the deals of the meta-symbol on terminals of the asked kind are summed |
| Performance.MetaStat | BusinessLogic/Repo/DataService.cs:382-392 | a meta-symbol gets a statistic iff it has more than ten deals; profit per trade times trades is the total |
| Performance.CollectStats | BusinessLogic/Repo/DataService.cs:369-394 | every statistic is of a non-retired meta-symbol with more than ten trades |
| Performance.CollectStatsStops | BusinessLogic/Repo/DataService.cs:376-394 | once a profit sum fails, the meta-symbols after it add nothing |
| Performance.CollectStatsComplete | BusinessLogic/Repo/DataService.cs:369-394 | when no profit sum fails, every non-retired meta-symbol with more than ten deals gets its statistic |
| Performance.MetaSymbolStatsComplete | BusinessLogic/Repo/DataService.cs:361-402 | when no profit sum fails, every non-retired meta-symbol with more than ten deals appears, with its deal count and total profit |
| Performance.MetaSymbolStatsProperties | BusinessLogic/Repo/DataService.cs:361-402 | the statistics are ordered by profit per trade, highest first, and each is of an active meta-symbol with more than ten trades |
| DataServices.DataService.Performance | BusinessLogic/Repo/DataService.cs:502-602 | the result is the performance series of the month over the current tables and rates |
| DataServices.DataService.PerfAsync | BusinessLogic/Repo/DataService.cs:404-500 | the messages sent are the chart messages of the month |
| DataServices.DataService.MetaSymbolStatistics | BusinessLogic/Repo/DataService.cs:361-402 | the result is the sorted meta-symbol statistics |
| DataServices.DailyStats | BusinessLogic/Repo/DataService.cs:520-593 | the loop over the days of the month yields the series of the month's day sums |
| DataServices.SumOfDay | BusinessLogic/Repo/DataService.cs:522-576 | one day's pass computes that day's entry of the month's sums |
| DataServices.SumDay | BusinessLogic/Repo/DataService.cs:530-576 | the loop over the accounts computes the day's sums |
| DataServices.CollectAll | BusinessLogic/Repo/DataService.cs:369-394 | the loop over the meta-symbols collects what the statistics specification does |
| DataServices.IngestAll | BusinessLogic/Repo/DataService.cs:302-346 | the loop over the ordered batch yields the ingestion's table and saved count |
| DataServices.TodayList | BusinessLogic/Repo/DataService.cs:183-188 | the loop over the deals, latest first, yields the transfer objects of the scan |
| DataServices.TodayScanHalted | BusinessLogic/Repo/DataService.cs:184-186 | once a deal without a close time is met, no later deal is read |
| DataServices.SumProfits | BusinessLogic/Repo/DataService.cs:376-380 | the loop over the deals succeeds iff the profit total does, and then equals it |
| DataServices.AddProfit | BusinessLogic/Repo/DataService.cs:378-379 | one deal's pass extends the profit sum of the deals before it by that deal, or fails the sum of the whole list |
| DataServices.ProfitTotalFailurePersists | BusinessLogic/Repo/DataService.cs:376-380 | a conversion failure ends the profit sum whatever deals follow |
| Sorting.SortByIsSorted | BusinessLogic/Repo/DataService.cs:302 | the stable sort the LINQ orderings use yields a sorted sequence |
| Sorting.SortBy | BusinessLogic/Repo/DataService.cs:302 | the sort is a permutation |
| Decimals.Round2Sign | BusinessLogic/Repo/DataService.cs:585-590 | rounding to cents keeps zero and the sign |
| Decimals.Round2Odd | BusinessLogic/Repo/DataService.cs:585-590 | rounding to cents is symmetric about zero |
| Decimals.Round2 | BusinessLogic/Repo/DataService.cs:585-590 | rounding to cents moves a value by at most half a cent |
| Basics.ToInt32 | BusinessLogic/Repo/DataService.cs:307 | the cast keeps values in 32 bits and wraps the others modulo 2^32 |
| Basics.ToInt8 | BusinessLogic/Repo/DataService.cs:721 | the cast keeps values in 8 bits and wraps the others modulo 256 |
| SignalsHandler.PostSignal | BusinessLogic/BusinessObjects/ServerSignalsHandler.cs:31-165 | every call made is one the signal's kind permits, passing on what the signal carries; an escaping exception means no call was made; without a server nothing is broadcast |
| SignalsHandler.ClusterSignalIsOnlyRelayed | BusinessLogic/BusinessObjects/ServerSignalsHandler.cs:33-37 | a cluster signal is only handed to the cluster |
| SignalsHandler.DealsHistorySavesBoundDeals | BusinessLogic/BusinessObjects/ServerSignalsHandler.cs:52-61 | deal history without data saves an empty list; with data, the bound deals |
| SignalsHandler.CheckBalanceReadsFirstRow | BusinessLogic/BusinessObjects/ServerSignalsHandler.cs:62-74 | the first row's balance, equity and account are passed on unchanged |
| SignalsHandler.CheckBalanceDefaultsToZero | BusinessLogic/BusinessObjects/ServerSignalsHandler.cs:69-72 | missing figures are read as zero |
| SignalsHandler.CheckBalanceRejectsNonObjectRow | BusinessLogic/BusinessObjects/ServerSignalsHandler.cs:66-71 | a first row that is not an object throws and updates nothing |
| SignalsHandler.CheckBalanceWithoutRowsDoesNothing | BusinessLogic/BusinessObjects/ServerSignalsHandler.cs:62-68 | a balance check without data, or with an empty array, calls nothing |
| SignalsHandler.Child | BusinessLogic/BusinessObjects/ServerSignalsHandler.cs:69-71 | only an object has keyed children, and a missing key reads as null |
| SignalsHandler.DecimalOrZero | BusinessLogic/BusinessObjects/ServerSignalsHandler.cs:69-70 | null is zero, numbers convert as they are, containers do not convert |
| SignalsHandler.Int32OrZero | BusinessLogic/BusinessObjects/ServerSignalsHandler.cs:71 | null is zero, 32-bit integers convert as they are, wider 64-bit ones overflow |
| SignalsHandler.RatesUpdateNeverRaises | BusinessLogic/BusinessObjects/ServerSignalsHandler.cs:75-102 | a rates update never lets an exception escape and calls the rate store at most once |
| SignalsHandler.RatesUpdateAddsUsdByn | BusinessLogic/BusinessObjects/ServerSignalsHandler.cs:80-95 | the bound rates are stored with the feed's positive dollar rate added as USDBYN |
| SignalsHandler.RatesUpdateSkippedWithoutFeed | BusinessLogic/BusinessObjects/ServerSignalsHandler.cs:84-100 | when the feed fails, nothing is stored |
| SignalsHandler.RatesUpdateWithoutPositiveRate | BusinessLogic/BusinessObjects/ServerSignalsHandler.cs:82-95 | with a dollar rate of zero or less, the bound rates are stored as they are, without USDBYN |
| SignalsHandler.RatesUpdateWithoutUsdRow | BusinessLogic/BusinessObjects/ServerSignalsHandler.cs:82-95 | a feed without a dollar row leaves the bound rates as they are |
| SignalsHandler.RatesUpdateNullListSkipsFeed | BusinessLogic/BusinessObjects/ServerSignalsHandler.cs:80-95 | without a list of rates the store is called with no list, whatever the feed gives |
| SignalsHandler.LevelsAreBroadcast | BusinessLogic/BusinessObjects/ServerSignalsHandler.cs:140-151 | a levels request asks for the symbol's levels and broadcasts them as an expert signal for the same object and chart |
| SignalsHandler.QuietKinds | BusinessLogic/BusinessObjects/ServerSignalsHandler.cs:41-51 | health checks, news warnings and empty log posts call nothing |
| SignalsHandler.PostLogLogs | BusinessLogic/BusinessObjects/ServerSignalsHandler.cs:41-46 | a log post with data passes its text to the main service's log and nothing else |
| SignalsHandler.ActiveOrdersUpdatesPositions | BusinessLogic/BusinessObjects/ServerSignalsHandler.cs:103-114 | active orders update the object's positions with the bound list, an empty one without data; data that does not bind throws and updates nothing |
| SignalsHandler.DeinitCallsMainService | BusinessLogic/BusinessObjects/ServerSignalsHandler.cs:128-139 | a de-init signal de-initialises the expert or the terminal by its kind; without data it throws and calls nothing |
| SignalsHandler.UnclassifiedRelaysReply | BusinessLogic/BusinessObjects/ServerSignalsHandler.cs:152-163 | with a server, any other signal is sent to the main service and its reply, if any, is broadcast; without a server nothing is called |
| SignalsHandler.QuietMessagesMulticastNothing | BusinessLogic/BusinessObjects/ServerSignalsHandler.cs:179-255 | log, position and chart messages and unknown types leave the message unchanged and broadcast nothing; an unknown type writes "Undefined Message" to the log |
| SignalsHandler.Route | BusinessLogic/BusinessObjects/ServerSignalsHandler.cs:167-257 | a routed message keeps its type and, except for levels, its sender; replies go to the sender with the request's type; nothing is broadcast without a server or after an exception |
| SignalsHandler.ProcessMessage | BusinessLogic/BusinessObjects/ServerSignalsHandler.cs:167-257 | the message object and the calls made are those of the routing |
| SignalsHandler.CapitalRequest | BusinessLogic/BusinessObjects/ServerSignalsHandler.cs:219-222 | a capital request is read only when the wallet id and both dates are present and parse |
| SignalsHandler.PerformanceRequestStartsMonth | BusinessLogic/BusinessObjects/ServerSignalsHandler.cs:200-212 | a performance request for any 32-bit month starts exactly that month and answers the sender with an empty list |
| SignalsHandler.MalformedPerformanceRequestDoesNothing | BusinessLogic/BusinessObjects/ServerSignalsHandler.cs:207 | a month that does not parse starts nothing and answers nobody |
| SignalsHandler.CapitalRequestAsksWallet | BusinessLogic/BusinessObjects/ServerSignalsHandler.cs:213-227 | a well-formed capital request asks for that wallet's balances over that range, then answers the sender |
| SignalsHandler.LevelsRequestIsAnswered | BusinessLogic/BusinessObjects/ServerSignalsHandler.cs:238-246 | a levels request becomes the server's reply carrying the requested symbol's levels |
| SignalsHandler.GetBYNRates | BusinessLogic/BusinessObjects/ServerSignalsHandler.cs:259-288 | the loop over the feed returns what the row-by-row scan specifies |
| SignalsHandler.OfficialRate | BusinessLogic/BusinessObjects/ServerSignalsHandler.cs:279 | the rate reads only from a present key holding a double |
| SignalsHandler.FirstUsdRowDecides | BusinessLogic/BusinessObjects/ServerSignalsHandler.cs:272-281 | the first dollar row decides the result, whatever follows |
| SignalsHandler.NoUsdRowGivesZero | BusinessLogic/BusinessObjects/ServerSignalsHandler.cs:272-287 | a feed without a dollar row gives 0 |
| SignalsHandler.NonZeroRateComesFromUsdRow | BusinessLogic/BusinessObjects/ServerSignalsHandler.cs:272-287 | a non-zero rate is the official rate of a dollar row of the feed |
| SignalsHandler.IntegralRateThrows | BusinessLogic/BusinessObjects/ServerSignalsHandler.cs:279 | an official rate written as an integer does not unbox to a double |
| Parsing.ParseDigits | BusinessLogic/BusinessObjects/ServerSignalsHandler.cs:207 | a run of digits parses to its value when that fits in 32 bits |
| Parsing.ParseNegatedDigits | BusinessLogic/BusinessObjects/ServerSignalsHandler.cs:207 | a minus sign and digits parse to the negated value when that fits in 32 bits |
| Parsing.ParseInt32RoundTrip | BusinessLogic/BusinessObjects/ServerSignalsHandler.cs:207 | parsing the printed form of any 32-bit number gives it back |
| Parsing.ParseInt32RejectsLetters | BusinessLogic/BusinessObjects/ServerSignalsHandler.cs:220 | text ending in a lowercase letter is a format error |
| Parsing.ParseInt32 | BusinessLogic/BusinessObjects/ServerSignalsHandler.cs:207 | a parsed value fits in 32 bits, and the only failures are format and overflow |

## Left out

- Logging (`log.Info`, `log.Error`, `log.Log`) is not modelled. The
  exceptions are the log write a UI message asks for and the "Undefined
  Message" log write for a message of unknown type.
- NHibernate sessions, transactions and the deal lock are not modelled.
  Tables are sequences in insertion order, and a query's order among equal
  dates is table order.
- Whether a database save succeeds is the parameter `saves`.
- The background task `StartPerf` spawns is not modelled; `PerfAsync` is
  modelled as the call it runs.
- `DateTime.Now`, `DateTime.UtcNow`, `DateTime.Today`, `DateTime.Parse` and
  date formatting are parameters. The time zone between local and UTC time
  is not modelled.
- JSON (de)serialisation, the HTTP fetch, the terminal events service and
  the main service (`Levels4Symbol`, `CreateSignal`, `SendSignal`,
  `PostSignalTo`, `DoLog`, `DeInitExpert`, `DeInitTerminal`) are parameters
  or recorded calls. Their own failures are not modelled, including a
  failure of `UpdateRates` that the rates branch would catch.
- `ListenSignal` only forwards to the main service and is not modelled.
- C# string comparison is modelled as ordinal comparison of characters;
  culture-sensitive ordering is not modelled.
- Null strings in a `DealInfo` and null message texts are not modelled, so
  `ArgumentNullException` from parsing a null text does not arise.
- `DataServices.DataService.UpdateRates`: a quote whose `Symbol` is null is
  not modelled; every `RatesInfo` carries a symbol. In the code, comparing
  a rate row's name against such a quote throws (`DataService.cs` line
  148). Rows updated before that point stay committed, each in its own
  transaction (lines 151-158). The catch at lines 163-166 then skips the
  cache reread at line 161. The model has no such partial update.
- Decimal overflow and the 28-digit precision of `decimal` are not modelled.
- The precision of `double`, and the conversion between `double` and
  `decimal`, are not modelled: both are exact reals.
- Newtonsoft's conversion of a JSON string to a decimal is the parameter
  `parseDecimal`. JSON strings the reader turns into dates are not modelled.
  A null item in the national bank feed's list, on which `ContainsKey`
  would throw, cannot be expressed: the feed is a list of objects.
- `SignalsHandler.DecimalOrZero`: a JSON integer beyond 64 bits is a big
  integer in Newtonsoft and fails the conversion. The model says so, but the
  contract states only the cases listed.
- The outer `catch` of `SaveDeals` is not reached in the model: no
  collaborator there throws. The inner `catch` is the parameter `saves`.
- `DataServices.DataService.TodayDeals`: where the database sorts deals
  without a close time under a descending order is a parameter,
  `nullsFirst`. The lemmas cover both placements: with them last, exactly
  today's deals are read; with them first, any such deal empties the list;
  with none, the placement does not matter.
- `Deals.TodayRowsSelectsToday`: stated for deals without a close time read
  last only; the other placement is covered by `Deals.TodayRowsNullsFirstUntimed`.
- Dates are compared in whole seconds (`Calendar.Ticks`). Deals closing
  within the same second are ordered by table order, not by their
  sub-second time.
- `Parsing.ParseInt32` does not accept the trailing NUL characters that
  .NET's `int.Parse` ignores.
- `DataServices.DataService.TodayDeals`: a terminal without an account
  number is not modelled; every terminal carries one. In the code,
  `Accountnumber.Value` then throws while a deal of today is converted
  (`DataService.cs` line 712). The catch at lines 191-194 returns only
  the deals converted before it, a second way the list is cut short that
  the model does not have. For the same reason, a null account number
  never matching in `UpdateBalance` (line 203) does not arise.
- `DataServices.SumProfits`: its contract ties the result to `ProfitTotal`
  only when the sum succeeds, and on failure only that it fails. The
  failure kind is not stated.

## Findings

| source | as written | input that shows it | evidently intended | confidence | as-written member | corrected member |
|---|---|---|---|---|---|---|
| BusinessLogic/Repo/DataService.cs:228 | the latest snapshot is overwritten when its day of the year equals today's, whatever its year | an account whose latest snapshot is dated 2025-10-19, updated on 2026-10-19 (day 292 in both years) | overwrite only a snapshot taken the same calendar day, as `isSameDay` (lines 170-173) checks; otherwise add a new one | not executed | AccountStates.SnapshotAsWrittenOverwritesLastYear | AccountStates.SnapshotKeepsEarlierDays |
