# stock-watcher, modelled in Dafny

stock-watcher is a Discord bot that watches stock prices for its users. A
user registers a *watch* ("ticket"). A price watch alerts when the price
comes within a margin of a target. An EMA watch alerts when the
exponential moving average on some candle size falls below the last
candle. bot.py keeps its watches in an in-memory list and re-polls them
with checker.py's `pollTickers`. The repository also holds a SQLite ticket
store (sql.py).

This project models the watch layer and the pieces it is built from:

- `Common` (common.dfy): optional values and table cells. It also holds
  Python's `str(int)` with its inverse, `str.split` with a one-character
  separator, and the text order SQLite sorts by.
- `Ticket` (ticket.dfy): the base watch envelope: channel, author and id.
  Also its text form and its empty `monitor`/`timeout`.
- `Api` (api.dfy): candles. This covers the timeframe to resample-rule
  conversion and candle aggregation as a fold over fixed-width buckets.
- `Ema` (ema.dfy): EMA watches. This covers the candle width in seconds,
  the re-check delay, the fire rule on the last candle, and the message.
- `Price` (price.dfy): price watches. This covers the open band around
  the target, the message, and the constant delay.
- `Watch` (watch.dfy): the three watch kinds as one type. It dispatches
  `timeout` and `__str__` the way Python's subclassing does.
- `Checker` (checker.dfy): the finnhub poller, the one bot.py runs. This covers the
  look-back window, the ABOVE/BELOW and ±5% tests, and one polling pass
  (a method with a loop).
- `Sql` (sql.dfy): the ticket store as a class holding the two tables as
  sequences of rows.
  - Adding, deleting and timeout updates change the rows in place.
  - Listing queries are built clause by clause and then run on the rows.
  - Results are ordered by symbol.
- `Alpaca` (alpaca.dfy): fetching bars. This covers the base-resolution
  table, the number of base bars needed, the loop that pages backwards
  prepending each page, and the tail that is kept.
- `Adapter` (adapter.dfy): the two tuple-to-record adapters, with their
  inverse.

These are not modelled as code. Each becomes a parameter of the operation
that uses it:

| outside thing | parameter in the model |
|---|---|
| clock (`time.time()`, `datetime.now()`) | `now` |
| uuid prefix of new ids | `suffix` |
| quote service | `quote` |
| indicator service | `indicator` |
| Alpaca bar service | `fetch` |
| talib's EMA column | `emaColumn` |
| Python's float printing | `show` |
| host time zone against New York's | `zoneGap` |

Prices are reals.

price.py:31 compares strictly on both sides, so `Price.InBand` is an open
interval: a price exactly at the target plus or minus the margin does not
fire.

Times in the Alpaca paging loop are labelled with the host's wall clock
(alpaca_v1.py:81-82 and 96-97). The model makes the difference between the
host's UTC offset and New York's a parameter `zoneGap`.

## Model

| member | source | states |
|---|---|---|
| `Common.ParseIntToString` | ticket.py:11-12 | the decimal text of any integer, sign included, reads back to that integer |
| `Common.SplitOnJoin` | sql.py:246-247 | `split` on a separator cuts at its first occurrence: the part before comes out whole and the rest is split on its own |
| `Common.PrefixBeforeJoin` | sql.py:246-247 | `split(sep)[0]` of `a + sep + b` is `a` when `a` holds no separator |
| `Common.TextLeTotal` | sql.py:161 | any two symbols are ordered one way or the other |
| `Common.TextLeTrans` | sql.py:161 | the symbol order is transitive |
| `Ticket.DescribeRoundTrip` | ticket.py:6-12 | the text form "id channel author" keeps all three fields unchanged: it parses back to the same ticket when the id holds no space |
| `Api.ConvertTimeframeRule` | api.py:25-42 | a rule exists exactly for minute, hour, day, week and month; it reads back as the multiplier's decimal text followed by T, H, D, W or M respectively |
| `Api.RuleReadsBack` | api.py:29-42 | a rule built from a multiplier and a unit letter parses back to that multiplier and letter |
| `Api.Aggregate` | api.py:44-64 | the output is never longer than the input, is empty only for empty input, and its last candle is in the bucket of the last input candle |
| `Api.AggregateCandles` | api.py:44-60 | resampling succeeds exactly for a known timeframe and a positive multiplier |
| `Api.MergeFields` | api.py:50-59 | a merged bucket takes time and open from its first member and close from its last; its high is some member's high and no smaller than any; its low is some member's low and no larger than any; its volume is the members' total |
| `Api.AggregateWellFormed` | api.py:50-59 | if every input candle has low ≤ open, close ≤ high, then so does every output candle |
| `Api.AggregateResamples` | api.py:50-60 | for time-ordered input, the output buckets strictly ascend; each output candle is the merge of exactly the input candles of its bucket, which are never none (empty buckets are dropped); every input candle's bucket is present |
| `Api.MembersIn` | api.py:50-56 | every member of a bucket is an input candle whose time falls in that bucket |
| `Api.TwoMinuteExample` | api.py:50-59 | two one-minute candles resample into one two-minute candle with first open, max high, min low, last close and summed volume |
| `Ema.CandlesToSeconds` | ema.py:21-36 | a width exists exactly for the five named timeframes; any other timeframe matches no branch |
| `Ema.UnitWidths` | ema.py:27-36 | one unit is 60, 3600, 86400, 604800 and 2592000 seconds (a 30-day month) |
| `Ema.CandleWidthLinear` | ema.py:27-36 | for a fixed timeframe the width is the multiplier times the unit width, so it adds over multipliers |
| `Ema.WidthMatchesResampleRule` | ema.py:21-36 | a resample rule exists exactly when a candle width does, and the rule's width equals the candle width for the same timeframe and multiplier |
| `Ema.AggregateAtCandleWidth` | ema.py:21-36 | for a known timeframe and positive multiplier, resampling succeeds and cuts buckets exactly one candle width wide |
| `Ema.Timeout` | ema.py:77-81 | it raises exactly for an unknown timeframe (no width to double); otherwise the delay is twice the candle width and at least two minutes for a positive multiplier |
| `Ema.FourWeekTimeout` | ema.py:100-103 | a four-week watch waits 2419200 × 2 seconds |
| `Ema.FireRuleIsLowBand` | ema.py:74 | for 0 ≤ low ≤ high and a non-negative margin, the two-sided rule fires exactly when ema < low × (1 − margin) |
| `Ema.NoFireAtOrAboveLow` | ema.py:74 | an EMA at or above the last low never fires |
| `Ema.DescribeLeadsWithId` | ema.py:57-58 | the text form begins with the id, up to the first colon |
| `Ema.Monitor` | ema.py:60-75 | it raises exactly when fetching the bars raised or gave no bars (the last-row read fails); otherwise the callback runs at most once, exactly when the last EMA value exists and the fire rule holds on the last candle, and the message is the watch's text form |
| `Price.DefaultMarginIsOne` | price.py:11-20 | a watch built without a margin gets 1.0 price units |
| `Price.InBandIsDistance` | price.py:31 | the band test holds exactly when the price is strictly closer than the margin to the target |
| `Price.BandIsOpen` | price.py:31 | a price exactly at target ± margin does not fire, and a margin of 0 or less never fires |
| `Price.Monitor` | price.py:25-32 | it raises exactly when the quote service raises; otherwise it calls back exactly when the price is in the band, with "symbol near target currently trading at price" |
| `Price.TimeoutIsConstant` | price.py:34-38 | every price watch waits 172800 seconds, whatever its fields |
| `Price.DescribeLeadsWithId` | price.py:22-23 | the text form begins with the id, up to the first colon |
| `Watch.Timeout` | ticket.py:21-25 | the base watch answers with no delay and a price watch with two days; an EMA watch raises exactly for an unknown timeframe and otherwise answers with a delay; any delay of a price watch or of an EMA watch with positive multiplier is positive |
| `Watch.DescribeLeadsWithId` | ema.py:57-58 | for every kind of watch, the text form begins with the watch's id |
| `Checker.CalculateTimePeriod` | checker.py:24-43 | the window ends at the truncated clock and starts at the truncated clock less the interval's look-back; an interval with no branch ("30" or anything unlisted) looks back nothing |
| `Checker.WindowCoversPeriods` | checker.py:24-43 | for a listed interval and a non-negative period count, the truncated window spans at least that many candles of the interval |
| `Checker.WindowIsOrdered` | checker.py:24-43 | with a non-negative look-back the window's start is not after its end |
| `Checker.LookBackCoversPeriods` | checker.py:27-40 | a listed interval looks back at least the requested number of periods; the extra is 100 periods, except for "D", which counts 7/5 calendar days per period plus 9 |
| `Checker.EvalPriceSignal` | checker.py:72-76 | "ABOVE" is price ≥ signal price and "BELOW" is price ≤ signal price; any other signal gives no answer |
| `Checker.EvalEma` | checker.py:79-80 | for a non-negative EMA the test is a closed band of radius 5% of the EMA around it, both ends included; a negative EMA never passes |
| `Checker.HandlePriceLevel` | checker.py:90-99 | a raising quote, a missing signal or a missing price fails the ticket; otherwise it alerts exactly when the quote meets the signal (ABOVE: at or over, BELOW: at or under) and the message "symbol hit signal of signal price at quote" goes out, and it fails exactly when the quote meets the signal but the send raises |
| `Checker.HandleEma` | checker.py:104-123 | a raising request fails the ticket and a status other than "ok" leaves it quiet; otherwise it is quiet exactly when the close is outside the ±5% band, and it alerts exactly when the close is inside, the ticket names a known interval and the message "symbol hit EMA level on the interval name" goes out |
| `Checker.Handle` | checker.py:132-135 | a ticket of any type other than price_level or ema is never alerted |
| `Checker.PollTickers` | checker.py:127-140 | the loop returns the pass's kept tickets and sent messages; it returns no list exactly when the pass failed |
| `Checker.PollFailsAtSomeTicket` | checker.py:127-140 | a pass fails exactly when some ticket's handling raises (a quote or indicator service, a missing key, or the webhook) |
| `Checker.PollSpecStopsAtFailure` | checker.py:127-140 | once a ticket raises, later tickets change nothing |
| `Checker.PollKeepsTheQuietOnes` | checker.py:127-140 | a pass without exceptions keeps exactly the tickets that did not alert, in their original order; every ticket is either kept or sends one message |
| `Checker.UnknownKindsAreKept` | checker.py:132-138 | a ticket of unknown type is always kept |
| `Checker.EmaIgnoresTicketInterval` | checker.py:104-123 | whether an EMA ticket alerts does not depend on the interval it asks for: the daily 10-period EMA is always used |
| `Sql.NewIdsNameTheirTable` | sql.py:62 | ids made as "price_…" and "ema_…" lead back to their own table, whatever the suffix |
| `Sql.Filter` | sql.py:163-166 | a selection keeps exactly the rows that pass, no more rows than it was given |
| `Sql.FilterStronger` | sql.py:365-370 | a stricter selection keeps no more rows, and strictly fewer when some row passes only the looser one |
| `Sql.SortBySorts` | sql.py:161 | ORDER BY symbol yields rows sorted by symbol that are a permutation of the selected rows |
| `Sql.InsertBySorted` | sql.py:161 | inserting a row into rows sorted by symbol keeps them sorted |
| `Sql.InsertByStable` | sql.py:161 | inserting a row after rows with the same symbol keeps the rows of each symbol in their order, the new one last |
| `Sql.SortByStable` | sql.py:161 | the rows of any one symbol come out in table order |
| `Sql.BuildQuery` | sql.py:134-161 | the query is the header, then one line per requested clause (WHERE for the first, AND for the rest), then ORDER BY symbol; author 0, symbol "*" and inactive add no clause; the i-th value is bound to the i-th clause, in the order author, symbol, now; the query holds as many placeholders as there are values |
| `Sql.AddClause` | sql.py:142-159 | appending one clause line and its value keeps the query and the values in step |
| `Sql.RenderPlaceholders` | sql.py:140-159 | the clause lines hold exactly one placeholder per clause |
| `Sql.QueryPlaceholders` | sql.py:134-161 | the whole query, header and ORDER BY included, holds exactly one placeholder per clause |
| `Sql.ClausesSelectWanted` | sql.py:142-159 | a row satisfies the built clauses with their values exactly when its author matches (or 0 was asked), its symbol matches (or "*"), and, for an active listing, its timeout is strictly before now |
| `Sql.QuerySelectsWanted` | sql.py:134-161 | the same for the clauses and values the query is built with |
| `Sql.EmaQueryIsListing` | sql.py:126-161 | running the built query's clauses on the ema table selects exactly the listing of matching rows |
| `Sql.PriceQueryIsListing` | sql.py:182-219 | the same for the price table |
| `Sql.FilterSame` | sql.py:163-166 | two selections that agree on every row select the same rows |
| `Sql.AsWrittenMapsWrongColumns` | sql.py:168-177 | the mapping as written puts the row's timeout in the watch's channel and its channel in the author |
| `Sql.RowToEma` | sql.py:168-177 | the corrected mapping keeps every column of the row in the field of the same name |
| `Sql.UpdateWhereKeepsOthers` | sql.py:280-290 | an update whose change keeps the picked rows picked leaves the unpicked rows as they were and in their order, and picks as many rows after it as before |
| `Sql.TimeoutSetTouchesOnlyItsId` | sql.py:280-290 | setting one id's timeout changes no row of any other id: without that id's rows, the table is the same as before |
| `Sql.FutureTimeoutLeavesActiveListing` | sql.py:365-370 | after a watch's timeout is set to now or later, its author's active listing is strictly shorter than the full listing |
| `Sql.TicketStore.constructor` | sql.py:13-48 | opening a store keeps existing tables with their rows (empty when newly created) |
| `Sql.TicketStore.AddPrice` | sql.py:50-84 | the new id is "price_" and the suffix; one row is appended with the clock as timestamp and timeout 0; the ema table is unchanged |
| `Sql.TicketStore.AddEma` | sql.py:86-124 | the new id is "ema_" and the suffix; one row is appended with timeout 0 and the default multiplier 1 and margin 0.001; the price table is unchanged |
| `Sql.TicketStore.GetAllEma` | sql.py:126-180 | the built query, run on the table and ordered by symbol, gives the watches of the matching rows, sorted by symbol, each mapped with the corrected column positions |
| `Sql.TicketStore.GetAllPrice` | sql.py:182-236 | the built query, run on the table, gives the matching rows, sorted by symbol, a permutation of the selection |
| `Sql.MappedSymbolsSorted` | sql.py:168-180 | mapping sorted rows to watches keeps them sorted by symbol |
| `Sql.TicketStore.Delete` | sql.py:238-263 | an id naming neither table gives False and changes nothing; otherwise it gives True, whether or not a row matched, and only rows with that id are removed, from that table only |
| `Sql.TicketStore.UpdateTimeout` | sql.py:265-293 | an id naming neither table gives False and changes nothing; otherwise it gives None and sets the timeout of that id's rows in that table |
| `Sql.TicketStore.GetPriceSymbols` | sql.py:295-306 | every symbol of the price table appears once, and nothing else does |
| `Sql.TicketStore.GetPrices` | sql.py:308-330 | exactly the rows with that symbol whose timeout is strictly before now (in table order; see Left out) |
| `Alpaca.BaseResolution` | alpaca_v1.py:60-77 | a base resolution with a positive count exists exactly for the five timeframes; any other timeframe leaves the empty resolution and count 0 |
| `Alpaca.BaseBarsCoverOneUnit` | alpaca_v1.py:63-77 | one unit's base bars span the unit's width for minute (1 × 60 s), hour (4 × 900 s) and day; a week is 5 and a month 20 daily bars |
| `Alpaca.Required` | alpaca_v1.py:79 | an unknown timeframe requires no bars |
| `Alpaca.RequiredCoversUnits` | alpaca_v1.py:79 | a known timeframe needs at least one base bar per unit asked for |
| `Alpaca.SliceFrom` | alpaca_v1.py:99 | Python's `s[start:]` is a suffix of `s` |
| `Alpaca.GetBars` | alpaca_v1.py:79-104 | the loop ends with the buffer the paging function describes (from the current time, each next request ending at the oldest bar's labelled time), keeps its tail, and resamples it; an empty page raises |
| `Alpaca.PagedPrepends` | alpaca_v1.py:84-97 | each page goes in front, so what was buffered stays at the end behind older pages; a finished buffer holds at least the required count |
| `Alpaca.BufferLength` | alpaca_v1.py:79-99 | the kept tail has exactly the required number of bars, or none when none are required |
| `Alpaca.UnknownTimeframeFetchesNothing` | alpaca_v1.py:60-104 | for an unknown timeframe the buffer is empty whatever the service would answer (no request is made), and resampling it fails |
| `Alpaca.PagedAscending` | alpaca_v1.py:84-97 | when each page is time-ordered and ends no later than the requested end, and the host is not ahead of New York time, the buffer stays in time order, because each request ends no later than the oldest bar already held |
| `Alpaca.BufferAscending` | alpaca_v1.py:81-99 | the tail handed to resampling is in time order under the same conditions |
| `Alpaca.AheadOfNewYorkBreaksOrder` | alpaca_v1.py:81-97 | on a UTC host in summer, a service that answers one bar a minute before each end fills a two-bar buffer newest first |
| `Alpaca.IncompleteHourCounts` | alpaca_v1.py:119-122 | four quarter-hour bars starting at half past resample into two hourly candles: the incomplete bucket counts as a bar |
| `Adapter.PriceLevelAdapter` | adapter.py:1-12 | a record exists exactly for tuples of at least eight cells; its keys are "type" and the eight field names, and "type" is "price_level" |
| `Adapter.EmaAdapter` | adapter.py:15-26 | the same with "type" "ema"; the record has no periods or margin field |
| `Adapter.PriceLevelRoundTrip` | adapter.py:1-12 | reading the record's fields back in order gives cells 0 to 7 of the tuple |
| `Adapter.PriceLevelIgnoresLaterCells` | adapter.py:1-12 | the record depends only on the first eight cells |
| `Adapter.PriceLevelFirstCells` | adapter.py:4-7 | the first four fields hold cells 0 to 3 |
| `Adapter.PriceLevelLastCells` | adapter.py:8-11 | the last four fields hold cells 4 to 7 |
| `Adapter.EmaRoundTrip` | adapter.py:15-26 | the same round trip for the EMA record |
| `Adapter.EmaIgnoresLaterCells` | adapter.py:15-26 | the EMA record depends only on the first eight cells |
| `Adapter.EmaFirstCells` | adapter.py:18-21 | the first four EMA fields hold cells 0 to 3 |
| `Adapter.EmaLastCells` | adapter.py:22-25 | the last four EMA fields hold cells 4 to 7 |

## Left out

- talib's EMA (ema.py:17) is a foreign library. `Ema.Monitor` takes the EMA column as input, with `None` for warm-up values (NaN, which compares false). The dataframe write in `ema.get` is not modelled.
- pandas `resample` anchors weeks and months to the calendar and works in a time zone (api.py:50, alpaca_v1.py:100). The model uses fixed-width buckets counted from an explicit `origin`. A month is 30 days wide there.
- `toDict` in `aggregate_candles` (api.py:62-64) only changes the representation and is not modelled.
- All network code is outside the model: `get_price`, the HTTP page fetch, `getPriceOfTicker`, the `alertEMA` request and `sendWebhook`. Each service appears as a function parameter. async/await is not modelled.
- The SQLite engine is not modelled: no connection handling and no commits. The tables are sequences of rows in one store. `delete` never commits (sql.py:238-263): its removal is lost if the program ends before a later write commits, which the model, with no transactions, does not capture.
- The SELECT header's whitespace is simplified to one line in `Sql.Header`. The WHERE/AND lines and ORDER BY are as in the program.
- sql.py:3 imports `PriceTicket`, which price.py does not define. `Sql.TicketStore.GetAllPrice` and `Sql.TicketStore.GetPrices` therefore return the rows rather than that class.
- SQLite does not fix the order of rows with equal symbols, nor the order of DISTINCT, nor the order of `get_prices`, which has no ORDER BY (sql.py:308-330). The model keeps table order for equal symbols (`Sql.SortByStable`) and in `Sql.TicketStore.GetPrices`, and first appearance for `GetPriceSymbols`.
- `Sql.TicketStore.GetAllEma` maps each row with the corrected `Sql.RowToEma`, not with the column positions as written. The as-written mapping is `Sql.RowToEmaAsWritten`, and `Sql.AsWrittenMapsWrongColumns` shows where it differs (see Findings).
- `Api.Aggregate` assumes time-ordered input for its bucket properties (`Api.AggregateResamples` requires it). On input out of time order it starts a new bucket each time the bucket changes, so a bucket can appear twice, where pandas gives one row per bucket. Such input arises from the paging loop on a host ahead of New York time (see Findings).
- Float formatting (Python's `repr` of a float) is a parameter `show`. Prices are reals, not IEEE doubles, so rounding in `price ± margin` and `ema × 1.05` is not modelled.
- `Checker.CalculateTimePeriod` reads the clock once, as `now`, for both ends. checker.py:25 and :42 read it twice (`datetime.now()` and `time.time()`), so in the program the end may lie a little after the clock the start was computed from.
- `Checker.LookBack` computes in reals, then truncates like `int()`. Python's own `time_period / 5` is a float division with rounding, which the model does not reproduce.
- `Alpaca.PagedAscending` assumes that every page is in time order and ends no later than the requested end. The model cannot see the service, so this is an assumption. Whether the page ending at `end` repeats the bar at `end` also depends on the service and is left open.
- `Alpaca.PagedAscending` and `Alpaca.BufferAscending` hold only on a host not ahead of New York time; `Alpaca.AheadOfNewYorkBreaksOrder` shows that on other hosts the buffer can leave time order (see Findings).
- `Alpaca.GetBars` models the zone gap as a function of the time; daylight-saving folds, where one wall-clock time names two instants, are not modelled.
- `Alpaca.IncompleteHourCounts` shows the extra incomplete bar for one requested hour (four base bars become two candles), not the test's ten hours (forty base bars become eleven).
- bot.py, cmd.py, plot.py, custom_logger.py, db.py, test.py and tdameritrade_api.py are not part of this model. They are Discord UI, interactive input, plotting, logging setup, an abstract interface, a scratch script and a client wrapper.
- The bot's own ticket dicts lack the "signal" and "interval" keys that checker.py reads. The model treats such a ticket's missing key as an exception (`Failed`), which ends the pass.

## Findings

| source | as written | input that shows it | evidently intended | confidence | as-written member | corrected member |
|---|---|---|---|---|---|---|
| sql.py:168-177 | `get_all_ema` reads channelID from column 7 and author from column 8; the schema (sql.py:33-45) puts timeout at 7, channelID at 8 and author at 9 | an ema row with timeout 0, channelID 123 and author 456 becomes a watch for channel 0 and author 123 | channelID from column 8 and author from column 9 | not executed | `Sql.AsWrittenMapsWrongColumns` | `Sql.RowToEma` |
| alpaca_v1.py:81-82, 96-97 | each request's end is the host's local wall-clock time of the oldest bar, labelled as New York time without converting; on a host ahead of New York the end falls after that bar | a UTC host in summer (gap 14400 s), a service answering one bar a minute before each end, two bars required, clock at 0: the buffer holds the bar at 28680 before the bar at 14340 | each request ends at the oldest bar's own instant (a gap of 0), so pages never overlap and the buffer stays in time order | not executed | `Alpaca.AheadOfNewYorkBreaksOrder` | `Alpaca.BufferAscending` |
