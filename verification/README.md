# Triangular arbitrage bot: a Dafny model of its decision logic

The bot trades on one spot exchange. At start-up it reads the instrument
catalog and builds every currency triangle `a -> b -> c -> a` that closes
through listed, non-fiat pairs and ends on a default settlement currency. It
filters those triangles with an eligibility rule and subscribes to the
order books of their pairs, spread over a few market-data connections. Each
book message writes the best bid and ask, with their volumes, into every leg
of every triangle using that pair. An analysis thread prices each triangle
with 1000 units of money and records those that end above 1010. A private
feed keeps balances and open orders current. The trading loop picks the best
recorded triangle and places the three legs: buy, sell, sell. After each
leg it waits until the order disappears from the open-order table.

The model keeps that logic and removes the plumbing. Tables become sequences
and maps. Feed messages become decoded records. Connections become traces of
how each session ended. The exchange's answers during a trading pass become
inputs. Prices are idealised `real` numbers.

Modules, one per component:

- `Instruments` (`instruments.dfy`): currencies, pairs, the constant currency
  sets, and splitting `BASE-QUOTE` identifiers.
- `Seqs` (`seqs.dfy`): distinctness and concatenation of sequences.
- `TriangleGraph` (`triangle_graph.dfy`): triangle generation and the
  eligibility filter.
- `Sharding` (`sharding.dfy`): splitting the subscription list across
  connections.
- `Backoff` (`backoff.dfy`): the reconnect loop of both feeds.
- `PriceBook` (`price_book.dfy`): the triangle table and the book-message
  handler.
- `Evaluator` (`evaluator.dfy`): one analysis cycle and the analysis thread.
- `AccountState` (`account_state.dfy`): balances, open orders, the private
  feed's handler, the balance lookup and the fill wait.
- `Execution` (`execution.dfy`): one pass of the trading loop.
- `Ticks` (`ticks.dfy`): rounding a size down to the tick.

Points of the code's behaviour that the model keeps and that are easy to
miss:

- The reconnect delay only grows: nothing resets it after a successful
  connection.
- A balance or orders push is committed all or nothing per message. One
  record that fails to read drops the whole message.
- With ask 50, bid 2 and bid 12 the conversion chain gives 480, which is not
  recorded.
- The subscription split, sized at a third of the pairs rounded down, can
  give up to five connections.
- No push ever removes an open order, so a wait on an order that is present
  never ends.
- The analysis never reads `bid1_volume`, `ask2_volume` or the leg-3
  volumes, and the trading loop never reads the re-fetched ask 1 and bid 3.
  The model carries these fields in every `Quote` and leaves them unused.

## Model

| member | source | states |
|---|---|---|
| Instruments.ParseInstId | project_6.5_GIT.py:177 | Splitting an identifier succeeds exactly when it holds one `-`. The parts then contain no `-` and format back to the identifier. |
| Instruments.ParseInstIdRoundTrip | project_6.5_GIT.py:177 | Formatting a pair with dash-free codes as `BASE-QUOTE` and splitting it again gives the same pair. |
| Instruments.InstIdInjective | project_6.5_GIT.py:189-193 | Two dash-free pairs with the same identifier string are the same pair. So comparing identifier strings, as the source does, is comparing pairs. |
| Instruments.ParseCatalog | project_6.5_GIT.py:176-177 | Start-up succeeds exactly when every catalog identifier has one `-`. Each parsed pair formats back to its identifier and has dash-free codes. |
| TriangleGraph.CurrenciesOf | project_6.5_GIT.py:172-182 | The result lists each currency of a non-fiat pair once, and only those currencies. |
| TriangleGraph.Generate | project_6.5_GIT.py:187-196 | For any iteration order of the currency set, a triangle is emitted iff some ordered triple of distinct currencies closes through non-fiat links and ends on USDT, USDC, BTC or ETH. Every leg of an emitted triangle is listed and non-fiat. Its legs join a-b, b-c and c-a. No triangle is emitted twice. |
| TriangleGraph.GenerateOrderIndependent | project_6.5_GIT.py:187 | Two iteration orders of the currency set give the same triangles, and the same number of them. |
| TriangleGraph.ListingCheckRedundant | project_6.5_GIT.py:188-194 | The re-check that all three oriented legs are listed never rejects a triple whose currencies are linked. |
| TriangleGraph.KeepsCharacterized | project_6.5_GIT.py:216-236 | A triangle is kept iff no leg touches a fiat currency and either both third-leg currencies are USDT/USDC or both second-leg currencies are bridge currencies. |
| TriangleGraph.FilterTriangles | project_6.5_GIT.py:216-236 | A triangle is in the output iff it is in the input and kept. The output is never longer than the input. |
| TriangleGraph.FilterConcat | project_6.5_GIT.py:216-236 | Filtering distributes over concatenation, so the output keeps the input order. |
| TriangleGraph.FilterIdempotent | project_6.5_GIT.py:216-240 | Filtering twice gives the same table as filtering once. |
| TriangleGraph.BuildTriangles | project_6.5_GIT.py:164-240 | The start-up table lists every eligible triangle of the catalog exactly once, and nothing else. Each entry has listed, non-fiat legs closing a-b-c-a. |
| Sharding.Chunks | project_6.5_GIT.py:264-267 | Concatenating the chunks gives back the input. Every chunk has between 1 and `size` elements. Every chunk but the last has exactly `size`. |
| Sharding.ChunkCount | project_6.5_GIT.py:264-267 | The number of chunks is the input length divided by the size, rounded up. There are none only for an empty input. |
| Sharding.ShardSize | project_6.5_GIT.py:362 | The shard size is at least 1. For three or more pairs it is the pair count divided by three, rounded down. For fewer than three pairs it is 1. |
| Sharding.Shards | project_6.5_GIT.py:361-365 | The shards concatenate to the pair list. There are at most five of them, and exactly three when the pair count is a positive multiple of three. |
| Sharding.ShardsCanExceedThree | project_6.5_GIT.py:362-365 | Four pairs give four connections and five pairs give five. |
| Sharding.BalancedShards | project_6.5_GIT.py:362-365 | With the size rounded up, the shards still concatenate to the pair list, none is empty, and there are never more than three. |
| Backoff.DelayAt | project_6.5_GIT.py:271-272 | Every reconnect delay lies between 5 and 60 seconds. |
| Backoff.DelaySchedule | project_6.5_GIT.py:300-303 | The delays are 5, 10, 20 and 40, then 60 for every later reconnect. |
| Backoff.DelayMonotone | project_6.5_GIT.py:300-303 | The delay never decreases from one reconnect to the next. Nothing resets it. |
| Backoff.Supervise | project_6.5_GIT.py:274-303 | The loop sleeps once per reconnecting ending, with the doubled and capped delay. It stops at the first ending that does not reconnect and reports why. |
| Backoff.RunFeed | project_6.5_GIT.py:270-303 | Starting from 5 seconds, the i-th sleep is the i-th delay of the schedule and never exceeds 60. |
| Backoff.RunFeedStopsAtFirstTerminal | project_6.5_GIT.py:288-297 | When the k-th session is the first that does not reconnect, the feed sleeps exactly k times and stops for that session's reason. |
| Backoff.NormalClosureStops | project_6.5_GIT.py:288-292 | A close with code 1000 stops the feed without sleeping or reconnecting. |
| Backoff.FeedsDifferOnlyOnTimeout | project_6.5_GIT.py:502-515 | The market feed and the private feed react differently only to a timeout. The private feed reconnects and the market feed stops. |
| PriceBook.InitialTable | project_6.5_GIT.py:239-240 | The table written after filtering has one row per triangle with its three pairs and no prices. |
| PriceBook.SubscribedPairs | project_6.5_GIT.py:247-253 | A pair is subscribed iff some row uses it in some leg. |
| PriceBook.ExtractTop | project_6.5_GIT.py:308-318 | A quote is written only when both book sides are non-empty. Its values are level 0's price and volume of each side. A malformed message, an empty data list, or a best level with fewer than two numbers is fatal. |
| PriceBook.UpdateTable | project_6.5_GIT.py:321-347 | Row count is preserved. Exactly the legs whose pair is the message's instrument receive the new quote. Every other leg keeps its pair and quote. Rows not using the instrument are unchanged. |
| PriceBook.HandleMarketMessage | project_6.5_GIT.py:305-358 | The handler exits exactly on a fatal extraction. An ignorable message leaves the table as it was. A message with both book sides writes its top of book into exactly the legs on its instrument, as `UpdateTable` does. The table never changes size. |
| PriceBook.UpdateIdempotent | project_6.5_GIT.py:321-347 | Writing the same quote twice gives the same table as writing it once. |
| PriceBook.HandleIdempotent | project_6.5_GIT.py:305-347 | Handling the same message twice gives the same table as handling it once. |
| PriceBook.UpdatesCommute | project_6.5_GIT.py:321-347 | Updates for two different instruments can be applied in either order. |
| PriceBook.LastWriteWins | project_6.5_GIT.py:321-347 | A later quote for an instrument replaces an earlier one completely. |
| Evaluator.ReadPrices | project_6.5_GIT.py:386-396 | The snapshot is absent exactly when one of bid1, ask1, ask1_volume, bid2, ask2, bid2_volume, bid3 or ask3 is missing. Otherwise it holds exactly those values. |
| Evaluator.FinalBalance | project_6.5_GIT.py:407-409 | The final balance times ask1 equals 1000 times bid2 times bid3. |
| Evaluator.Assess | project_6.5_GIT.py:393-422 | A row is skipped for missing data exactly when a needed value is absent. It divides by zero exactly when ask1 or bid2 is 0. A qualifying row passed both volume gates; its opportunity carries the row's three pairs and six prices, and its final balance is the conversion chain over the row's ask1, bid2 and bid3, above 1010. A row below the threshold reports that same chain value. |
| Evaluator.RecordedAboveThreshold | project_6.5_GIT.py:414-422 | Every opportunity a completed cycle records has a final balance above 1010. |
| Evaluator.QualifiesCharacterized | project_6.5_GIT.py:398-414 | For positive ask1 and bid2, a row qualifies iff both legs' volumes are worth at least 200 and 1000 along the chain ends above 1010, stated without division. |
| Evaluator.Analyze | project_6.5_GIT.py:389-422 | A cycle crashes iff some row divides by zero. Otherwise it records exactly the opportunities of the qualifying rows, never more than there are rows. |
| Evaluator.NextOpportunities | project_6.5_GIT.py:424-426 | A crashed cycle leaves the previous table. A completed one replaces it with exactly that cycle's opportunities, all above 1010. |
| Evaluator.CycleSupersedes | project_6.5_GIT.py:424-426 | After a completed cycle the table does not depend on what was recorded before. |
| Evaluator.RunCycles | project_6.5_GIT.py:375-378 | The loop is alive iff every cycle so far recorded. While alive, the table is the last recorded cycle's, or the starting one if there was none. The table stays above 1010 when every recorded cycle and the starting table are. |
| Evaluator.CrashEndsCycles | project_6.5_GIT.py:375-378 | After the first crash, later cycles change nothing. The table is the one from before the crash. |
| Evaluator.RunAnalysis | project_6.5_GIT.py:375-378 | The thread is alive iff no cycle crashed. While alive, the table is the last cycle's. Every entry stays above 1010. |
| Evaluator.CrashFreezesTable | project_6.5_GIT.py:375-378 | After a crashed cycle the thread is dead. The table stays what it was before that cycle, whatever later snapshots hold. |
| Evaluator.Example990NotRecorded | project_6.5_GIT.py:407-414 | With ask1 100, bid2 1 and bid3 99, the final balance is 990 and the row is not recorded. |
| Evaluator.Example480NotRecorded | project_6.5_GIT.py:407-414 | With ask1 50, bid2 2 and bid3 12, the final balance is 480 and the row is not recorded. |
| Evaluator.Example1020Recorded | project_6.5_GIT.py:398-422 | With ask1 1, bid2 1.02, bid3 1 and enough volume, the row is recorded. |
| AccountState.ReadDetail | project_6.5_GIT.py:538-540 | A detail reads iff it has a currency and neither amount is unparsable. A missing amount reads as 0 and a present one as its value. |
| AccountState.UpdatesKeys | project_6.5_GIT.py:536-549 | A balance push upserts exactly the currencies its details name. |
| AccountState.UpdatesLast | project_6.5_GIT.py:536-549 | Each upserted currency holds the values of its last detail in the push. |
| AccountState.ApplyDetails | project_6.5_GIT.py:533-574 | A balance push is dropped exactly when some detail does not read. Otherwise its upserts overwrite the existing rows and leave the others alone. |
| AccountState.BalancePushEffect | project_6.5_GIT.py:536-549 | After a readable push, the balance of a currency it names is the available amount of its last detail. A currency it does not name keeps its balance. |
| AccountState.BalancePushIdempotent | project_6.5_GIT.py:536-549 | Applying the same balance push twice gives the same account as applying it once. |
| AccountState.ReadOrder | project_6.5_GIT.py:554-559 | An order entry reads iff id, pair, side, time and a numeric size are present and the price is empty or numeric. The row holds the entry's pair, side, creation time and size. A numeric price is kept as that number, and an empty price reads as no price. |
| AccountState.UpsertOrder | project_6.5_GIT.py:563-568 | The id becomes present. A new id gets the entry's row. For an existing id only price and quantity change. Other ids are untouched. |
| AccountState.ApplyOrders | project_6.5_GIT.py:551-574 | An orders push commits iff every entry reads. The ids afterwards are the old ones plus those named. No existing row changes its pair, side or creation time. Ids not named are untouched. |
| AccountState.ApplyOrdersInserts | project_6.5_GIT.py:553-568 | An id new to the table takes pair, side and creation time from its first entry in the push. |
| AccountState.ApplyOrdersSettles | project_6.5_GIT.py:553-568 | After a readable orders push, every named id holds the price and quantity of its last entry. |
| AccountState.OrdersPushIdempotent | project_6.5_GIT.py:553-568 | Applying the same orders push twice gives the same account as applying it once. |
| AccountState.HandlePrivateMessage | project_6.5_GIT.py:523-574 | Other messages change nothing. A readable balance push upserts its details' balances and leaves orders alone. A readable orders push adds the ids it names, gives new ids their first entry's pair, side and time, gives every named id its last entry's price and quantity, keeps the rest, and leaves balances alone. A push that fails to read changes nothing. No message removes an order id. |
| AccountState.GetBalance | project_6.5_GIT.py:586-593 | The balance is the currency's available amount, or 0 for an unknown currency. |
| AccountState.WaitForOrder | project_6.5_GIT.py:595-607 | The wait returns at the first poll that finds no row with the id, and a missing id never matches a row. If every poll finds the row it keeps waiting. It never reports failure. |
| AccountState.OrderRowsPersist | project_6.5_GIT.py:523-574 | No sequence of private messages removes an order id. |
| AccountState.PresentOrderNeverConfirms | project_6.5_GIT.py:595-607 | Once an order id is in the table, no later state of the private feed lets the wait on it return. |
| Execution.SelectBest | project_6.5_GIT.py:691-698 | Nothing is chosen iff the opportunity table is empty. Otherwise the choice is an entry of the table whose final balance is at least every other entry's. |
| Execution.FirstMatch | project_6.5_GIT.py:706-713 | The lookup finds the first row whose pair in that leg position matches, or reports that none matches. |
| Execution.Fetch | project_6.5_GIT.py:706-713 | A live price is found iff a row matches and the first match has the value. It is that row's value. |
| Execution.SplitWellFormed | project_6.5_GIT.py:717-719 | Splitting the name of a pair with dash-free codes gives the pair back, so the split never faults for catalog pairs. |
| Execution.Prepare | project_6.5_GIT.py:691-719 | A pass idles with no opportunity iff the table is empty. It faults iff a live price is missing or a pair name does not split. When ready, it carries the best opportunity, the live bid of pair 2, and the quote currency of pair 1. |
| Execution.Trade | project_6.5_GIT.py:722-766 | Leg 1 is placed iff quote 1 is USDT/USDC with a balance above 5; it is a buy of 5 on pair 1. Leg 2 is placed iff leg 1's reply was accepted, its order was seen gone, the live bid of pair 2 is not 0, and the balance over bid2 less 0.11% reaches 0.0001; it sells that size on pair 2. Leg 3 is placed iff, in addition, leg 2's order was seen gone and that size times bid2 less 0.11% reaches 0.0001; it sells that size on pair 3. Each outcome is characterized: too small means a computed size is below 0.0001, waiting means that leg's wait has not returned, a zero bid2 faults after leg 1, and completion means all three orders were placed and seen gone. |
| Execution.ProgressDeterminesTrade | project_6.5_GIT.py:722-766 | The placement and outcome clauses stated for `Trade` admit exactly one result, so they describe the pass completely. |
| Execution.RunPass | project_6.5_GIT.py:685-773 | A whole pass as written ends with no opportunity iff the table is empty and with a fault when setup fails, placing nothing. From a ready setup, it places orders and ends exactly as described for `Trade`. |
| Execution.RunPassChecked | project_6.5_GIT.py:733-766 | With every reply inspected, a pass also never places leg 3 after a rejected leg 2. A completed pass had all three orders accepted. |
| Execution.CheckedAgreesOnAcceptedReplies | project_6.5_GIT.py:754-766 | When every placement is accepted, inspecting the replies changes nothing. |
| Execution.Leg3SizeIgnoresPrice | project_6.5_GIT.py:749-759 | The leg-3 size is the quote-1 balance less the fee twice. The live bid of pair 2 cancels out. |
| Execution.RejectedSecondLegStillTrades | project_6.5_GIT.py:754-766 | Leg 1 fills, leg 2's placement returns nothing, and no order is open. As written, the pass still places leg 3 and completes. The checked pass stops after leg 2 as rejected. |
| Ticks.RoundToTick | project_6.5_GIT.py:49-50 | The rounded size is a whole number of 0.0001 ticks, at most the amount, and less than one tick below it. |
| Ticks.RoundToTickIsLargest | project_6.5_GIT.py:49-50 | Every multiple of the tick that does not exceed the amount is at most the rounded size. |
| Ticks.RoundToTickIdempotent | project_6.5_GIT.py:49-50 | Rounding a rounded size changes nothing. |

## Left out

- Fetching the instrument list over HTTP, and the `tab_1` table. The catalog
  is an input sequence of identifier strings.
- SQLite connections, commits and row order. Tables are sequences and maps.
  A query without `ORDER BY` is read in table order.
- Ties in `ORDER BY final_balance DESC LIMIT 1` are arbitrary. The model
  takes the earliest maximal row.
- JSON decoding. Messages arrive as decoded records. A message that fails to
  decode is a `Malformed` record, and an unparsable number is `Unparsable` or
  `BadPrice`.
- Request signing, credential loading, logging and the arbitrage log files:
  none of them affects a decision.
- Threads, the asyncio event loop, sleeps, the clock and ping or timeout
  settings. Each feed is a trace of how its sessions ended. The analysis
  thread is a sequence of table snapshots. The trading loop is one pass over
  given inputs.
- Interleaving between threads. Each reader sees the snapshot passed to it.
- `place_order`'s connection, login and message format. A placement's reply
  is an opaque optional text. `None` stands for a failed login or an
  exception.
- Whether that reply text ever equals an order id depends on the reply
  format, which is not modelled. The wait compares it with the ids in the
  table as given.
- The order of the subscription list, which comes from an SQL `UNION`.
  `PriceBook.SubscribedPairs` is a set, and `Sharding.Shards` splits any
  sequence of pairs.
- IEEE floating point. Prices and sizes are exact reals.
- Ticks.RoundToTick: exact reals do not show the float error of
  `floor(amount / 0.0001)`.
- The iteration order of Python's set of currencies. Generation takes any
  enumeration of that set as a parameter, and the result is independent of
  it.
- Execution.Trade: keeps the unreachable "size 5 below the minimum" branch
  for fidelity. It never fires.
- AccountState.WaitForOrder: a wait that has not returned when the observed
  polls run out is reported as still waiting. The source polls for ever.
- The logged profit percentage: it is only written to the log.

## Findings

| source | as written | input that shows it | evidently intended | confidence | as-written member | corrected member |
|---|---|---|---|---|---|---|
| project_6.5_GIT.py:754-766 | The replies of the leg-2 and leg-3 placements are not inspected. The wait on a missing reply returns at once, because a missing id matches no row. | Leg 1 is accepted and filled, and leg 2's placement fails and returns nothing. The pass places leg 3 anyway and reports the arbitrage complete. | Abandon the pass when a placement is rejected, as leg 1 does at 735-739. | not executed | Execution.RejectedSecondLegStillTrades | Execution.RunPassChecked |
| project_6.5_GIT.py:362 | `max(1, len(pairs) // 3)` rounds the shard size down, although the split is meant to make three parts. | Four pairs give shard size 1 and four connections. Five pairs give five. | Round the size up, giving at most three connections. | not executed | Sharding.ShardsCanExceedThree | Sharding.BalancedShards |
