# Verified model of TradeTerminal's core

TradeTerminal is a trading terminal: a server keeps one connection per client and talks to an
exchange, and a text client sends it commands. This project models the parts in which mistakes
cost money or data, in Dafny 4.11, and proves properties over all inputs and all runs. Check it
with `dafny verify dfyconfig.toml`.

| file | what it models |
|---|---|
| `StopStore.dfy` | the two database tables as maps, their keys and their iteration order |
| `ActivityStop.dfy` | the activity-stop and pending-autostop machine: what one handler does |
| `ActivityStopRuns.dfy` | whole runs: invariants, when the market close fires |
| `ActivityStopLaws.dfy` | what each handler leaves and sends, written out, and exactly when |
| `ActivityStopRestarts.dfy` | what a reconnect restores, and when the table mirrors the memory |
| `ActivityStopLedger.dfy` | conservation of stops and of pending autostops |
| `Connection.dfy` | the handlers as a class updated in place, each proved to do one step |
| `TradeRuns.dfy` | trades, buckets, maximal runs and the group-by reference |
| `TickAggregator.dfy` | the incremental, capped candle index and its class |
| `Protocol.dfy` | message codes, UDP packets and TCP frames as bytes |
| `Batching.dfy` | greedy packing of messages into packets |
| `SequenceTracker.dfy` | loss counting over wrapping 32-bit packet numbers |
| `CacheHistory.dfy` | one cached answer against the history of the requests alone |
| `HandlerCache.dfy` | the three two-second caches of the request handler |
| `CacheLaws.dfy` | the exact reply to every cached request, over runs |
| `Risk.dfy` | position sizing, whole-unit rounding and take-profit prices |
| `StepRounding.dfy` | flooring to the symbol's grid on the way to the exchange |
| `CommandText.dfy` | the text of commands: splitting, words, names, values |
| `ActionPipeline.dfy` | piped commands, the stops they ask for, and the messages that continue them |
| `PipelineLaws.dfy` | what each message and typed command does to the client, written out |
| `PipelineRuns.dfy` | whole runs of the client: each typed action acts at most once, in order |
| `PipelineSymbols.dfy` | whole runs: for which symbol a piped stop is asked |
| `StopRequests.dfy` | what typed stops record and ask for, and when a request aborts |

Times are milliseconds, decimals are exact reals, and each handler of a connection is one atomic
step. What the exchange answers is an argument of the step that asks.

A run of the activity-stop machine starts from an empty database and may reconnect any number of
times. Order batches are one step per order at the same clock reading, which
`ClientConnection.OnOrderUpdates` proves about the loop.

## What the code does that its readers may not expect

- A batch of several messages may take 1386 bytes, one more than the 1385 left by the packet
  header, because the size test counts two header bytes per message and three are written. A
  packet does exactly when some two or more messages from its first one on take 1386 bytes
  together.
- Arming a stop over a live one of another symbol or side leaves the old row in the table, and
  after a cancel and a reconnect that old stop is live again. The table mirrors the memory in
  all states of a run exactly when this never happens.
- A trigger's activation is never written to the table, so a reconnect makes such a stop wait
  for its trigger again.
- A failed fetch in an account-info request is cached as "no positions" for two seconds.
- `client/src/app.rs` rounds a sized quantity to whole units, so the example of the
  repository's `README.md` (lines 188-194, about 0.009 BTC) becomes an order for zero.
- A ratio `n/d` means d/n stop distances, as the examples of `test_ratio_tp.md` say; the
  formula in the same document has the quotient the other way round. Its first number is not
  guarded: `0/d` ends the client with a division by zero, as a take profit and in a stop for a
  position that has a stop loss.
- A pipe inside a `;` chain is not a pipe. A stop continued by a server message is asked for
  the symbol shown at that moment, which is the one the pipe was typed for exactly when no
  `symbol` command ran since or the last one named it again. The documentation shows
  percentages in piped stops (`README.md`, lines 117-118); continued by a message they work,
  but for a limit order such a stop is not recorded and the actions after it are lost.
- A late packet is taken for reordering, or, if the numbering wrapped between it and the
  expected one, for nearly 2^32 losses. Two swapped packets cost two losses and one
  reordering, except when they are the last two numbers or lie across the wrap: then they cost
  2^32 losses and no reordering.
- `client/src/udp_client.rs` is not declared in `client/src/main.rs`; its tracker is modelled
  because it is self-contained.

## Model

| member | source | states |
|---|---|---|
| StopStore.MakeKeyInjective | server/src/db.rs:9-15 | two stops share a row exactly when symbol and side agree, for any symbol text, even one containing ":Buy" |
| StopStore.PendingKeyInjective | server/src/db.rs:129-131 | two pending autostops share a row exactly when their order ids agree |
| StopStore.KeyLtMeans | server/src/db.rs:108-109 | the table iterates by the first differing character, a prefix before its continuations |
| StopStore.LeastKeyExists | server/src/db.rs:102-113 | a non-empty table has a first key in iteration order |
| StopStore.LeastKeyUnique | server/src/db.rs:102-113 | and only one, so restoring is deterministic |
| StopStore.Database.SaveActivityStop | server/src/db.rs:48-61 | replaces the row of that symbol and side |
| StopStore.Database.DeleteActivityStop | server/src/db.rs:88-100 | removes that row and leaves every other symbol's and side's row |
| StopStore.Database.LoadFirstActivityStop | server/src/db.rs:102-127 | a scan returns the row with the least key, or none exactly for an empty table |
| StopStore.Database.SavePendingAutostop | server/src/db.rs:133-147 | replaces the order's row |
| StopStore.Database.LoadPendingAutostop | server/src/db.rs:149-170 | finds a row exactly when the order has one |
| StopStore.Database.DeletePendingAutostop | server/src/db.rs:172-184 | removes the order's row and no other order's |
| ActivityStop.FirstOpenIsFirst | server/src/server.rs:648 | the position closed is the first open one on the symbol, whichever its side, and there is none exactly when all are empty |
| ActivityStop.PositionKeptIff | server/src/server.rs:425-432 | a position update keeps the stop exactly when the first entry of its symbol and side exists and is not empty |
| ActivityStopRuns.InstallKeepsInv | server/src/client_handler.rs:118-139 | arming keeps the agreement between memory and table |
| ActivityStopRuns.EndKeepsInv | server/src/server.rs:434-445 | ending a stop keeps it |
| ActivityStopRuns.RestoreKeepsInv | server/src/server.rs:179-220 | restoring keeps it, and never sets the last activity before the creation |
| ActivityStopRuns.StepKeepsInv | server/src/server.rs:245-740 | every handler keeps it |
| ActivityStopRuns.ReachableInv | server/src/server.rs:179-737 | in every reachable state a live stop has a row under its own key agreeing on all but `active`, an active row means an active stop, every row is active exactly when it has no trigger, and creation is not after the last activity |
| ActivityStopRuns.LiveAfter | server/src/server.rs:179-737 | a stop is live after a handler exactly when it was installed, or was live and neither ended nor lost |
| ActivityStopRuns.EndRemovesOwnRow | server/src/server.rs:673-732 | when a stop ends, by tick, position update or cancel, its own row goes and no other |
| ActivityStopRuns.RowsAfter | server/src/server.rs:310-319 | no other handler removes a row; installing writes exactly the new stop's row |
| ActivityStopRuns.InstalledIsAskedFor | server/src/server.rs:290-317 | an installed stop has the symbol, side, trigger and timeout in seconds asked for by the request or recorded for the filled order, and is active at once exactly without a trigger |
| ActivityStopRuns.InstalledActivity | server/src/client_handler.rs:119-139 | a new stop counts from its installation, a restored one from its creation but from no more than its timeout ago |
| ActivityStopRuns.KeptStop | server/src/server.rs:499-519 | a handler that neither installs nor ends changes the live stop only by a non-empty batch on its symbol that crosses its trigger or finds it active |
| ActivityStopRuns.ActivityExtends | server/src/server.rs:504-517 | one more event extends the last activity read off the history by exactly the batches that postpone the close |
| ActivityStopRuns.LiveIsHistory | server/src/server.rs:482-519 | the live stop is a function of the run: active exactly when it has no trigger or a batch crossed it since, last activity the latest of its start and the postponing batches |
| ActivityStopRuns.LiveWasInstalled | server/src/server.rs:179-222 | every live stop was installed by one event of the run and has not ended since |
| ActivityStopRuns.CloseFiresIff | server/src/server.rs:622-637 | a tick ends a stop exactly when the history activated it and its timeout has passed since its start and since every postponing batch |
| ActivityStopRuns.CloseOnlyFromTick | server/src/server.rs:642-671 | a market close is sent only by such a tick, at most one per step, for the whole first open position on the symbol and on the other side |
| ActivityStopRuns.CloseOnlyAfterQuiet | server/src/server.rs:499-737 | in every run, a close for a stop armed in the run comes at least its timeout after it was armed and after every batch that activated it or came while active; any tick at or past that deadline leaves no live stop, whatever the exchange answers |
| ActivityStopRuns.CloseMeansQuiet | server/src/server.rs:622-671 | whenever a close is sent there is an event that installed its stop, and the timeout has passed since then and since every postponing batch |
| ActivityStopRuns.GoneByDeadline | server/src/server.rs:566-737 | if the timer ticks at least every so many milliseconds and nothing postpones it, an active stop is gone by its deadline plus that gap |
| ActivityStopRuns.ActivationIsPermanent | server/src/server.rs:504-517 | once active a stop stays active while live, and one with a trigger is active only after a batch that crossed it |
| ActivityStopLaws.CloseSentIff | server/src/server.rs:622-671 | in every run a step sends a market close if and only if a tick ends an active stop at its deadline, the exchange answers, and some position on the symbol is open |
| ActivityStopLaws.TickCloses | server/src/server.rs:648-698 | it is for the first open position on the symbol, whole quantity, other side, index 1 or 2, after the status and before the word whether it was accepted |
| ActivityStopLaws.TickDropsStop | server/src/server.rs:701-733 | without an open position or an answer the status and the inactive status are sent, and nothing else |
| ActivityStopLaws.TickReports | server/src/server.rs:623-635 | any other tick changes nothing, reports the time left of an active stop, and is silent about a waiting one |
| ActivityStopLaws.TickEndLeaves | server/src/server.rs:673-679 | an ending tick takes exactly the stop and its own row |
| ActivityStopLaws.ActivatesIff | server/src/server.rs:499-519 | a waiting stop is activated if and only if a non-empty batch on its charted symbol ends at or above a long's trigger or at or below a short's |
| ActivityStopLaws.ActiveIffReached | server/src/server.rs:504-517 | over a run, a stop with a trigger is active exactly if some such batch came since it was installed |
| ActivityStopLaws.ArmDoes | server/src/client_handler.rs:118-150 | the row, the live stop and the reply of a request |
| ActivityStopLaws.CancelDoes | server/src/client_handler.rs:152-166 | whatever symbol is named, the live stop and its own row go |
| ActivityStopLaws.PendingRequestsDo | server/src/client_handler.rs:168-250 | the row and the reply of creating, updating or cancelling an autostop, and the refusal to update a missing one |
| ActivityStopLaws.PositionsDo | server/src/server.rs:373-454 | limit orders are cancelled for exactly the emptied entries, in order, and the stop ends exactly when its first entry is missing or empty |
| ActivityStopLaws.ReconnectRestores | server/src/server.rs:179-223 | a connection starts with the row of the first key, counted from its creation but from no more than its timeout ago |
| ActivityStopLaws.ReconnectToNothing | server/src/server.rs:212-215 | and with no stop over an empty table |
| ActivityStopLaws.ChartIsLastSubscribed | server/src/server.rs:577-600 | the charted symbol is the one last subscribed on this connection and not unsubscribed since |
| ActivityStopRestarts.RestoredNeverLonger | server/src/server.rs:187-197 | a stop brought back by a reconnect never has more time left than the lost connection would have shown, then or later |
| ActivityStopRestarts.RestoresLiveStopIff | server/src/server.rs:179-215 | a reconnect brings back the live stop exactly when its key is the least, and unchanged exactly when besides it was not activated by a trigger |
| ActivityStopRestarts.RestoredActiveIff | server/src/server.rs:181-211 | a restored stop starts active exactly when it has no trigger |
| ActivityStopRestarts.EndIsFinalIff | server/src/server.rs:673-679 | after a stop ends a reconnect restores nothing exactly when its row was the only one |
| ActivityStopRestarts.MirrorsWhileNot | server/src/client_handler.rs:132-158 | as long as no stop is armed over a live one with another key, the table is the live stop's row and nothing else |
| ActivityStopRestarts.MirrorsIff | server/src/client_handler.rs:132-158 | the table is exactly that in all states of a run if and only if no such arming occurs |
| ActivityStopRestarts.CancelledStopComesBack | server/src/client_handler.rs:118-158 | a run of four events in which a cancelled client finds another stop live after reconnecting |
| ActivityStopLedger.CountsOfStep | server/src/server.rs:254-358 | a step sends at most one close, and none unless a tick ends the stop; exactly one activation notice for a fill of an order with an autostop, else none; exactly one trailing-stop request for such a fill of a trailing autostop with a target, else none |
| ActivityStopLedger.FillDoes | server/src/server.rs:255-340 | a fill sends the request with the record's symbol, side, target and price, or installs the stop with the record's values, never both, reports it, and deletes the record |
| ActivityStopLedger.OtherUpdatesDoNothing | server/src/server.rs:255-358 | any other order update touches no stop and sends at most the notice of the cancellation |
| ActivityStopLedger.StopsConserved | server/src/server.rs:179-737 | over every run, installed = ended by tick, position update or cancel + overwritten + lost with a connection + live; closes sent never exceed stops installed |
| ActivityStopLedger.PendingsAfter | server/src/client_handler.rs:168-250 | which single row of the pending table each kind of event writes or removes |
| ActivityStopLedger.PendingsOfStep | server/src/client_handler.rs:168-250 | one step balances the number of pending rows with what was recorded, activated, withdrawn and overwritten |
| ActivityStopLedger.PendingsConserved | server/src/server.rs:254-358 | over every run, recorded = activated + withdrawn + overwritten + still pending, and activated = trailing stops set + stops installed by fills + records with nothing to do |
| ActivityStopLedger.ActivationNeedsRecord | server/src/server.rs:254-256 | an order update sets a trailing stop, changes a stop or reports an activation exactly if it is a partial or full fill of an order with a row |
| ActivityStopLedger.StaysRetired | server/src/server.rs:330-350 | after a fill, a cancelled order or a withdrawal an order has no row until one is created again |
| ActivityStopLedger.ActivatedAtMostOnce | server/src/server.rs:254-358 | so each recorded autostop acts at most once, also when a partial fill is followed by a full one or repeats in a batch, and never after its order was cancelled |
| ActivityStopLedger.ActsAreSeparated | server/src/server.rs:254-358 | between two acts for one order its autostop was created again, and one step acts once |
| Connection.ClientConnection.constructor | server/src/server.rs:179-222 | connecting reads the table and does the model's reconnect step, whatever the lost memory was |
| Connection.ClientConnection.HandleActivityStop | server/src/client_handler.rs:118-150 | new state and reply of arming, in memory and table |
| Connection.ClientConnection.HandleCancelActivityStop | server/src/client_handler.rs:152-166 | new state and reply of cancelling, whatever symbol is named |
| Connection.ClientConnection.HandleCreatePendingAutostop | server/src/client_handler.rs:168-191 | records the autostop and confirms it |
| Connection.ClientConnection.HandleUpdatePendingAutostop | server/src/client_handler.rs:193-234 | replaces an existing record and reports a missing one |
| Connection.ClientConnection.HandleCancelPendingAutostop | server/src/client_handler.rs:236-250 | removes the record, if any, and confirms in either case |
| Connection.ClientConnection.ActivatePending | server/src/server.rs:264-328 | installs the recorded stop or asks for the trailing stop, when the parameters allow it |
| Connection.ClientConnection.OnOrderUpdate | server/src/server.rs:255-357 | one order: fill, cancellation or neither |
| Connection.ClientConnection.OnOrderUpdates | server/src/server.rs:254-358 | a batch is its orders' steps in order |
| Connection.ClientConnection.OnPositionUpdate | server/src/server.rs:373-454 | asks to cancel limit orders for every empty entry in order, and ends the stop exactly when its first entry is missing or empty |
| Connection.ClientConnection.OnTradeUpdate | server/src/server.rs:482-519 | the loop's last price decides activation and activity |
| Connection.ClientConnection.HandleSubscribeChart | server/src/server.rs:577-593 | the charted symbol, and nothing else, changes |
| Connection.ClientConnection.HandleUnsubscribeChart | server/src/server.rs:594-600 | the charted symbol is cleared |
| Connection.ClientConnection.ClosePosition | server/src/server.rs:642-734 | what is sent for each answer of the exchange |
| Connection.ClientConnection.OnTimer | server/src/server.rs:622-737 | status of an active stop, and its end at the deadline on all four answers |
| TradeRuns.IntervalStartMeaning | client/src/tick_aggregator.rs:100-104 | a bucket start is a multiple of the width and less than a width away; it is at or before the trade exactly for non-negative times and for negative starts, since division truncates |
| TradeRuns.TickMeans | client/src/tick_aggregator.rs:100-107 | what a trade counts with: its price, its quantity, and the start of its bucket of 1, 5, 10 or 30 seconds |
| TradeRuns.CandleMeans | client/src/tick_aggregator.rs:52-81 | a candle is first, greatest, least and last price and summed quantity of its run |
| TradeRuns.InBucketMeans | client/src/tick_aggregator.rs:111-114 | a bucket of the group-by holds exactly the trades of its start, in their order |
| TradeRuns.ExtremesMean | client/src/tick_aggregator.rs:64-69 | high and low are the maximum and minimum price of the run, and are reached |
| TradeRuns.RunsSplit | client/src/tick_aggregator.rs:106-134 | the runs concatenate to the history, each is of one bucket, and neighbours differ |
| TradeRuns.RunSplitUnique | client/src/tick_aggregator.rs:106-134 | only one split has these properties, so they are the maximal runs |
| TradeRuns.RunCandlesConserve | client/src/tick_aggregator.rs:64-69 | for trades in any order the candles' volumes sum to the traded quantity, and low <= open, close <= high |
| TradeRuns.ListsUnique | client/src/tick_aggregator.rs:147-155 | a set of bucket starts has one ascending listing |
| TradeRuns.OrderedStarts | client/src/tick_aggregator.rs:106-134 | when bucket starts never decrease, the runs list the buckets in ascending order and the last is current |
| TradeRuns.OrderedRuns | client/src/tick_aggregator.rs:106-134 | and each run is all of its bucket's trades |
| TradeRuns.OrderedRunsAreGroupBy | client/src/tick_aggregator.rs:52-69 | so the runs' candles are the group-by over the whole history, ascending |
| TickAggregator.CapUnique | client/src/tick_aggregator.rs:123-127 | a map has one restriction to its n largest keys |
| TickAggregator.InsertReplacing | client/src/tick_aggregator.rs:120 | replacing a kept bucket keeps the cap of the last-write-wins map |
| TickAggregator.InsertWithRoom | client/src/tick_aggregator.rs:120 | so does adding one below the limit |
| TickAggregator.InsertWhenFull | client/src/tick_aggregator.rs:120-127 | at the limit dropping the least key does, and a bucket once evicted is dropped at once |
| TickAggregator.InsertKeepsCap | client/src/tick_aggregator.rs:120-127 | insert then evict keeps the stored map equal to the 500 newest of all writes; a re-inserted evicted bucket displaces nothing |
| TickAggregator.Capped | client/src/tick_aggregator.rs:83-127 | for trades in any order the stored map is the uncapped last-write-wins map of completed candles restricted to its 500 largest starts |
| TickAggregator.ChronologicalCap | client/src/tick_aggregator.rs:120-148 | in chronological order the stored values are the last 500 candles |
| TickAggregator.ShownIsNewestGroups | client/src/tick_aggregator.rs:100-155 | for histories whose bucket starts never decrease, the candles shown are ascending and are the last at most 501 buckets of the group-by over the whole history |
| TickAggregator.TradeInBucket | client/src/tick_aggregator.rs:111-114 | a trade in the current bucket extends the last run and completes nothing |
| TickAggregator.TradeOpensBucket | client/src/tick_aggregator.rs:115-121 | a trade of another bucket starts a run and completes the last run's candle |
| TickAggregator.CandleBuilder.constructor | client/src/tick_aggregator.rs:53-62 | the builder is the candle of a run of one trade |
| TickAggregator.CandleBuilder.Update | client/src/tick_aggregator.rs:64-69 | and stays the candle of its run, extended by the trade |
| TickAggregator.Oldest | client/src/tick_aggregator.rs:124 | the least key |
| TickAggregator.TickAggregator.Store | client/src/tick_aggregator.rs:120-128 | storing keeps the map the cap of all completed candles |
| TickAggregator.TickAggregator.AddTrade | client/src/tick_aggregator.rs:106-134 | the fields stay what the history determines, and a candle is returned exactly when the trade is of another bucket than the last, namely the next completed run's |
| TickAggregator.TickAggregator.GetCandles | client/src/tick_aggregator.rs:147-155 | the stored candles ascending, then the current one |
| TickAggregator.TickAggregator.Clear | client/src/tick_aggregator.rs:157-160 | an empty history again |
| Protocol.GetOfPut | shared/src/protocol.rs:186-189 | little-endian numbers that fit read back |
| Protocol.PutOfGet | shared/src/protocol.rs:220-223 | and bytes that were read are written back |
| Protocol.PutLeMeans | shared/src/protocol.rs:186-189 | byte i of a number is its digit i to base 256, the least first |
| Protocol.RequestCodes | shared/src/protocol.rs:33-48 | the codes of requests |
| Protocol.ReplyCodes | shared/src/protocol.rs:50-63 | the codes of replies |
| Protocol.UpdateCodes | shared/src/protocol.rs:72-77 | the codes of updates |
| Protocol.FromU8 | shared/src/protocol.rs:96-152 | an accepted code is the code of the result, and a rejected one is named in the error |
| Protocol.FromToU8 | shared/src/protocol.rs:31-85 | every type's own code is accepted |
| Protocol.CodesRoundTrip | shared/src/protocol.rs:31-152 | codes and types correspond one to one |
| Protocol.EncodeUdpPacket | shared/src/protocol.rs:177-193 | the packet's bytes, or PacketTooLarge exactly above 1385 payload bytes |
| Protocol.DecodeUdpPacket | shared/src/protocol.rs:213-238 | reading field by field equals reading at fixed offsets, with the same errors in the same order |
| Protocol.UdpLayout | shared/src/protocol.rs:184-192 | number, time, type, length and payload at bytes 0, 4, 12, 13 and 15 |
| Protocol.UdpRoundTrip | shared/src/protocol.rs:177-238 | an encoded packet followed by any tail decodes to it |
| Protocol.UdpReencodes | shared/src/protocol.rs:177-238 | accepted bytes are the encoding of what was decoded, up to the unread tail |
| Protocol.EncodeTcpFrame | shared/src/protocol.rs:240-250 | the frame's bytes, or the abort of the 32-bit subtraction |
| Protocol.DecodeTcpFrame | shared/src/protocol.rs:264-285 | type, id and payload, or the error |
| Protocol.FrameLayout | shared/src/protocol.rs:244-249 | type, id and payload at bytes 0, 1 and 17 after the prefix |
| Protocol.TcpRoundTrip | shared/src/protocol.rs:240-285 | bytes decode to a frame exactly when they are its body |
| Protocol.PrefixExactIff | shared/src/protocol.rs:240-244 | the prefix is the number of bytes after it exactly for payloads under 2^32 - 21 |
| Protocol.StreamSplits | shared/src/protocol.rs:240-285 | concatenated frames split back into exactly those frames |
| Protocol.StreamInjective | shared/src/protocol.rs:240-250 | two lists of frames with the same bytes are equal |
| Batching.GreedySplits | shared/src/protocol.rs:296-314 | messages come out in order, none lost, split or repeated, and every batch is one message or within 1386 bytes |
| Batching.FirstIsLongest | shared/src/protocol.rs:297-304 | the first batch is the longest prefix that fits |
| Batching.DropFromSplit | shared/src/protocol.rs:296-314 | dropping messages from a split leaves a split with no more batches, and with fewer when its first batch is covered |
| Batching.GreedyIsOptimal | shared/src/protocol.rs:287-317 | no in-order split under the same bound uses fewer packets |
| Batching.BatchesReadBackIff | shared/src/protocol.rs:287-317 | the joined packets read back as the input exactly when every payload is at most 65535 bytes |
| Batching.PacketBound | shared/src/protocol.rs:297-304 | every packet is one message or at most 1386 bytes |
| Batching.FirstOverfullIff | shared/src/protocol.rs:297-308 | the first packet exceeds the room exactly when some two or more first messages take 1386 bytes together |
| Batching.TailIsGreedy | shared/src/protocol.rs:296-314 | from any batch on, the packets are the greedy split of the remaining messages |
| Batching.OverfullIff | shared/src/protocol.rs:297-308 | any packet exceeds the room exactly when, from its first message on, some two or more consecutive messages take 1386 bytes together |
| Batching.AcceptedIfNoRun | shared/src/protocol.rs:287-317 | if no two or more consecutive messages take exactly 1386 bytes, every packet of several messages is accepted as a payload |
| Batching.BoundIsReached | shared/src/protocol.rs:297-308 | any two messages with 1380 payload bytes between them make a packet of 1386 bytes, too large with its header |
| Batching.GreedyTurn | shared/src/protocol.rs:296-310 | one turn of the loop is one step of the split, and the 16-bit count cannot overflow |
| Batching.BatchUdpMessages | shared/src/protocol.rs:287-317 | the buffer loop returns the packets of that split |
| SequenceTracker.Tracker.CheckSequence | client/src/udp_client.rs:25-47 | what one packet does to the four counters |
| SequenceTracker.StepCounts | client/src/udp_client.rs:33-46 | in unwrapped numbering, an in-order packet adds exactly the missing ones to the losses when its step is recognised, and counts as reordered otherwise |
| SequenceTracker.CountsAreTrueIff | client/src/udp_client.rs:25-47 | for every in-order stream, nothing counts as reordered, and received + lost = last - first + 1, exactly when every step is recognised; otherwise less |
| SequenceTracker.ShortGapsAreCounted | client/src/udp_client.rs:25-47 | so with gaps of at most 1000, over any number of wraps, lost is the true number missing and out-of-order stays zero |
| SequenceTracker.LatePacketIff | client/src/udp_client.rs:33-46 | any late or repeated packet less than a turn behind is taken for reordering, or for nearly a turn of losses exactly when the numbering wrapped in between or the next wrap looks nearer |
| SequenceTracker.SwapCosts | client/src/udp_client.rs:33-46 | a swapped pair after any packet costs two losses and one reordering, except at the last two numbers or across the wrap, where it costs 2^32 losses and none |
| HandlerCache.ClientHandler.Handle | server/src/client_handler.rs:52-101 | new caches and reply of every cached request and every invalidating write |
| HandlerCache.PositionsCacheIsSnapshot | server/src/client_handler.rs:281-303 | cached positions are those of an earlier fetch with no order or close completed since |
| HandlerCache.PositionsReplyIsRecent | server/src/client_handler.rs:281-347 | every positions reply answers a fetch under 2000 ms old, newer than the last order or close; a true snapshot unless that fetch was a failed account-info one |
| HandlerCache.FailedAccountHidesPositions | server/src/client_handler.rs:332-342 | after a failed account-info fetch a positions request shows what the exchange holds exactly when it holds none or two seconds have passed |
| HandlerCache.OrdersCacheIsSnapshot | server/src/client_handler.rs:305-330 | cached orders are those of an earlier fetch with no order, close or cancel completed since |
| HandlerCache.OrdersReplyIsRecent | server/src/client_handler.rs:305-330 | every all-orders reply answers such a fetch under 2000 ms old; a one-symbol reply is always a fetch |
| HandlerCache.TickerCacheIsSnapshot | server/src/client_handler.rs:349-361 | the cached ticker is of an earlier fetch of its own symbol |
| HandlerCache.TickerReplyIsRecent | server/src/client_handler.rs:349-372 | every ticker reply is for the requested symbol and under 2000 ms old |
| CacheHistory.AnsweredIff | server/src/client_handler.rs:12-27 | the cache answers a request exactly when some earlier answer is usable: fetched for the same key under 2000 ms ago, not made invalid and not replaced since |
| CacheHistory.OneLog | server/src/client_handler.rs:12-27 | the history of requests alone decides which of them fetched |
| CacheLaws.PositionsReplyIs | server/src/client_handler.rs:281-303 | in every run a positions request is answered with the last answer while usable, else with what the exchange says, and fails if and only if that fetch does |
| CacheLaws.AccountReplyIs | server/src/client_handler.rs:332-347 | the same for account info, which shows no positions when its fetch fails |
| CacheLaws.OrdersReplyIs | server/src/client_handler.rs:305-330 | the same for all orders; the orders of one symbol are always fetched |
| CacheLaws.TickerReplyIs | server/src/client_handler.rs:349-372 | the same for a ticker, by symbol |
| CacheLaws.WriteReplyIs | server/src/client_handler.rs:265-279 | a write is acknowledged if and only if the exchange accepts it |
| Risk.SizingAcceptedIff | shared/src/risk.rs:34-62 | accepted exactly for positive risk and prices with the stop on the loss side; the last error never occurs |
| Risk.SizingErrors | shared/src/risk.rs:34-53 | which error is returned: the first of risk, entry, stop price and side that is wrong |
| Risk.SizingFields | shared/src/risk.rs:55-72 | quantity times risk per unit is the risk, and risk per unit exceeds the price distance |
| Risk.SizedLoss | shared/src/risk.rs:27-73 | the loss at the stop, with the exit fee at the stop price, differs from the risk by the fee on the distance: below the risk for longs, at most risk * (1 + fee) for shorts |
| Risk.HalfEvenIff | shared/src/risk.rs:75-77 | half-even rounding is the only integer nearer than one half, or the even one at one half |
| Risk.RoundQuantityIsNear | shared/src/risk.rs:75-77 | rounding moves by at most half a unit in the last place, and rounding again changes nothing |
| Risk.RoundQuantityToUnits | client/src/app.rs:1143 | with no decimals, the nearest integer |
| Risk.WholeUnits | client/src/app.rs:1125-1143 | the sized risk moves by at most half a risk per unit, the order is empty exactly up to half a unit, and exceeds the risk exactly when rounding went up |
| Risk.DocumentedExampleIsEmpty | client/src/app.rs:1143 | the documentation's example is sized to 0.009 units and rounded to none |
| Risk.PercentTarget | client/src/app.rs:1148-1154 | a percentage puts the target that share of the entry away, on the other side than the stop exactly when positive |
| Risk.RatioTarget | client/src/app.rs:1156-1164 | n/d puts the target d/n stop distances beyond the entry on the other side; it has no price exactly for n = 0 |
| StepRounding.RoundToStepIsFloor | server/src/binance/client.rs:147-149 | the largest multiple of the step not above the value, and idempotent |
| StepRounding.PlaceAlgoStop | server/src/binance/client.rs:299-328 | trigger and quantity are on the grid, less than a step below what was asked, and unchanged if they were on it |
| StepRounding.PlaceOrder | server/src/binance/client.rs:214-297 | entry on the grid; exactly after acceptance one STOP_MARKET if a stop loss is given, then one TAKE_PROFIT_MARKET if a target is given, each on the other side, for the entry's sent quantity, at the greatest tick multiple not above its price; nothing else |
| StepRounding.ClosePosition | server/src/binance/client.rs:450-477 | a reducing market order for the first position of that symbol and side, rounded twice to the same value; nothing exactly when there is none |
| StepRounding.SentQuantity | server/src/binance/client.rs:233 | what is sent is between zero and half a unit above the sized quantity |
| StepRounding.PerUnitBound | server/src/binance/client.rs:234-272 | flooring the entry and the stop price costs less than one tick per unit |
| StepRounding.SentLossBound | server/src/binance/client.rs:233-272 | from the risk amount to the exchange: the loss of the sent quantity between the sent prices, a limit entry being floored too, stays within the budget of half a unit and one tick |
| CommandText.JoinOfSplit | client/src/app.rs:682-683 | the parts of a command join back to it, and none contains the separator |
| CommandText.SplitOfJoin | client/src/app.rs:682-683 | and parts without the separator are what their join splits into |
| CommandText.TypedPartsWait | client/src/app.rs:682-703 | the actions typed between pipes are the ones that wait, trimmed and in order |
| CommandText.RatioParsesIff | client/src/app.rs:93-102 | two numbers with a slash are a ratio exactly when the second is positive; the first may be zero |
| CommandText.PercentParses | client/src/app.rs:90-92 | a number with a percent sign is that percentage |
| CommandText.PriceParses | client/src/app.rs:103-105 | anything else is the price it reads as |
| CommandText.TrimMeans | client/src/app.rs:683 | trimming takes white space and only that from both ends, and all of it |
| CommandText.WordsAreWords | client/src/app.rs:827 | words are not empty and hold no white space |
| ActionPipeline.Client.constructor | client/src/app.rs:205-248 | the client starts with nothing waiting and BTCUSDT shown |
| ActionPipeline.Client.SetTrailingStop | client/src/app.rs:1259-1361 | one request or a refusal or the abort, in the order of the checks, and nothing else changes |
| ActionPipeline.Client.SetActivityStop | client/src/app.rs:1363-1446 | the same for an activity stop |
| ActionPipeline.Client.ExecuteSingleCommand | client/src/app.rs:826-985 | stops are asked for, `symbol` switches, and any other command runs once for the shown symbol |
| ActionPipeline.Client.ExecuteCommand | client/src/app.rs:671-707 | chain, pipe or single command |
| ActionPipeline.Client.ExecutePendingAction | client/src/app.rs:709-749 | the first waiting action runs and the others wait on |
| ActionPipeline.Client.CreatePendingAutostops | client/src/app.rs:751-824 | what a placed limit order records, action by action |
| ActionPipeline.Client.ProcessMessage | client/src/app.rs:1597-1685 | which messages continue a pipe, which drop it, and when the client cancels a stop |
| PipelineLaws.LimitOrderRecords | client/src/app.rs:1601-1610 | a limit order on the pipe's symbol records the actions up to and including the first that does not parse, and nothing waits any more |
| PipelineLaws.LimitOrderDrops | client/src/app.rs:1602-1609 | for a pipe of another symbol it drops the pipe and sends nothing |
| PipelineLaws.OtherOrdersDoNothing | client/src/app.rs:1601 | any other order leaves the client as it is |
| PipelineLaws.ContinueDoes | client/src/app.rs:1629-1673 | a confirmation for the pipe's symbol, or a position that opens on it, handles exactly the first action, if not empty, and exactly the others wait on |
| PipelineLaws.MismatchDrops | client/src/app.rs:1629-1673 | one for another symbol drops the pipe and sends nothing |
| PipelineLaws.OpensIff | client/src/app.rs:1625-1629 | a position opens exactly when none was on the shown symbol and now one is |
| PipelineLaws.PositionGoneDoes | client/src/app.rs:1638-1646 | when it goes, exactly the cancel of a shown stop is sent, and the pipe waits on |
| PipelineLaws.SamePositionsDoNothing | client/src/app.rs:1624-1647 | otherwise positions are only shown |
| PipelineLaws.SingleCommandDoes | client/src/app.rs:826-984 | a command that is no stop runs once for the shown symbol, and `symbol` switches |
| PipelineLaws.SingleStopDoes | client/src/app.rs:901-978 | a stop typed by itself asks once, if it has its arguments |
| PipelineLaws.ChainRuns | client/src/app.rs:672-680 | a chain runs its trimmed parts one after another |
| PipelineRuns.HeldMeans | client/src/app.rs:1287-1305 | the position looked at is the first on the symbol and side |
| PipelineRuns.MadeAtMostOnce | client/src/app.rs:709-749 | one action makes at most one request, record or run |
| PipelineRuns.RecordAllMakes | client/src/app.rs:758-821 | for a limit order exactly the records of the actions up to and including the first whose numbers do not parse are sent, in order; the others are lost |
| PipelineRuns.ContinueMakes | client/src/app.rs:709-749 | a continuation sends exactly what the first action makes, once, and leaves exactly the others |
| PipelineRuns.ReceiveMakes | client/src/app.rs:1597-1685 | any message sends exactly what a prefix of the waiting actions makes; how many and what waits on is decided by the message and the symbols alone |
| PipelineRuns.OnlyPipesWait | client/src/app.rs:671-707 | only a pipe outside a chain sets waiting actions, namely those typed, for the shown symbol and the side of the first command |
| PipelineRuns.ConsumedStep | client/src/app.rs:1597-1685 | one event lets more of the typed actions act exactly when it is a message that continues the pipe or places its order, and keeps the account of all that was sent |
| PipelineRuns.HandledIsPrefix | client/src/app.rs:682-749 | after a piped command, over every sequence of messages and commands until the next pipe, all that messages made the client send is what a prefix of the typed actions makes, in order and each at most once, what waits is exactly the rest, and the messages that let actions act are exactly those that continue the pipe or place its limit order |
| PipelineRuns.CancelsAreSeparated | client/src/app.rs:1638-1646 | between two cancels of a stop whose position is gone the server reported a stop as activated or active |
| PipelineSymbols.LastNamedMeans | client/src/app.rs:860-863 | the symbol named last is the one of the last effective `symbol` command, or the first one shown |
| PipelineSymbols.ShownIsNamedLast | client/src/app.rs:860-863 | over every run the client shows the symbol named last, and what was sent is never taken back |
| PipelineSymbols.AskedForTypedSymbolIff | client/src/app.rs:1629-1673 | in every run a continued stop is for the symbol its pipe was typed for exactly when no `symbol` command ran since or the last one named it; always when the positions message continued it |
| PipelineSymbols.SwitchedSymbolGetsTheStop | client/src/app.rs:1660-1673 | a run from the client's first state, for any other symbol: the second stop of a pipe typed for BTCUSDT is asked for that other symbol |
| StopRequests.TypedStopIsRecorded | client/src/app.rs:764-818 | a stop of two or three words records exactly its numbers for the limit order, and fails exactly when one does not parse as such |
| StopRequests.TypedPricesAreAsked | client/src/app.rs:1259-1346 | a trailing stop of two prices, continued, asks for activation at the first with the second as distance |
| StopRequests.TypedSecondsAreAsked | client/src/app.rs:1363-1433 | an activity stop of seconds, with a price or without, asks for exactly these |
| StopRequests.FixedTrailingIsAsked | client/src/app.rs:1298-1345 | a fixed trigger asks for itself, with the callback as distance or percentage |
| StopRequests.TrailingRefusedIff | client/src/app.rs:1259-1336 | exactly when nothing is asked |
| StopRequests.FixedActivityIsAsked | client/src/app.rs:1363-1430 | what an activity stop asks for with a fixed trigger or none, and exactly when it asks |
| StopRequests.SideForIs | client/src/app.rs:1284-1296 | a stop is for the given side, or for that of the first position on the shown symbol |
| StopRequests.PercentStopIsAsked | client/src/app.rs:1259-1346 | the documented stop with two percentages, continued, asks for a trailing stop counted from the last price |
| StopRequests.PercentPriceMeans | client/src/app.rs:1299-1302 | its activation price is that share of the last price above it for a long, below for a short |
| StopRequests.TrailingAbortsIff | client/src/app.rs:1304-1310 | asking for a trailing stop divides by zero exactly for a ratio with a zero first number, with all else known and a stop loss on the position |
| StopRequests.ActivityAbortsIff | client/src/app.rs:1386-1395 | the same for an activity stop |
| StopRequests.RatioRequestMeans | client/src/app.rs:1389-1400 | a ratio n/d asks for a trigger d/n stop distances beyond the entry of the first position on that symbol and side |

## Left out

- Sockets, TLS, certificates, authentication, HTTP requests and reconnect loops: input and output that cannot be seen.
- JSON and bincode parsing of exchange payloads and client messages: parsed values are inputs.
- Terminal drawing, chart scaling, mouse, audio, clipboard, key handling, history and command help: user interface.
- Several connections at once, and the interleaving of two handlers of one connection between the save and the install: the claims hold per atomic handler.
- Forwarding of orders, positions, trades and candles to the client, the bare acknowledgements of subscriptions, and failures to send a message: the model's output holds only what concerns stops and autostops.
- Database failures and rows that do not parse: writes succeed and every row loads.
- Listing the pending autostops for the client, and their creation time: no property depends on them.
- The outcome of setting a trailing stop when an order fills, which is only logged, and the spawned cancellation of limit orders: both appear as effects.
- Arithmetic beyond exact reals: 28-digit decimal rounding and its overflow, and overflow of 64-bit counters and clocks.
- The difference between the wall clock and the monotonic clock: there is one clock.
- Protocol.EncodeTcpFrame: the wrap-around that replaces the abort in release builds is shown as the same `Overflow` error.
- The zero-copy encoders (the same bytes), the packet logging, and the split of types into TCP and UDP ones.
- SequenceTracker.CountsAreTrueIff: streams in which a single gap exceeds a full turn of the 32-bit numbering are excluded, because no receiver can see such a gap.
- Risk.DocumentedExampleIsEmpty: one input only; the general statement is `Risk.WholeUnits`.
- ActionPipeline.Client.ExecuteSingleCommand: what a command other than `symbol`, `ts` and `as` does is one effect naming the command and the symbol; orders, charts, levels and sound are not followed further.
- ActionPipeline.Client.ProcessMessage: that the client takes a price from a ticker only for the shown symbol or for a waiting order is left to the message `PriceIs`; waiting risk orders, and what the client shows, are not modelled.
- A failure to send, which would stop a chain of commands, does not occur.
- The number parsers of the client are parameters; white space and upper case are those of ASCII, all six white-space characters of it.
- Trailing-stop callback limits, loading of symbol information, the Bybit client and interval names: one-branch facts or input and output.
