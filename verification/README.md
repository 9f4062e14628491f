# Trading gateway and market data: verified models

Dafny models of four cooperating parts of a C++ trading system, and proofs
about them.

1. **The Hyperliquid order gateway** (`gateway/`). Six maps track orders by
   client id, cloid, exchange oid, active oid, asset and state; fills that
   arrive before their order is known wait in a buffer; IOC orders are swept on
   a timeout; REST replies are matched by correlation id. `GatewayModel` is
   the state machine, one function per event; the classes of `GatewayClasses`
   are proved to compute it method by method, loops included; the theorems are
   about whole runs. `GatewayAsked` traces what is sent and reported back to what
   the strategy asked, `GatewayOutcomes` and `GatewayReplies` spell out what each
   event brings about.
2. **The message queue on disk** (`sbe/`). One writer appends framed messages
   to a data file and end offsets to an index file; a reader polls both.
   `SbeCodec` is the framing with its round trip, `SbeLayout` its bytes one by
   one, `SbeQueue` the protocol as
   single writer steps interleaved with polls, `SbeRaces` the same with writer
   steps inside a poll, `SbeRestart` a producer that starts over, `SbeClasses`
   the writer that encodes in place in its buffer and the poller.
3. **Market data** (`md/`). `Registry` allocates security ids by a hashed,
   wrapping probe and keeps statuses; `Stream` says what the readers of the
   emitted stream may rely on, and how a reader rebuilds reference data from
   it; `DeribitModel` and `Hyperliquid` are the two processors, proved as
   objects in `DeribitProcessor` and `HyperliquidProcessor`. `Reading` rebuilds
   prices from a stream: `DeribitFeed` and `HyperliquidFeed` prove that they are
   the exchange's, `DeribitHistory` that statuses and connection follow from the
   messages received, `HyperliquidHistory` what each message makes known.
4. **Replaying captures** (`historical/`, `fix/`). A hand-written tag=value
   reader, timestamp parser with a cache and fixed-point parser; the fast path
   that uses them, proved to have the effect of the plain path; line splitting,
   the backward scan for the last logon, and priming from it. `CaptureFiles`
   writes captures and reads them back.

`dafny verify dfyconfig.toml` checks everything.

## How to read it

Each imperative C++ file has a class with its fields and methods. A
method's contract equates the new state with a function of the old one
(`World() == Step(old(World()), e)` and the like), and what is promised about
that function is proved as lemmas, over runs where runs are the point. The
lemmas say what leaves the system without naming the function: against what came
in (`ReaderHasFeed`, `StatusesFollowHistory`, `EveryEntryGoesBack`), against a
printer (`PrintedInstantReadsBack`, `FileReadsBack`, `PrintRoundTrip`,
`ParseEncoded`), or as a table of outcomes (`CloseOutcome`, `PlaceReplyOutcome`,
`BookMakesKnown`).

What stands for the environment is an argument of the event: the order in which
a hash map is traversed, readings of the clock, the cloid that was generated,
what a full parse makes of a line, `std::hash`. Theorems hold for all of them;
where something is assumed about them it is a named predicate: `Admissible`
(cloids are fresh, client ids non-empty and unused, an oid always has one cloid,
a traversal visits every key once) and `ClockAdvances` in the gateway, `Accepts`
in the processors (free ids left, traversals complete, output on), `Faithful`
for captures. `PrintedMessages` proves `Faithful` of every market-data message
printed from groups that carry its entries.

Where a property does not hold of the code in general, the file says exactly
when it does. The if-and-only-ifs are `LastWord` and `OnlyLateFailures` (an
order that ended is reported once more when its place request fails as a whole
after that), `FillsSettleInArrivalOrder` (a fill can overtake a waiting one),
`EarlyFillsHarmless` and `FillsAreNamed` (a replay can overfill an order),
`TriggerReportAddsUp`, `SnapshotTrades` (the trades of a snapshot are dropped
unless a side is deep), `LaterUnlessOverlapping` (a leap second counts like the
first second of the next day), `FindLastLogon` and `ScanSeesLogons` (a line cut
short is missed), and `LogonStartsAnew`. `GatewayWitnesses` has runs from the
initial state that show it: `RejectedTwice`, `FormerOidOvertakes`,
`IocCanceledAfterFilled`. See also `IocFillIsNotLastWord`, `LeapSecondOf2016`
and `CutShortIsMissed`.

Where code and messages disagree the code is followed: a fill of an unknown oid
is logged as buffered until its order update arrives, but an update for an
order's former oid registers that oid without replaying what waits under it
(`src/gateway/HyperliquidGWApplication.cpp:85-101`).

## Model

| member | source | states |
|---|---|---|
| `GatewayCoherence.ReachableCoherent` | src/gateway/HyperliquidOrdersHandler.cpp:61-70 | In every state a valid run reaches: client ids and cloids are mutual inverses, asset keys are the live cloids, state keys include them, active oids map back, an oid that leads to a live order implies an Open was seen, and every IOC state has a client id |
| `GatewayCoherence.StepCoherent` | src/gateway/HyperliquidGWApplication.cpp:76-227 | Each single event keeps that coherence |
| `GatewayCoherence.RemoveOrderIsExact` | src/gateway/HyperliquidOrdersHandler.cpp:324-344 | Removing an order leaves no trace of it in any of the six maps, and every entry of every other order is as it was |
| `GatewayCoherence.LookupsRoundTrip` | src/gateway/HyperliquidOrdersHandler.cpp:226-322 | In every state a valid run reaches the lookups undo one another: client id to cloid and back, live order to client id and back, active oid of a live order to the order and its client id; an oid that leads to a client id leads to an order that was opened |
| `GatewayTerminal.StepInv` | src/gateway/HyperliquidGWApplication.cpp:76-433 | Every single event keeps this, but for a place request that fails as a whole when its order is gone: nothing is written for an order after the report that ended it, and an order that has a client id has not ended |
| `GatewayLastWord.LastWord` | src/gateway/HyperliquidGWApplication.cpp:218-357 | Over any run, for every non-empty cloid: no execution report is written for it after its CANCELLED, or REJECTED other than an amend reject, if and only if no place request of it fails as a whole (status not ok and no items) after that; if one does there is exactly one report too many, a PlaceReject without a client id. With `filledEnds` the same with FILLED as an end too, for orders that are never IOC |
| `GatewayLastWord.OnlyLateFailures` | src/gateway/HyperliquidGWApplication.cpp:314-326 | In every reachable state in which an order has ended the next event writes another report for it if and only if it is a reply with status not ok and no items to a place request still pending for it; that report is the only one and has no client id |
| `GatewayWitnesses.RejectedTwice` | src/gateway/HyperliquidGWApplication.cpp:319-326 | A run that does it: a limit order the exchange rejects and whose place request then fails is reported REJECTED twice |
| `GatewayLastWord.IocFillIsNotLastWord` | src/gateway/HyperliquidGWApplication.cpp:306-309 | For a tracked IOC order a FILLED is no last word: a CANCELLED that arrives then is reported after it, and exactly these two reports are written |
| `GatewayWitnesses.IocCanceledAfterFilled` | src/gateway/HyperliquidGWApplication.cpp:306-309 | A run from the initial state that does it: market order, Open, complete fill, cancel |
| `GatewayRequests.ReachableNumbered` | src/gateway/HyperliquidGWApplication.cpp:456-478 | In every reachable state every pending correlation id is below the next one and belongs to one kind of request only; so a request always goes out under an id nothing pending has |
| `GatewayRequests.RequestTakenOnce` | src/gateway/HyperliquidGWApplication.cpp:435-478 | Over every run a request is taken by at most one reply: an id once taken is never pending again |
| `GatewayRequests.StepPlacedOnce` | src/gateway/HyperliquidOrdersHandler.cpp:61-81 | An order has at most one place request pending, none before its cloid was seen, and none again once it is gone |
| `GatewayFills.FillConservation` | src/gateway/HyperliquidGWApplication.cpp:229-258 | Over every run, whatever the events, the multiset of non-snapshot fills received is that of the fills reported, expired, cleared on disconnect and still waiting |
| `GatewayFillOrder.FillsSettleInArrivalOrder` | src/gateway/HyperliquidGWApplication.cpp:229-258 | Over every run with a clock that does not go back: the fills of an oid, settled then waiting, are at every moment exactly those received and in that order, if and only if no fill arrives for an oid that leads to a live order while an earlier, different one of it waits |
| `GatewayFillOrder.StepOrder` | src/gateway/HyperliquidGWApplication.cpp:76-258 | For every single event: what it brings is put last, if and only if it does not overtake |
| `GatewayWitnesses.FormerOidOvertakes` | src/gateway/HyperliquidGWApplication.cpp:85-101 | A run from the initial state that loses the order: an update for a former oid registers it without a replay, and the next fill of the oid is settled while the first still waits |
| `GatewayFillOrder.ReplayKeepsOrder` | src/gateway/HyperliquidGWApplication.cpp:567-592 | A replay settles the waiting fills of the oid in order, and no other |
| `GatewayQuantity.QuantityAccounting` | src/gateway/HyperliquidGWApplication.cpp:260-310 | Over every run, in every report that carries a client id: a NEW one adds up, carries no fill, and has cumQty 0 if the size is tracked; it says PARTIALLY_FILLED or FILLED if and only if it carries a fill, and then cumQty is the sum of fills since the last acknowledgement, orderQty the size announced there, the three quantities add up unless overfilled, FILLED exactly when the sum has reached the size. A CANCELLED or REJECTED an update, a partial close or an IOC timeout writes for an order acknowledged before has that sum as cumQty, that size as orderQty and leaves nothing open |
| `GatewayOverfills.FillsAreNamed` | src/gateway/HyperliquidGWApplication.cpp:567-592 | Over every run, whatever the events: every fill reported carries a client id, if and only if no Open replays more fills than its order has room for |
| `GatewayOverfills.StepNamed` | src/gateway/HyperliquidGWApplication.cpp:76-258 | For every single event: it reports a fill for nobody if and only if it is an Open of a known order whose waiting fills do not fit it |
| `GatewayQuantity.TriggerReportAddsUp` | src/gateway/HyperliquidGWApplication.cpp:185-206 | Why triggers are excluded above: the report of one adds up if and only if the tracked size is already filled |
| `GatewayEarlyFills.EarlyFillsHarmless` | src/gateway/HyperliquidGWApplication.cpp:90-97 | Moving the fills of an unknown oid from before its Open to after it gives the same final state and the same log if and only if none of them comes after a non-IOC order is full |
| `GatewayAsked.EveryEntryGoesBack` | src/gateway/HyperliquidOrdersHandler.cpp:22-204 | Over every run: every place or modify request sent has the price, size, side and time in force of a request of the strategy, under the cloid its client id stands for; a cancel is sent for a cancel asked for; every report that names an order names the client id it was entered with; a refusal names the request refused |
| `GatewayAsked.LiveAsSent` | src/gateway/HyperliquidOrdersHandler.cpp:48-72 | Over every run: a live order is tracked with the size, the side and the kind of the request sent last for it, and with the asset it was placed for |
| `GatewayAsked.OpenAnnouncesSent` | src/gateway/HyperliquidOrdersHandler.cpp:266-275 | Over every run: the Open of a live order is reported NEW with the larger of the size sent last for it and the size the exchange tells, nothing filled and all of it open |
| `GatewayFrames.StepFair` | src/gateway/HyperliquidGWApplication.cpp:76-433 | No event but a request brings an order to life, changes the client id, asset or request of a live one or sends anything; each report is for the client id its order had, or for none |
| `GatewayReplies.PlaceReplyOutcome` | src/gateway/HyperliquidGWApplication.cpp:336-351 | For every reply with entries to a pending place request of a live order: if and only if some entry is an error, one REJECTED report is written for its client id with the text of the first error and the order is gone, every other order as it was; if none is, only the pending entry changes |
| `GatewayReplies.FailedPlaceOutcome` | src/gateway/HyperliquidGWApplication.cpp:314-326 | A reply without entries rejects the order with the status text if and only if that is not ok |
| `GatewayReplies.ModifyReplyOutcome` | src/gateway/HyperliquidGWApplication.cpp:359-399 | A reply to an amend writes one REJECTED report with the status text, for a known order, if and only if the status is not ok; no order changes |
| `GatewayReplies.CancelReplyOutcome` | src/gateway/HyperliquidGWApplication.cpp:401-433 | A reply to a cancel writes one cancel reject for each error in it, in their order and with its text, or one for the whole; no order changes |
| `GatewayOutcomes.NewOrderOutcome` | src/gateway/HyperliquidOrdersHandler.cpp:22-81 | A new order is sent under the next number for the asset its security is called by, and entered under its client id with no other order touched, if and only if it can be traded; otherwise one refusal is written; in replay nothing happens |
| `GatewayOutcomes.AmendOrderOutcome` | src/gateway/HyperliquidOrdersHandler.cpp:84-149 | An amend is sent, and the request part of the state replaced, if and only if the order is known and can be traded; otherwise nothing happens |
| `GatewayOutcomes.CancelOrderOutcome` | src/gateway/HyperliquidOrdersHandler.cpp:151-204 | A cancel is sent for the asset of the order if and only if connected and known, refused otherwise, and changes no order |
| `GatewayOutcomes.OpenOutcome` | src/gateway/HyperliquidGWApplication.cpp:151-227 | What is reported first for an Open: status, side, price, order type, security and quantities, for a live order only |
| `GatewayOutcomes.CloseOutcome` | src/gateway/HyperliquidGWApplication.cpp:99-227 | What any other update does: one report, whose status, reason, side, price and quantities are spelled out, and the order is gone, if and only if it is live and the update is for its active oid, and for a filled one fills are missing; for a former oid nothing is reported |
| `GatewayOutcomes.FillOutcome` | src/gateway/HyperliquidGWApplication.cpp:229-310 | A fill of a known oid gives one report for its order, with its side, security and quantities, and the order is gone exactly if it is filled and not IOC; any other fill waits |
| `GatewayOutcomes.ExpiryOutcome` | src/gateway/HyperliquidGWApplication.cpp:594-610 | Given up are exactly the fills that have waited five seconds, in order, and kept exactly the others |
| `GatewayOutcomes.IocDueIs` | include/gateway/HyperliquidOrdersHandler.h:70-80 | An IOC order is overdue exactly when that many nanoseconds have passed since it was last asked for |
| `GatewayOutcomes.LookupOutcome` | src/gateway/RefDataHolder.cpp:5-35 | After an ADD the symbol and the market symbol both lead to the id, after a REMOVE neither does, and every other name is as it was |
| `GatewaySweep.SweepExact` | src/gateway/HyperliquidGWApplication.cpp:594-651 | After a timeout check nothing overdue is tracked, each overdue order got one report made from its own state, and in all six maps the entries of every other order, and only those, are as they were |
| `GatewaySweep.TimeoutReportOfDue` | src/gateway/HyperliquidGWApplication.cpp:612-650 | That report is CANCELLED, carries the client id and the cumulative quantity of the order, and leaves nothing open |
| `GatewayClasses.OrdersHandler.InitOrderState` | src/gateway/HyperliquidOrdersHandler.cpp:266-275 | The tracked size is the larger of the requested and the reported one, and the filled quantity starts from zero |
| `GatewayClasses.OrdersHandler.ApplyFill` | src/gateway/HyperliquidOrdersHandler.cpp:308-313 | The fill is added to the filled quantity and the new state returned |
| `GatewayClasses.OrdersHandler.RemoveOrder` | src/gateway/HyperliquidOrdersHandler.cpp:324-344 | The erasing loop and the five erasures compute the removal specified by the order book |
| `GatewayClasses.OrdersHandler.CollectTimeouts` | include/gateway/HyperliquidOrdersHandler.h:70-80 | The overdue IOC orders in the order the state map is traversed |
| `GatewayClasses.OrdersHandler.OnNewOrder` | src/gateway/HyperliquidOrdersHandler.cpp:22-81 | The world after a new order: rejected, or entered into the maps and sent |
| `GatewayClasses.OrdersHandler.OnAmendOrder` | src/gateway/HyperliquidOrdersHandler.cpp:84-149 | The world after an amend: ignored, or the state changed and the modification sent |
| `GatewayClasses.OrdersHandler.OnCancelOrder` | src/gateway/HyperliquidOrdersHandler.cpp:151-204 | The world after a cancel: rejected, or the cancellation sent |
| `GatewayClasses.GatewayApplication.ExpireFills` | src/gateway/HyperliquidGWApplication.cpp:594-610 | The erase-while-iterating loop keeps the fresh fills in order and logs the stale ones in order |
| `GatewayClasses.GatewayApplication.TimeOutOrder` | src/gateway/HyperliquidGWApplication.cpp:614-649 | What the sweep does with one overdue order |
| `GatewayClasses.GatewayApplication.CheckTimeouts` | src/gateway/HyperliquidGWApplication.cpp:594-651 | Expiry of waiting fills, then the IOC sweep |
| `GatewayClasses.GatewayApplication.EmitFillExecutionReport` | src/gateway/HyperliquidGWApplication.cpp:260-310 | The report of one fill, and the removal of a filled order that is not IOC |
| `GatewayClasses.GatewayApplication.ReplayBufferedFills` | src/gateway/HyperliquidGWApplication.cpp:567-592 | The waiting fills of the oid are taken out and reported one by one, the order looked up again each time |
| `GatewayClasses.GatewayApplication.OnUserFill` | src/gateway/HyperliquidGWApplication.cpp:229-258 | A snapshot fill is skipped, a fill of an unknown oid waits, any other is reported |
| `GatewayClasses.GatewayApplication.ReportUpdate` | src/gateway/HyperliquidGWApplication.cpp:151-227 | The report of an update, then a replay after Open or the removal of the order |
| `GatewayClasses.GatewayApplication.CloseFilled` | src/gateway/HyperliquidGWApplication.cpp:102-148 | A filled update cancels what is left of a partly filled order and removes it |
| `GatewayClasses.GatewayApplication.OnOrderUpdate` | src/gateway/HyperliquidGWApplication.cpp:76-227 | The whole handler, branch by branch |
| `GatewayClasses.GatewayApplication.SendNewOrderReject` | src/gateway/HyperliquidGWApplication.cpp:482-511 | The reject is reported and the order removed |
| `GatewayClasses.GatewayApplication.OnPlaceReply` | src/gateway/HyperliquidGWApplication.cpp:314-357 | The request is taken once; errors reject the order if it is still known |
| `GatewayClasses.GatewayApplication.OnModifyReply` | src/gateway/HyperliquidGWApplication.cpp:359-399 | An amend reject is reported and the order kept |
| `GatewayClasses.GatewayApplication.OnCancelReply` | src/gateway/HyperliquidGWApplication.cpp:401-433 | One cancel reject per error |
| `GatewayClasses.GatewayApplication.OnDisconnected` | src/gateway/HyperliquidGWApplication.cpp:57-72 | Pending requests and waiting fills are dropped |
| `GatewayClasses.GatewayApplication.Handle` | src/gateway/HyperliquidGWApplication.cpp:42-258 | Handling any event takes the object to the next state of the machine the theorems above are about |
| `RefData.RefDataHolder.OnSecurityDefinition` | src/gateway/RefDataHolder.cpp:5-35 | Both tables after an ADD or a REMOVE |
| `SbeCodec.ParseEncoded` | src/sbe/SBEQueuePoller.cpp:64-198 | Whatever follows it in the buffer, an accepted message is read back whole, for every modelled template, and the frame length is the number of bytes written |
| `SbeCodec.ReadStringsBack` | src/sbe/SBEUtils.cpp:256-267 | Variable-length strings are read back from their lengths and the bytes after the block |
| `SbeLayout.HeaderBytes` | include/sbe/SBEBinaryWriter.h:63-73 | A frame starts with block length, template, schema 1 and version 1, two bytes each, the low one first, with the numbers of every modelled template |
| `SbeLayout.SlotBytes` | include/sbe/SBEUtils.h:35-52 | The i-th string has its length in four bytes, the low one first, in the i-th slot of the block |
| `SbeLayout.ForeignPassedOver` | src/sbe/SBEQueuePoller.cpp:190-200 | A frame of a template the reader does not know is passed over, header and block, and nothing is delivered |
| `SbeQueue.DeliveredIsPrefix` | src/sbe/SBEQueuePoller.cpp:42-201 | Under every interleaving of writer steps and polls the messages delivered are a prefix of those accepted, and no poll is stuck on a message |
| `SbeQueue.StepRefinesQueue` | include/sbe/SBEBinaryWriter.h:87-144 | Every step is a step of a first-in first-out queue, or leaves it as it is |
| `SbeQueue.IdleWriterDrains` | src/sbe/SBEQueuePoller.cpp:42-201 | Once the writer is idle, as many polls as messages are left deliver every one |
| `SbeQueue.ReadsStayCommitted` | src/sbe/SBEQueuePoller.cpp:238-288 | The bytes a poll copies are committed by the index and lie inside the mapping and the file |
| `SbeQueue.PollDelivers` | src/sbe/SBEQueuePoller.cpp:42-201 | In any reachable state a poll delivers the next message if the visible index covers it, and otherwise nothing |
| `SbeQueue.RestartIsNoticed` | src/sbe/SBEQueuePoller.cpp:203-264 | A poll that finds the index shorter than known is that of a reader opening the new file |
| `SbeRestart.RestartDeliversNewFile` | src/sbe/SBEQueuePoller.cpp:203-264 | From that poll on, under every interleaving with the new producer, the reader delivers after what it had delivered a prefix of what the new files are given, and is stuck on nothing |
| `SbeRaces.RacesDeliverPrefix` | src/sbe/SBEQueuePoller.cpp:42-347 | The messages delivered stay a prefix of those accepted when the writer also steps between the ten looks a poll takes at sizes, mappings and contents, any number of steps in each gap |
| `SbeRaces.RacedInv` | src/sbe/SBEQueuePoller.cpp:42-347 | Such a poll delivers at most the next message, and does deliver it if the index covered it when the poll began |
| `SbeRaces.RacingReadsStayCommitted` | src/sbe/SBEQueuePoller.cpp:203-288 | Whatever the looks see of growing files, nothing is copied beyond what the data file holds by then |
| `SbeRaces.QuietRaceIsPoll` | src/sbe/SBEQueuePoller.cpp:42-347 | If all looks see the same, it is the poll of the queue model |
| `SbeClasses.BinaryWriter.PrepareMessage` | include/sbe/SBEBinaryWriter.h:52-83 | The buffer holds the header over a cleared block: the encoding of the blank message |
| `SbeClasses.BinaryWriter.SetField` | src/sbe/SBEUtils.cpp:82-90 | Writing a fixed field patches the root block and keeps buffer and message in step |
| `SbeClasses.BinaryWriter.SetVarString` | include/sbe/SBEUtils.h:36-55 | Writing a length and appending the bytes gives the encoding of the message with that string set; too long a string is refused |
| `SbeClasses.BinaryWriter.AddGroup` | src/marketdata/DeribitMessageProcessor.cpp:93-147 | Appending the levels of a book gives the encoding of the message with that group |
| `SbeClasses.BinaryWriter.WriteMessage` | include/sbe/SBEBinaryWriter.h:85-144 | A message with all groups of its template is well formed; if it fits it goes through the four steps of the queue in order; one that does not is refused |
| `SbeClasses.WrittenIsAppended` | include/sbe/SBEBinaryWriter.h:85-144 | After the four steps the file holds one more message, covered by the index and visible: what the queue asks of its writer is kept from write to write |
| `SbeClasses.QueuePoller.Next` | src/sbe/SBEQueuePoller.cpp:42-201 | The poller object computes the poll of the queue model |
| `SbeClasses.QueuePoller.RefreshCommittedEnd` | src/sbe/SBEQueuePoller.cpp:203-236 | The committed end after a look at the index |
| `SbeClasses.QueuePoller.FillBuffer` | src/sbe/SBEQueuePoller.cpp:238-288 | Mapping, restart detection and the copy of committed bytes |
| `SbeClasses.QueuePoller.InitializeFileMapping` | src/sbe/SBEQueuePoller.cpp:310-347 | The reader after opening the files |
| `SbeClasses.QueuePoller.HandleBufferTooSmall` | src/sbe/SBEQueuePoller.cpp:356-369 | Consecutive failures at one position are counted |
| `DecimalParser.StringToMantissa` | src/sbe/SBEUtils.cpp:31-69 | For every string whose magnitude is below 2^63 no intermediate leaves the 64-bit range and the result is the fixed-point reading |
| `Decimal.MantissaTruncates` | src/sbe/SBEUtils.cpp:31-69 | That reading is the number written, times 10^scale, truncated toward zero, with or without a minus, with or without a point, for any number of digits |
| `Decimal.PrintRoundTrip` | src/sbe/SBEUtils.cpp:31-69 | Reading the canonical eight-decimal form of a mantissa gives the mantissa |
| `LightFix.ParsePrinted` | src/fix/LightFIXMessage.cpp:6-33 | Parsing a printed list of fields gives back its first 512 fields, so all of them when there are no more |
| `LightFix.GroupsPartition` | src/fix/LightFIXMessage.cpp:57-74 | The groups of a delimiter, one after the other, are the fields from the first delimiter on |
| `LightFix.GroupShape` | src/fix/LightFIXMessage.cpp:57-74 | A group starts with its delimiter and holds no other |
| `LightFix.LightFixMessage.Parse` | src/fix/LightFIXMessage.cpp:6-33 | The loops over the text fill the table with exactly the fields of the text, at most 512 |
| `LightFix.LightFixMessage.GetField` | src/fix/LightFIXMessage.cpp:35-40 | The value of the first field with the tag, empty if there is none |
| `LightFix.LightFixMessage.GetGroupField` | src/fix/LightFIXMessage.cpp:50-55 | The same within one group |
| `LightFix.LightFixMessage.GetGroup` | src/fix/LightFIXMessage.cpp:57-74 | The slice of the table that is the group asked for, or none |
| `Timestamp.TimestampParser.ParseNanos` | src/fix/LightFIXMessage.cpp:76-122 | Whatever was parsed before, the cached parser returns the nanoseconds of the instant modulo 2^64 |
| `Timestamp.TimestampParser.RefreshCache` | src/fix/LightFIXMessage.cpp:88-96 | The cache holds the midnight of the date it is keyed by |
| `Timestamp.LaterUnlessOverlapping` | src/fix/LightFIXMessage.cpp:76-122 | For any two UTC instants, leap seconds included, of which one is later field by field: its count is larger if and only if the earlier is not a leap second whose fraction reaches to or past the later one, in the first second of the next day |
| `Timestamp.LaterIsLarger` | src/fix/LightFIXMessage.cpp:76-122 | The order of any two counts: exactly when one is smaller, for all UTC instants; on the calendar, exactly when it is earlier |
| `Timestamp.ParsedInOrder` | src/fix/LightFIXMessage.cpp:76-122 | The same for the answers to two timestamps as parsed, from 1970 to 2553 |
| `Timestamp.NoWrap` | src/fix/LightFIXMessage.cpp:85-119 | From 1970 to 2553 nothing wraps, leap seconds included |
| `Timestamp.LeapSecondCollides` | src/fix/LightFIXMessage.cpp:98-102 | Every leap second counts the same as the first second of the next calendar day, across ends of months and years, which is later |
| `Timestamp.LeapSecondOf2016` | src/fix/LightFIXMessage.cpp:98-102 | So 2016-12-31 23:59:60 and 2017-01-01 00:00:00 have one count |
| `Timestamp.PrintedInstantReadsBack` | src/fix/LightFIXMessage.cpp:76-122 | Every UTC instant up to the year 9999, printed with any 0 to 9 fraction digits that represent it, is read back as it was |
| `Timestamp.PrintedInstantCounts` | src/fix/LightFIXMessage.cpp:85-119 | So what is parsed from it are the nanoseconds since 1970, by a count of days in cycles of 400 years, modulo 2^64 |
| `Timestamp.FractionScales` | src/fix/LightFIXMessage.cpp:104-119 | The digits after the point, over ten to their number, are the fraction of a second; without one to nine of them it is zero |
| `Timestamp.CalendarByCycles` | src/fix/LightFIXMessage.cpp:88-96 | The days since 1970 by years, months and leap days are those counted in cycles of 400 years |
| `Registry.MessageProcessor.Probe` | src/marketdata/MessageProcessor.cpp:24-32 | With fewer than 2^31-1 securities the wrapping probe terminates, and stops at the first free id |
| `Registry.FreeId` | src/marketdata/MessageProcessor.cpp:24-32 | That id is free, lies in 1 to 2^31-1, and is the hashed one unless that is taken |
| `Registry.FailedProbes` | src/marketdata/MessageProcessor.cpp:26-32 | Each failed probe uses up a registered id, so there are no more of them than securities |
| `Registry.CreateKeepsInverse` | src/marketdata/MessageProcessor.cpp:15-37 | Creating a security keeps symbols and ids mutual inverses and gives a new symbol an id no other has |
| `Registry.ForgetKeepsInverse` | src/marketdata/MessageProcessor.cpp:119-148 | So does removing one, and its id is free again |
| `Registry.MessageProcessor.CreateSecurity` | src/marketdata/MessageProcessor.cpp:15-37 | A known symbol keeps its id, a new one gets the first free one |
| `Registry.MessageProcessor.RemoveSecurity` | src/marketdata/MessageProcessor.cpp:119-148 | The removal is announced and both maps lose the security |
| `Registry.MessageProcessor.UpdateSecurityStatus` | src/marketdata/MessageProcessor.cpp:150-186 | A status is stored and sent only if it is news |
| `Registry.MessageProcessor.UpdateConnectionStatus` | src/marketdata/MessageProcessor.cpp:93-117 | The connection status is stored, and sent if output is on |
| `Registry.MessageProcessor.InvalidateState` | src/marketdata/MessageProcessor.cpp:60-86 | Every security goes offline and is removed in traversal order, then both maps are empty |
| `DeribitRuns.StreamProtocol` | src/marketdata/DeribitMessageProcessor.cpp:149-254 | Over a whole run with output on: consecutive statuses of a security differ, every update comes after a full book sent since the latest PENDING_SNAPSHOT, and symbols and ids are mutual inverses |
| `DeribitRuns.StepKeepsOrder` | src/marketdata/DeribitMessageProcessor.cpp:24-430 | Each handler keeps that |
| `DeribitRuns.ReaderAgrees` | src/marketdata/DeribitMessageProcessor.cpp:317-393 | A holder fed the stream of any run with output on holds exactly the registered securities, answers with their ids, and with 0 if and only if a symbol is not registered |
| `DeribitRuns.StepKeepsAgreement` | src/marketdata/DeribitMessageProcessor.cpp:256-430 | Each handler keeps processor and reader in agreement |
| `Stream.InvalidateKeepsAgreement` | src/marketdata/MessageProcessor.cpp:60-86 | After an invalidation the reader holds nothing, like the processor |
| `Stream.WellBehavedEverywhere` | src/marketdata/MessageProcessor.cpp:150-186 | Every message of a well-behaved stream fits what precedes it |
| `DeribitModel.SplittingLosesNothing` | src/marketdata/DeribitMessageProcessor.cpp:78-194 | The bids of the full book followed by the overflow bid updates are all bids in order, each once; the same for asks; neither side of the book exceeds 50 |
| `DeribitFeed.ReaderHasFeed` | src/marketdata/DeribitMessageProcessor.cpp:24-254 | Over every run with output on: for every security last reported ONLINE, the latest full book and the updates read since give on each side, in order, exactly the levels of the latest snapshot and of every refresh since |
| `DeribitFeed.SnapshotAnswered` | src/marketdata/DeribitMessageProcessor.cpp:24-199 | After every run with output on: a snapshot of a registered symbol that does not start with a trade brings it ONLINE with its book, the last status and book sent, and touches no other security; any other snapshot has no effect |
| `DeribitFeed.RefreshAnswered` | src/marketdata/DeribitMessageProcessor.cpp:201-254 | After every run with output on: a refresh of n entries adds exactly n messages, the i-th carrying side, action, price, size or trade of entry i, if and only if the security was last reported ONLINE; otherwise nothing |
| `DeribitFeed.SnapshotTold` | src/marketdata/DeribitMessageProcessor.cpp:78-194 | The book of a snapshot has the first fifty levels of each side, and each further message carries an entry; together they give the levels in order |
| `DeribitFeed.SnapshotTrades` | src/marketdata/DeribitMessageProcessor.cpp:156-194 | The trades in a snapshot are told, all and in order, if and only if a side is deeper than fifty |
| `DeribitHistory.StatusesFollowHistory` | src/marketdata/DeribitMessageProcessor.cpp:24-430 | Over every run with output on: which symbols are registered, and the status last sent for each, are a function of the messages received alone: listed ones wait, a snapshot brings them online, a logout or a logon while online drops all |
| `DeribitHistory.ConnectionFollowsHistory` | src/marketdata/DeribitMessageProcessor.cpp:396-430 | Over every run with output on: the connection status last sent follows from the messages received: STARTING at a logon, ONLINE at the answer that leaves no list request outstanding, OFFLINE at a logout |
| `DeribitHistory.UnderlyingHeads` | src/marketdata/DeribitMessageProcessor.cpp:276-290 | The underlying of a symbol is what stands before its first _USDC, else before its first dash, else all of it |
| `DeribitProcessor.DeribitMessageProcessor.OnSnapshot` | src/marketdata/DeribitMessageProcessor.cpp:24-199 | The messages of a snapshot and the status after it |
| `DeribitProcessor.DeribitMessageProcessor.CountKind` | src/marketdata/DeribitMessageProcessor.cpp:78-91 | The number of entries of one side |
| `DeribitProcessor.DeribitMessageProcessor.TakeLevels` | src/marketdata/DeribitMessageProcessor.cpp:93-147 | As many levels are written as were declared: the first of the side, at most 50 |
| `DeribitProcessor.DeribitMessageProcessor.WriteOverflow` | src/marketdata/DeribitMessageProcessor.cpp:156-194 | The entries beyond the book, and trades, one update each in order |
| `DeribitProcessor.DeribitMessageProcessor.OnIncremental` | src/marketdata/DeribitMessageProcessor.cpp:201-254 | Updates of an online security, nothing for any other |
| `DeribitProcessor.DeribitMessageProcessor.ProcessMDEntry` | src/marketdata/DeribitMessageProcessor.cpp:448-541 | The update one entry makes |
| `DeribitProcessor.DeribitMessageProcessor.OnSecurityList` | src/marketdata/DeribitMessageProcessor.cpp:256-406 | The wanted instruments are defined in order; the last pending response brings the connection online |
| `DeribitProcessor.DeribitMessageProcessor.DefineListed` | src/marketdata/DeribitMessageProcessor.cpp:268-395 | The filters decide instrument by instrument |
| `DeribitProcessor.DeribitMessageProcessor.OnLogon` | src/marketdata/DeribitMessageProcessor.cpp:416-430 | A logon while online invalidates first |
| `DeribitProcessor.DeribitMessageProcessor.OnLogout` | src/marketdata/DeribitMessageProcessor.cpp:408-414 | A logout invalidates |
| `DeribitProcessor.DeribitMessageProcessor.OnListRequest` | src/historical/FileMessageProcessor.cpp:56-70 | A request is pending, and one for perpetuals is remembered as such |
| `DeribitProcessor.DeribitMessageProcessor.Handle` | src/marketdata/DeribitMessageProcessor.cpp:24-430 | Handling any event takes the object to the next state of the machine the theorems are about |
| `Hyperliquid.StreamProtocol` | src/marketdata/HyperliquidMessageProcessor.cpp:290-517 | Over a whole run with output on: consecutive statuses of a security differ, and every BBO update comes after a full book sent since the latest PENDING_SNAPSHOT |
| `Hyperliquid.StepKeepsOrder` | src/marketdata/HyperliquidMessageProcessor.cpp:47-557 | Each handler keeps that |
| `InverseRuns.DeribitKeepsInverse` | src/marketdata/MessageProcessor.cpp:15-148 | Over every run of the Deribit processor, with output on or off, symbols and ids stay mutual inverses, given free ids for every response |
| `InverseRuns.HyperKeepsInverse` | src/marketdata/MessageProcessor.cpp:15-148 | The same over every run of the Hyperliquid processor |
| `HyperliquidProcessor.HyperliquidMessageProcessor.OnConnected` | src/marketdata/HyperliquidMessageProcessor.cpp:47-69 | A connect while online invalidates first |
| `HyperliquidProcessor.HyperliquidMessageProcessor.OnDisconnected` | src/marketdata/HyperliquidMessageProcessor.cpp:71-78 | Everything pending or active is dropped with the registry |
| `HyperliquidProcessor.HyperliquidMessageProcessor.OnMeta` | src/marketdata/HyperliquidMessageProcessor.cpp:80-101 | Desired coins are registered and await a price |
| `HyperliquidProcessor.HyperliquidMessageProcessor.OnOutcomeMeta` | src/marketdata/HyperliquidMessageProcessor.cpp:121-174 | The sides of the desired outcomes are registered and await a book |
| `HyperliquidProcessor.HyperliquidMessageProcessor.OnL2Book` | src/marketdata/HyperliquidMessageProcessor.cpp:348-447 | Online, deferred definitions, connection status and the book, in this order |
| `HyperliquidProcessor.HyperliquidMessageProcessor.DrainTimedOutSecDefs` | src/marketdata/HyperliquidMessageProcessor.cpp:619-635 | Coins without a price in time are defined all the same |
| `HyperliquidProcessor.HyperliquidMessageProcessor.OnBbo` | src/marketdata/HyperliquidMessageProcessor.cpp:449-517 | At most one update a side, for an online security only |
| `HyperliquidProcessor.HyperliquidMessageProcessor.OnTrade` | src/marketdata/HyperliquidMessageProcessor.cpp:519-557 | One trade, for any registered security |
| `HyperliquidProcessor.HyperliquidMessageProcessor.RemoveExpiredOutcomes` | src/marketdata/HyperliquidMessageProcessor.cpp:290-334 | The erasing loop retires exactly the expired outcomes, in order, and keeps the others in order |
| `HyperliquidFeed.ReaderHasFeed` | src/marketdata/HyperliquidMessageProcessor.cpp:348-517 | Over every run with output on: for every coin last reported ONLINE, the latest full book and the updates read since give on each side, in order, exactly the latest current book received and the best prices received since |
| `HyperliquidFeed.BookAnswered` | src/marketdata/HyperliquidMessageProcessor.cpp:348-447 | After every run: a book of a registered coin no older than the connection is read with exactly its bids and asks, and the coin is ONLINE from then on, no other touched; any other book has no effect |
| `HyperliquidFeed.TradeAnswered` | src/marketdata/HyperliquidMessageProcessor.cpp:519-557 | After every run: such a trade is told at once, on the side it hit, with its level and id; any other has no effect |
| `HyperliquidHistory.BookMakesKnown` | src/marketdata/HyperliquidMessageProcessor.cpp:363-447 | Every message a book brings about, in order: its coin going online, its definition if it has a price, that of an outcome in any case, those of all coins that have waited ten seconds, the link coming up if nothing waits any more, the book |
| `HyperliquidHistory.MetaTold` | src/marketdata/HyperliquidMessageProcessor.cpp:80-101 | The metadata registers exactly the desired coins among those listed, has them wait for a book and a definition, and changes no other |
| `HyperliquidHistory.OutcomesTold` | src/marketdata/HyperliquidMessageProcessor.cpp:121-174 | So do the sides of outcomes, each waiting under the id it was given |
| `HyperliquidHistory.ExpiryTold` | src/marketdata/HyperliquidMessageProcessor.cpp:290-334 | Retired are exactly the outcomes five minutes from their expiry: no longer registered, last told offline, and undefined to the reader; every other security is as it was |
| `HyperliquidHistory.OthersStayLive` | src/marketdata/HyperliquidMessageProcessor.cpp:290-334 | The outcomes not retired stay live in their order, and the metadata is asked for again if and only if one was retired |
| `HyperliquidHistory.DisconnectedTold` | src/marketdata/HyperliquidMessageProcessor.cpp:71-78 | After a disconnect nothing is registered, awaited or live, and every security ever told is last told offline |
| `FileProcessor.FileMessageProcessor.Process` | src/historical/FileMessageProcessor.cpp:9-85 | Whichever path a message takes, the effect is that of the event a full parse makes of it: the hand-written path refines the plain one, for every text that carries its event |
| `PrintedMessages.PrintedCarries` | src/historical/FileMessageProcessor.cpp:137-390 | Every printed message, at most 512 fields in all, whose groups start with the delimiter, hold no other and carry bid, offer and trade entries, in any order and beside any other fields, carries these entries: it is read back as it was, and the groups the reader cuts out of it are the entries |
| `PrintedMessages.PrintedFaithful` | src/historical/FileMessageProcessor.cpp:18-36 | So every such message, snapshot or refresh, meets what `Process` asks of its text |
| `PrintedMessages.MessageCarriesEntries` | src/fix/LightFIXMessage.cpp:57-74 | The groups cut out at the delimiters are the groups behind the header, one each, the last with the trailer on it |
| `PrintedMessages.BlocksAreGroups` | src/historical/FileMessageProcessor.cpp:313-390 | Every list of entries whose values hold no separator can be written as such groups |
| `PrintedMessages.FurtherFields` | src/fix/LightFIXMessage.cpp:50-55 | Fields of other tags, such as the date and time of an entry, can be added to any group |
| `PrintedMessages.TypeFound` | src/historical/FileMessageProcessor.cpp:122-132 | The scan finds the message type of a printed message if it ends within the first 64 characters, whatever fields of other tags come before it |
| `PrintedMessages.NumberedEntry` | src/historical/FileMessageProcessor.cpp:313-390 | The same by the field numbers of FIX 4.4: 269, 270, 271, 279, 54 and 278 |
| `FileProcessor.FileMessageProcessor.ProcessSnapshotFast` | src/historical/FileMessageProcessor.cpp:173-308 | For fields that carry a snapshot: the same books, updates and status as the plain handler |
| `FileProcessor.FileMessageProcessor.ProcessIncrementalFast` | src/historical/FileMessageProcessor.cpp:137-168 | For fields that carry an incremental refresh: the same updates as the plain handler |
| `FileProcessor.FileMessageProcessor.ProcessMDEntryFast` | src/historical/FileMessageProcessor.cpp:313-390 | The update one group of fields makes |
| `FileProcessor.FileMessageProcessor.TakeLevelsFast` | src/historical/FileMessageProcessor.cpp:231-265 | Stopping early loses no level |
| `FileProcessor.FileMessageProcessor.CountFast` | src/historical/FileMessageProcessor.cpp:208-219 | Both sides counted in one pass |
| `FileProcessor.FileMessageProcessor.WriteOverflowFast` | src/historical/FileMessageProcessor.cpp:274-303 | The overflow updates, in order |
| `FileProcessor.FileMessageProcessor.ExtractMsgType` | src/historical/FileMessageProcessor.cpp:122-132 | The message type within the first 64 characters |
| `Capture.ReadFrom` | src/historical/MarketdataHistoricalRunnerBase.cpp:82-129 | The reading loop hands over exactly the messages of the lines from there on |
| `Capture.ReadingSplits` | src/historical/MarketdataHistoricalRunnerBase.cpp:82-129 | Reading can be split at the start of any line |
| `Capture.FindLastLogon` | src/historical/MarketdataHistoricalRunner.cpp:67-97 | On every file the backward scan stops at the last line it takes for a logon, or there is no such line; its answer is the last logon of the file, or rightly none, if and only if no line from there on yields a logon and is cut short |
| `Capture.LogonsAreLines` | src/historical/MarketdataHistoricalRunnerBase.cpp:82-129 | The messages from a line on hold a logon if and only if some line from there on is seen as one or missed as one |
| `Capture.ScanSeesLogons` | src/historical/MarketdataHistoricalRunner.cpp:80-93 | The scan takes a line for a logon if and only if it yields a logon message and is not cut short before carriage returns |
| `Capture.CutShortIsMissed` | src/historical/MarketdataHistoricalRunner.cpp:80-93 | Every logon line that is cut off right after its message type, before any number of carriage returns, is read forward but not seen backward |
| `CaptureFiles.FileReadsBack` | src/historical/MarketdataHistoricalRunnerBase.cpp:82-129 | Whatever messages are written to a capture, each on a line after a stamp and a bar and before any number of carriage returns, reading gives them back in order |
| `CaptureFiles.LogonIs` | src/historical/FileMessageProcessor.cpp:104-120 | A message counts as a logon if and only if its first 35=A ends a field |
| `CaptureFiles.ReplayIsRun` | src/historical/FileMessageProcessor.cpp:9-16 | A replay is the run of the processor from the first logon on |
| `Priming.PrimingIsEnough` | src/historical/MarketdataHistoricalRunner.cpp:51-100 | With output off, replaying from a logon gives the registry, statuses, connection and pending lists of replaying the whole file, if the session before was online or had no security and no later response relies on an earlier request |
| `Priming.LogonStartsAnew` | src/marketdata/DeribitMessageProcessor.cpp:416-430 | Right after the logon the two replays agree if and only if the session before was online or had no security |
| `Priming.Prime` | src/historical/MarketdataHistoricalRunner.cpp:64-104 | The runner primes from the last line the scan takes for a logon, or not at all, and nothing is asked of the lines before; a processor just made then has the registry, statuses, connection and pending lists of replaying the whole file, under the conditions of `PrimingIsEnough`, or if no line is missed where there is none to start from |

## Left out

- GatewayQuantity.QuantityAccounting: does not cover runs with `Triggered` updates, which never arrive because only limit orders are placed; `TriggerReportAddsUp` says exactly when the report of one would add up. It is about reports with a client id; `FillsAreNamed` says exactly when a fill is reported without one.
- GatewayFillOrder.FillsSettleInArrivalOrder: asks for a clock that does not go back; the reading is that of a steady clock.
- GatewayLastWord.LastWord: is about non-empty cloids; a report without one is an entry reject of a request that never became an order, or a late fill of a replay.
- Timestamp.LaterIsLarger: takes a leap second to be second 60 at 23:59 of any day.
- HyperliquidHistory.BookMakesKnown: is about one book at a time, with clock readings below 2^64. The Hyperliquid registry is told event by event and not, as for Deribit, as a function of the whole history: an outcome keeps the id it was given over a connect that drops all ids.
- DeribitFeed.ReaderHasFeed: is about levels; the actions of updates are in `RefreshAnswered` and the trades of snapshots in `SnapshotTrades`.
- GatewayOutcomes.OpenOutcome: says what is reported first; the fills replayed after it are the business of `ReplayKeepsOrder` and `QuantityAccounting`.
- FileProcessor.FileMessageProcessor.Process: asks that the fields carry well-formed entries (bid, offer or trade, a taker side on trades, an announced count that is the number of entries, at most 512 fields), as `PrintedFaithful` shows of every message printed from such entries; on malformed messages the two paths differ.
- Priming.PrimingIsEnough: is one implication; after the logon a later logout can make the two replays agree again whatever came before, so only `LogonStartsAnew` is an equivalence.
- DeribitRuns.StreamProtocol: is about runs with output on throughout; a stream switched on after priming lacks the books and definitions of the time before.
- Quantities and prices are integers in the gateway, decimal text in the market data; `double`, `std::to_string` and 50-digit decimals are not modelled, nor the price precision of Hyperliquid definitions.
- Preparing and writing a message succeed, and placing or modifying an order does not throw; correlation ids and millisecond-to-nanosecond conversions do not wrap.
- Transact times, system-clock stamps, currencies, margining, maturities and the other fields copied one by one into a message, and enum mappings that one branch settles.
- One reading of the steady clock serves both the timeout check and the time a fill is buffered at.
- Hash functions, hash-map traversal order and generated cloids are arguments, not modelled.
- The writer's mutex (one message at a time is a precondition), batch mode, append mode, the poller's non-live mode, and templates 107 and 108.
- Bytes that would lie past the 4092-byte buffer while a too-large message is built; the message is refused when written.
- SbeRaces.RacesDeliverPrefix: takes index entries to be flushed whole, and a restart to be seen at one look.
- A producer restart whose new index is already as long as the old one; an index stream that spills to disk before its flush.
- The overflow of `int` in tags and of the 32-bit length of a string.
- Matching of desired outcomes by underlying and period: the matched sides arrive as an event.
- Sockets, QuickFIX sessions, JSON parsing, REST retries, threads, logging, configuration, date folders, and the set of symbols already warned about.
- The Deribit order gateway, which translates message by message, and logon authentication.
- Hyperliquid definitions are not claimed to precede books: an empty first book drops the pending definition (`src/marketdata/HyperliquidMessageProcessor.cpp:371-384`).
