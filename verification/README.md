# A verified model of the nnxt trading stack

nnxt moves market data and orders between processes over shared-memory broadcast rings, and runs
trading strategies on top. This project models the data path from the shared memory up to the
positions a strategy steers by, and proves what that path guarantees.

`dafny verify dfyconfig.toml` checks the whole project.

## What is modelled

**The broadcast ring** (`crates/nnxt-rapid/src/ring.rs`). One writer, any number of readers, each
reader owning a cursor that it claimed with a compare-and-exchange.

- `RingLayout` (over `Digits`) is the byte layout with its bit mask and its wrapping additions.
- `RingLog` is what the ring retains of everything written, and what a reader picks from one load of
  the write sequence and of its cursor.
- `Rings` is the class form: mapping, writer and reader as objects over arrays, each call run to its
  end.
- `RingProtocol` is the same ring as interleaved single steps: every load, store and
  compare-and-exchange of every reader is a step of its own, and so are `prepare`, the writes through
  the prepared reference and `commit`. `RingSafety`, `RingDelivery` and `RingScans` prove what holds
  over every interleaving: of references and cursors, of what readers are given and see, and of
  connecting.

The boundary is exact: a reference to message i shows message i until sequence number i + capacity is
written to, through the reference that its `prepare` handed out. A reader that was overrun jumps to the
oldest retained message and lands on precisely the slot that the next `prepare` hands to the writer, with
no slack at all; every later index has slack.

**Orders and positions** (`crates/nnxt-strategy`, `crates/nnxt-gateway/src/trade.rs`).

- `Fills` and `Ledgers`: the memory of trade ids, signed positions and average prices.
- `Orders`: the order table, the reports already seen and the exposure still pending.
- `RunnerStates`: both together, and the effective position, with the saturating and wrapping 64-bit
  arithmetic the code performs.
- `Execution`: intents to actions, and when a batch reaches its targets.
- `Conservation`, `Lifecycles` and `Replays`: what moves the effective position over a run, what becomes
  of one order between two reports, and what replays leave behind.
- `TradeSim` and `ClosedLoop`: the simulator, and runner and simulator closed into a loop over three
  queues that nothing orders against each other. Whatever the strategy does, the loop comes to rest only
  on the targets it asked for last, although orders may count twice or not at all on the way.

The sharp edges of the code are kept: trades add to the filled quantity while order events overwrite
it, an order event may bring a finished order back to life, a batch of intents is judged against one
reading of the state, and an unknown order id becomes a buy order.

**The registry** (`crates/nnxt-master`). `Registry` and `MasterServer`: actors with their queue lists,
the index from queue address to owner, and the health flags; `RegistryRuns` tells each of them from the
history of requests that were answered with success. A rejected re-registration has already
removed the actor's old index entries, so one direction of the agreement holds in every run and the
other throughout exactly those runs in which no such rejection happens.

**Dispatch and timers.** `Dispatch` (source ids and the casts of the runner), `StrategyTimers`
(periodic timers of a strategy), `Reactor` (poll priority, one-shot timers and the cadence of idle
polls across the wrap of the counter), `Draining` (how many idle polls fire the timers that were due).

**Addresses.** `Addresses` and `QueueNames`: splitting, validating and joining, and which generated
queue names can coincide.

## Conventions

Prices are reals. Quantities, ids, clocks and counters keep their 64-bit ranges; saturation, wrapping
and truncating casts are written out with the meaning they have in a release build. Objects that the
code updates in place are classes; each of their methods is tied to a function on values, and the
theorems over runs are about those functions. Where a promised property fails, the condition under
which it holds is part of the theorem (`LayoutIsSoundIff`, `LayoutsAgreeIff`, `ReferenceIsRightIff`,
`LooksAreRightIffInTime`, `ScanIsRefusedIff`, `ConvergesIffReachable`, `AnyBatchConvergesIff`,
`TradeIsNeutralIffCovered`, `AlwaysListedIff`, `DrainsInTimeIff`, `PathIsUniqueIff`), and a concrete
case shows the failure (`DataCanCoverHeader`, `AlignmentCanDisagree`, `KeepingUpIsNotEnough`,
`ScanCanMissFreeSlots`, `AskingTwiceOvershoots`, `SaturatedTargetIsMetByAskingTwice`,
`TradeOvertakingAcknowledgementCountsTwice`, `IndexCanLoseListed`, `NewcomerIsServedFirst`,
`SlashesCollide`).

## Model

| member | source | states |
|---|---|---|
| `RingLayout.AlignUpIsLeastIff` | crates/nnxt-rapid/src/ring.rs:51-53 | for a power of two, align_up gives the least multiple of the alignment that is not below the value, if and only if its unchecked addition does not overflow |
| `RingLayout.LayoutIsSoundIff` | crates/nnxt-rapid/src/ring.rs:55-76 | a layout that is handed out has header, cursors and data aligned, in order and without overlap, if and only if the unchecked sums before the data offset do not overflow |
| `RingLayout.DataCanCoverHeader` | crates/nnxt-rapid/src/ring.rs:60-64 | cases where it does: with max_readers 0x1FFF_FFFF_FFFF_FFF8 the sum before the data offset overflows to 0, and for every element size and alignment and every capacity whose data fits a layout is handed out with the data at offset 0, over the header |
| `RingLayout.LayoutIsRefusedIff` | crates/nnxt-rapid/src/ring.rs:55-70 | short of that overflow, a layout is refused exactly for capacity 0 or for data that does not fit the address space behind the first aligned offset |
| `RingLayout.SlotsAreSeparate` | crates/nnxt-rapid/src/ring.rs:244-262 | in a sound layout every slot is aligned, inside the mapping, clear of every cursor and disjoint from every other slot |
| `RingLayout.LayoutsAgreeIff` | crates/nnxt-rapid/src/ring.rs:373-392 | two processes that give the element type different alignments compute the same layout if and only if the end of the cursors, rounded up to the smaller alignment, is a multiple of the larger one |
| `RingLayout.SmallLayoutsAgreeIff` | crates/nnxt-rapid/src/ring.rs:373-392 | with the smaller alignment at most 8, if and only if 64 + 8 * max_readers is a multiple of the larger one |
| `RingLayout.AlignmentCanDisagree` | crates/nnxt-rapid/src/ring.rs:373-384 | a case where they do not: the size check passes for alignments 64 and 8, and the data lies at different offsets |
| `RingLog.FillRetains` | crates/nnxt-rapid/src/ring.rs:279-287 | writing through the prepared reference spoils no message that the writer was not handed the slot of |
| `RingLog.CommitRetains` | crates/nnxt-rapid/src/ring.rs:290-300 | committing adds what lies in the prepared slot to the log and keeps everything retained |
| `RingLog.ReadsAgreeIff` | crates/nnxt-rapid/src/ring.rs:435-440 | the test for inequality in try_read and the test for order in read choose alike exactly when the cursor has not passed the write sequence |
| `RingLog.PickIsRetained` | crates/nnxt-rapid/src/ring.rs:439-441 | what is picked is unread, published and retained; nothing is skipped unless the lag exceeds the capacity; the slack is zero exactly from a lag of capacity on |
| `RingProtocol.NextKeeps` | crates/nnxt-rapid/src/ring.rs:279-542 | every single step of writer and readers keeps retention, one-to-one cursor ownership and each reader's bookkeeping |
| `RingProtocol.WriterRetains` | crates/nnxt-rapid/src/ring.rs:279-300 | prepare, fill and commit keep every message whose slot was not written to again |
| `RingProtocol.MoveDelivers` | crates/nnxt-rapid/src/ring.rs:429-451 | each step of a read keeps the delivered indices strictly increasing and the count of delivered and skipped equal to the cursor's advance |
| `RingProtocol.MoveSeesRight` | crates/nnxt-rapid/src/ring.rs:446-450 | a look through a reference before the slot is written to again sees the message it was taken for |
| `RingProtocol.ClaimKeepsOwners` | crates/nnxt-rapid/src/ring.rs:397-407 | the compare-and-exchange of a connect scan keeps ownership one to one |
| `RingSafety.EveryRunIsValid` | crates/nnxt-rapid/src/ring.rs:219-542 | every reachable state of every interleaving satisfies the invariant, below the free marker |
| `RingSafety.WriteAppends` | crates/nnxt-rapid/src/ring.rs:303-307 | write appends exactly its value to the log |
| `RingSafety.LogOnlyGrows` | crates/nnxt-rapid/src/ring.rs:290-300 | no run takes back a committed message |
| `RingSafety.EveryLookInTimeIsRight` | crates/nnxt-rapid/src/ring.rs:429-451 | in every run, a look through a reference to message i shows message i unless sequence number i + capacity or a later one was written through its prepared reference before the look; a prepare alone does not matter |
| `RingSafety.SlotShowsNewest` | crates/nnxt-rapid/src/ring.rs:282-286 | a slot without an uncommitted write in it shows the newest message committed to it |
| `RingSafety.ReferenceIsRightIff` | crates/nnxt-rapid/src/ring.rs:279-300 | with distinct messages, in any slot at any moment, the reference to message i is right if and only if sequence number i + capacity has not been written to |
| `RingSafety.PrepareAloneSpoilsNothing` | crates/nnxt-rapid/src/ring.rs:279-287 | a prepare that nothing was written through yet has spoilt no reference |
| `RingSafety.PrepareHitsOldestOnly` | crates/nnxt-rapid/src/ring.rs:279-287 | the next prepare overwrites the retained message with no slack, write_seq - capacity, and no other |
| `RingSafety.ChoiceSlack` | crates/nnxt-rapid/src/ring.rs:435-444 | a read skips exactly what the lag exceeds the capacity by; the index it chooses has a slack of capacity less the lag; both tests lead to the same state |
| `RingSafety.RunOfMoves` | crates/nnxt-rapid/src/ring.rs:429-525 | steps of one reader alone change nothing but that reader and its own cursor |
| `RingSafety.WholeReadDelivers` | crates/nnxt-rapid/src/ring.rs:429-525 | try_read, read and read_timeout, uninterrupted, deliver the same index and value and leave the same ring, reference taken before or after the cursor is stored |
| `RingSafety.OwnersDiffer` | crates/nnxt-rapid/src/ring.rs:395-412 | no two live readers own one slot, and an owned slot is never marked free |
| `RingSafety.CursorIsPrivate` | crates/nnxt-rapid/src/ring.rs:429-546 | a live reader and its cursor change only by its own steps |
| `RingScans.LiveReadersCount` | crates/nnxt-rapid/src/ring.rs:395-412 | as many readers live as cursors are taken, all of them exactly when no cursor is free |
| `RingScans.AtomicConnectRefusedIff` | crates/nnxt-rapid/src/ring.rs:395-412 | an uninterrupted connect is refused if and only if max_readers readers live; otherwise it starts at the write sequence it loaded |
| `RingScans.ScanIsRefusedIff` | crates/nnxt-rapid/src/ring.rs:395-412 | under any interruptions, a scan that has made all its attempts is refused if and only if each slot was taken at its own compare-and-exchange |
| `RingScans.StayingFreeIsFound` | crates/nnxt-rapid/src/ring.rs:395-412 | a scan with a slot still ahead of it that stays free is never refused, however it is interrupted |
| `RingScans.ScanCanMissFreeSlots` | crates/nnxt-rapid/src/ring.rs:397-412 | a run in which an interrupted scan is refused although at every moment of it some slot was free |
| `RingDelivery.DeliveredSkippedLag` | crates/nnxt-rapid/src/ring.rs:429-451 | delivered, skipped and lag add up to all that was written since connecting; delivered indices strictly increase |
| `RingDelivery.NothingSkippedIff` | crates/nnxt-rapid/src/ring.rs:439-449 | nothing was skipped if and only if the indices delivered are the consecutive ones from the connect point |
| `RingDelivery.StepSkipsNothing` | crates/nnxt-rapid/src/ring.rs:439-443 | no step makes a reader skip that is at most one lap behind |
| `RingDelivery.KeepingUpDeliversAll` | crates/nnxt-rapid/src/ring.rs:429-525 | in any interleaving, a reader that never falls more than a lap behind is given every index from its connect point on, in order |
| `RingDelivery.KeepingUpShowsTheLog` | crates/nnxt-rapid/src/ring.rs:429-525 | if moreover sequence number i + capacity is not written to while the reader holds a reference to message i, every look shows its message, the looks go forward through the log, and one look at each message shows exactly history[start..cursor] |
| `RingDelivery.LooksAreRightIffInTime` | crates/nnxt-rapid/src/ring.rs:429-451 | over any run on distinct messages, everything a reader saw is right if and only if every look came before its slot was written to again |
| `RingDelivery.HolderCanSeeDraft` | crates/nnxt-rapid/src/ring.rs:279-287 | in every state in which a reader holds the oldest retained message, the writer can show it an uncommitted value while the lag stays within the capacity |
| `RingDelivery.KeepingUpIsNotEnough` | crates/nnxt-rapid/src/ring.rs:279-300 | the smallest such run from a new ring: the reader keeps up throughout and sees 8 where the log has 7 |
| `Rings.Mapping.constructor` | crates/nnxt-rapid/src/ring.rs:244-262 | a new mapping has every cursor free, the data zeroed and an empty log |
| `Rings.CreateWithReaders` | crates/nnxt-rapid/src/ring.rs:219-276 | creation is refused exactly when there is no layout |
| `Rings.Writer.Prepare` | crates/nnxt-rapid/src/ring.rs:279-287 | hands out the slot of the next message, the same one when called twice |
| `Rings.Writer.Fill` | crates/nnxt-rapid/src/ring.rs:286-286 | a write through the reference changes that slot only and keeps retention |
| `Rings.Writer.Commit` | crates/nnxt-rapid/src/ring.rs:290-300 | appends the prepared slot's content to the log, or does nothing without a prepare |
| `Rings.Writer.Write` | crates/nnxt-rapid/src/ring.rs:303-307 | appends its value to the log |
| `Rings.Reader.TryRead` | crates/nnxt-rapid/src/ring.rs:429-451 | None exactly at the end of the log; otherwise the retained message picked, the excess of the lag over the capacity skipped, only the own cursor moved |
| `Rings.Reader.ReadTimeout` | crates/nnxt-rapid/src/ring.rs:492-525 | from the loads and clock readings it makes, delivers what try_read would pick at the first load with a message unless the clock had run out at an earlier load, and otherwise returns None and changes nothing; a load counts before the clock reading after it, so a zero timeout delivers what is there |
| `Rings.Reader.Read` | crates/nnxt-rapid/src/ring.rs:454-489 | delivers what try_read would pick at the first load with a message |
| `Rings.Reader.Lag` | crates/nnxt-rapid/src/ring.rs:528-535 | the lag completes delivered and skipped to all written since connecting |
| `Rings.Reader.Drop` | crates/nnxt-rapid/src/ring.rs:539-546 | frees the own slot and touches no other |
| `Rings.AwaitedIff` | crates/nnxt-rapid/src/ring.rs:502-523 | for any loads and clock readings, waiting ends with the pick of the first load that finds a message if and only if the time was not up at any load before it |
| `Rings.Connect` | crates/nnxt-rapid/src/ring.rs:394-425 | fails exactly when every slot is taken; otherwise takes the first free one from the current write sequence on and touches no other |
| `Rings.WaitingOnlyDelays` | crates/nnxt-rapid/src/ring.rs:460-488 | loads that find nothing do not change what is read in the end |
| `Rings.ReadReturnsIff` | crates/nnxt-rapid/src/ring.rs:460-488 | read returns if and only if some load finds a message, with try_read's choice at the first such load |
| `Fills.FillLedger.constructor` | crates/nnxt-strategy/src/ledger.rs:23-29 | empty deque and set of the given size |
| `Fills.FillLedger.CheckAndInsert` | crates/nnxt-strategy/src/ledger.rs:31-41 | true exactly for an id not remembered; deque and set stay equal, duplicate-free and bounded |
| `Fills.WindowIsLastAccepted` | crates/nnxt-strategy/src/ledger.rs:31-41 | the memory is always the last max_size accepted ids, without repetition |
| `Fills.TurnedAwayIffRecent` | crates/nnxt-strategy/src/ledger.rs:31-41 | an id is turned away if and only if it is among the last max_size accepted ones |
| `Ledgers.Ledger.constructor` | crates/nnxt-strategy/src/ledger.rs:52-57 | no positions, empty memory of the default size |
| `Ledgers.Ledger.ApplyTradeEvent` | crates/nnxt-strategy/src/ledger.rs:59-88 | a replay changes nothing; an accepted trade moves its instrument's position and returns it |
| `Ledgers.Ledger.PositionFor` | crates/nnxt-strategy/src/ledger.rs:90-97 | the stored quantity, average price and update time, if there is a position |
| `Ledgers.QuantityIsNet` | crates/nnxt-strategy/src/ledger.rs:64-80 | the position after any run of trades is their signed sum |
| `Ledgers.BookValueStep` | crates/nnxt-strategy/src/ledger.rs:106-132 | quantity times average price grows by the trade's value plus what closing realises, in every case of opening, adding, reducing, flattening and flipping |
| `Ledgers.ProfitIdentity` | crates/nnxt-strategy/src/ledger.rs:59-132 | cash flow plus quantity times average price is the realised profit, after any run |
| `Ledgers.AverageWithinTradedPrices` | crates/nnxt-strategy/src/ledger.rs:106-132 | the average price of an open position lies within the traded prices, saturated and wrapped quantities included |
| `Ledgers.LedgerSplitsByInstrument` | crates/nnxt-strategy/src/ledger.rs:59-88 | each instrument's entry is what its own accepted trades make of a flat position |
| `Ledgers.LedgerProfit` | crates/nnxt-strategy/src/ledger.rs:59-132 | the profit identity, the price bounds and the net quantity for every instrument of a ledger after any stream of events |
| `Ledgers.EntryIsDatedByLastTrade` | crates/nnxt-strategy/src/ledger.rs:64-88 | an entry is dated by the last trade accepted on its instrument |
| `Ledgers.OneSidedTradesSaturate` | crates/nnxt-strategy/src/ledger.rs:64-80 | trades on one side add up to the end of the i64 range and stay there |
| `Ledgers.HugeTradeCountsBackwards` | crates/nnxt-strategy/src/ledger.rs:64-67 | a trade of more than an i64 holds counts with the other sign: such a purchase makes a flat position short |
| `Orders.OrderManager.constructor` | crates/nnxt-strategy/src/order_manager.rs:21-24 | no orders, no reports seen |
| `Orders.OrderManager.OnActionSent` | crates/nnxt-strategy/src/order_manager.rs:27-53 | a new order is entered as pending-new; a cancel marks a living order |
| `Orders.OrderManager.ApplyOrderEvent` | crates/nnxt-strategy/src/order_manager.rs:55-89 | false and no change for a report seen before; otherwise status and fill are overwritten, an unknown id becomes a buy order |
| `Orders.OrderManager.ApplyTradeEvent` | crates/nnxt-strategy/src/order_manager.rs:91-104 | a trade adds to the fill and completes or activates its order |
| `Orders.OrderManager.PendingExposure` | crates/nnxt-strategy/src/order_manager.rs:106-129 | whatever the iteration order, the sums of the remaining quantities of living orders, capped at the u64 maximum |
| `Orders.PendingSumTakes` | crates/nnxt-strategy/src/order_manager.rs:106-129 | the sum does not depend on which order is taken first |
| `Orders.PendingSumUpdate` | crates/nnxt-strategy/src/order_manager.rs:106-129 | inserting or replacing one order changes the sum by that order's own contribution |
| `Orders.AllTerminalPendsNothing` | crates/nnxt-strategy/src/order_manager.rs:110-145 | with every order terminal nothing is pending |
| `RunnerStates.RunnerState.constructor` | crates/nnxt-strategy/src/state.rs:8-12 | empty orders and ledger |
| `RunnerStates.RunnerState.OnActionSent` | crates/nnxt-strategy/src/state.rs:42-44 | the orders record the action, the ledger is untouched |
| `RunnerStates.RunnerState.ApplyOrderEvent` | crates/nnxt-strategy/src/state.rs:46-48 | the orders take the event, the ledger is untouched; true exactly for an event not seen before |
| `RunnerStates.RunnerState.ApplyTradeEvent` | crates/nnxt-strategy/src/state.rs:50-56 | orders and ledger both take a trade the ledger accepts, neither takes a replay |
| `RunnerStates.RunnerState.EffectivePosition` | crates/nnxt-strategy/src/state.rs:62-70 | position plus pending buys less pending sells, saturating at u64 and wrapping at i64 |
| `RunnerStates.WrappingSumIsCombine` | crates/nnxt-strategy/src/state.rs:62-70 | the intermediate casts and wraps do not show in the result |
| `RunnerStates.EffectiveIsExact` | crates/nnxt-strategy/src/state.rs:62-70 | the computed effective position is the exact one if and only if that fits an i64 |
| `RunnerStates.EffectiveAfterUpdate` | crates/nnxt-strategy/src/state.rs:58-70 | replacing one order moves the effective position by the change of that order's pull |
| `Conservation.NewOrderMoves` | crates/nnxt-strategy/src/order_manager.rs:27-44 | a new order under a fresh id moves its instrument by its signed quantity |
| `Conservation.CancelRequestMovesNothing` | crates/nnxt-strategy/src/order_manager.rs:45-52 | requesting a cancel leaves every sum and effective position alone |
| `Conservation.TradeIsNeutralIffCovered` | crates/nnxt-strategy/src/state.rs:50-56 | an accepted trade leaves every effective position unchanged if and only if its order was waiting for it: same side and instrument, alive, not overfilled |
| `Conservation.HonestReportMoves` | crates/nnxt-strategy/src/order_manager.rs:55-89 | a report that agrees with the booked fills is neutral, and if it ends the order it moves the position by exactly the signed remaining quantity |
| `Conservation.ReportIsNeutralIff` | crates/nnxt-strategy/src/order_manager.rs:55-89 | any accepted report on a known order is neutral if and only if it restates the quantity outstanding |
| `Conservation.EffectivePositionIsConserved` | crates/nnxt-strategy/src/state.rs:42-70 | over any run of sends, partial fills, cancels, reports that agree with the booked fills, and replays of any kind, the effective position has moved by what was sent less what was withdrawn |
| `Conservation.RecordingIsARun` | crates/nnxt-strategy/src/runner.rs:426-430 | a list of actions is recorded one by one, in order |
| `Lifecycles.ReportDecidesPending` | crates/nnxt-strategy/src/order_manager.rs:55-145 | after an accepted report the order adds nothing to any sum if it is Filled, Cancelled or Rejected, and its quantity less what is reported filled if it is Pending, PendingNew, Active, PendingCancel or PartialFilled |
| `Lifecycles.EndingTakesBackTheRest` | crates/nnxt-strategy/src/order_manager.rs:55-145 | a report that a living order is Filled, Cancelled or Rejected, whatever quantities it names, moves the effective position by minus the signed quantity less filled, and nothing else |
| `Lifecycles.UnknownOrderCountsAsBought` | crates/nnxt-strategy/src/order_manager.rs:66-89 | a report on an unknown order that is not over buys the remaining quantity at the last price, whatever side the order has |
| `Lifecycles.UntoldOrderFollowsItsTrades` | crates/nnxt-strategy/src/order_manager.rs:45-104 | over any run in which nothing new is reported of an order, its fill is what was filled plus what was traded, its status follows from how much was traded and whether a cancel was asked for, in any order, and nothing else of it changes |
| `Lifecycles.SentOrderFollowsItsTrades` | crates/nnxt-strategy/src/order_manager.rs:27-104 | in particular for a new order: PendingNew, Active from the first trade, PendingCancel from a cancel request until it is filled, Filled once the trades reach its quantity |
| `Lifecycles.UntoldOrderIsDated` | crates/nnxt-strategy/src/order_manager.rs:45-104 | its timestamp is that of its last accepted trade or of the last cancel request that found it alive |
| `Execution.ExecutionEngine.constructor` | crates/nnxt-strategy/src/execution.rs:35-39 | ids start at 1 |
| `Execution.ExecutionEngine.NextId` | crates/nnxt-strategy/src/execution.rs:65-67 | the current id, then the next one, wrapping |
| `Execution.ExecutionEngine.TargetPositionActions` | crates/nnxt-strategy/src/execution.rs:69-93 | one order for the saturated difference to the target, or none if there is none |
| `Execution.ExecutionEngine.TargetOrdersActions` | crates/nnxt-strategy/src/execution.rs:95-120 | one order per target order, under consecutive ids |
| `Execution.ExecutionEngine.Execute` | crates/nnxt-strategy/src/execution.rs:41-63 | every intent is answered against the same state, in order |
| `Execution.BatchIsNumbered` | crates/nnxt-strategy/src/execution.rs:41-67 | one execution hands out consecutive ids, whatever the mix of intents |
| `Execution.BatchAnswersEach` | crates/nnxt-strategy/src/execution.rs:41-120 | the actions of a batch are the answers to its intents in turn, in full: one order for the missing quantity or none, one for each on a list with its side, price type, price and quantity, one cancel; new orders carry the ids that follow, across the wrap of the counter too |
| `Execution.CancelsAreThoseAsked` | crates/nnxt-strategy/src/execution.rs:52-59 | the cancels a batch sends are, in order and one for one, those of its cancel intents, with their instrument, order id and the time |
| `Execution.RecordingAddsWhatIsAsked` | crates/nnxt-strategy/src/runner.rs:426-430 | recording the actions adds exactly what they ask for to what is pending |
| `Execution.StepLandsIff` | crates/nnxt-strategy/src/execution.rs:75-80 | ordering the saturated difference lands on the target if and only if neither saturation nor the cap of the sums was met |
| `Execution.ConvergesIffReachable` | crates/nnxt-strategy/src/execution.rs:41-93 | a batch with one intent on an instrument brings its effective position to the target if and only if no saturation is met |
| `Execution.SilentIffAllMet` | crates/nnxt-strategy/src/execution.rs:69-82 | a batch of targets yields no action if and only if every target is met |
| `Execution.OrdersNothingIff` | crates/nnxt-strategy/src/execution.rs:41-120 | any batch, cancels included, sends no new order if and only if every target in it is met and every order list in it is empty |
| `Execution.AllConvergeIff` | crates/nnxt-strategy/src/execution.rs:41-93 | for pairwise distinct instruments all targets are met afterwards if and only if all were reachable |
| `Execution.SecondExecutionIsSilentIff` | crates/nnxt-strategy/src/execution.rs:41-93 | executing the same batch again yields no action if and only if every target was reachable |
| `Execution.BatchAsksSum` | crates/nnxt-strategy/src/execution.rs:41-120 | any batch asks, on any instrument and side, for the sum of what its intents ask for against the one state: the missing quantities and the listed orders |
| `Execution.BatchMovesEffective` | crates/nnxt-strategy/src/execution.rs:41-120 | executing and recording any batch moves the effective position of any instrument by what it asks for there, as far as the capped sums can take it up, wrapping |
| `Execution.RepeatedTargetsConvergeIff` | crates/nnxt-strategy/src/execution.rs:41-93 | all targets on one instrument, however many, are met afterwards if and only if they agree and the missing quantity, asked for once for each of them, gains exactly itself in the capped sums; saturation included |
| `Execution.GainsOnceIffReachable` | crates/nnxt-strategy/src/execution.rs:75-80 | for a single target that condition is its reachability |
| `Execution.RepeatingNeverHelps` | crates/nnxt-strategy/src/execution.rs:41-93 | away from saturation, two or more targets on one instrument are all met afterwards if and only if all were met before |
| `Execution.AnyBatchConvergesIff` | crates/nnxt-strategy/src/execution.rs:41-93 | for any batch, any state and any saturation, all targets are met afterwards if and only if on each instrument they agree and are gained exactly, or, where order lists share the instrument, what the batch asks for lands on the target |
| `Execution.AnySecondExecutionIsSilentIff` | crates/nnxt-strategy/src/execution.rs:41-93 | under just that condition executing any batch of targets again yields no action |
| `Execution.SaturatedTargetIsMetByAskingTwice` | crates/nnxt-strategy/src/execution.rs:41-93 | a case where repeating helps, by saturation: in any state with nothing pending at the lowest position, the batch that asks once for a target more than an i64 away misses it, and the batch that asks twice meets it |
| `Execution.AskingTwiceOvershoots` | crates/nnxt-strategy/src/execution.rs:41-63 | a case where targets are not met: two equal intents in one batch overshoot by the whole distance |
| `TradeSim.TradeSimulator.constructor` | crates/nnxt-gateway/src/trade.rs:31-36 | trade ids start at 1, no events |
| `TradeSim.TradeSimulator.PushTradeEvent` | crates/nnxt-gateway/src/trade.rs:59-79 | queues the trade of the order under the next trade id |
| `TradeSim.TradeSimulator.PushOrderEvent` | crates/nnxt-gateway/src/trade.rs:38-57 | queues the report |
| `TradeSim.TradeSimulator.SendOrder` | crates/nnxt-gateway/src/trade.rs:89-131 | a new order is acknowledged, traded and completed, in this order; a cancel is reported as cancelled |
| `TradeSim.AnswerAccountsForOrder` | crates/nnxt-gateway/src/trade.rs:89-117 | each report in the answer to an order names it, says filled what the trades before it add up to and remaining the rest, at its limit price; the trades are of its side and price and fill it; only the last report says Filled |
| `TradeSim.TradeSimulator.PollEvents` | crates/nnxt-gateway/src/trade.rs:133-135 | all queued events in order, and none left |
| `ClosedLoop.NextKeeps` | crates/nnxt-strategy/src/runner.rs:376-430 | every step of strategy, gateway and runner keeps the three queues and the runner's state consistent with the orders sent |
| `ClosedLoop.EveryRunIsConsistent` | crates/nnxt-strategy/src/runner.rs:376-430 | so in every run, within the 64-bit bounds |
| `ClosedLoop.HeadTradeBooks` | crates/nnxt-strategy/src/runner.rs:395-412 | the next trade in the queue is accepted and books exactly the order it answers |
| `ClosedLoop.HeadReport` | crates/nnxt-strategy/src/runner.rs:376-393 | the next report is the next completion, or of an order that is over, or of one whose completion still waits |
| `ClosedLoop.PositionsFollowTheTradeQueue` | crates/nnxt-strategy/src/runner.rs:395-412 | at every moment each position is the sum of the orders whose trades were taken from the queue |
| `ClosedLoop.LedgerIsOfOrdersSent` | crates/nnxt-gateway/src/trade.rs:89-117 | at every moment of every run the ledger, prices included, is that of one trade for each order booked, in the order sent, each at its limit price |
| `ClosedLoop.AverageWithinLimitPrices` | crates/nnxt-gateway/src/trade.rs:101-108 | in every run the average price of an open position lies between the limit prices of the orders sent on its instrument |
| `ClosedLoop.DrainedLoopIsSettled` | examples/trade_sim.rs:61-89 | once the queues are empty, however they were merged, every order is terminal, nothing is pending and each position is the signed sum sent |
| `ClosedLoop.SettledLoopRestsIffOnTarget` | crates/nnxt-strategy/src/execution.rs:41-93 | a settled loop stays silent on its targets if and only if the sums sent are the targets |
| `ClosedLoop.EveryQuietMomentIsOnTarget` | crates/nnxt-strategy/src/runner.rs:376-430 | for any strategy, whatever it cancels, lists or changes its mind about, and any merge of the queues: whenever no new order and no completion is under way, every target of the batch it answered with last is met |
| `ClosedLoop.LoopRestsOnItsLastTargets` | crates/nnxt-strategy/src/runner.rs:376-430 | so once the queues are empty, the booked position of each instrument is the target asked for last |
| `ClosedLoop.SteadyStrategyRestsOnItsTargets` | crates/nnxt-strategy/src/runner.rs:376-430 | a strategy that has spoken up and answers everything with the same batch comes to rest on every target of it, or never |
| `ClosedLoop.TradeOvertakingAcknowledgementCountsTwice` | crates/nnxt-strategy/src/order_manager.rs:66-89 | an acknowledgement arriving after the trade revives the order and counts it twice until the completion comes |
| `ClosedLoop.CompletionOvertakingTradeCountsNothing` | crates/nnxt-strategy/src/order_manager.rs:66-104 | a completion arriving before the trade leaves the quantity out until the trade comes |
| `ClosedLoop.AnswerInOrderIsNeutral` | crates/nnxt-gateway/src/trade.rs:89-117 | heard in the order given, the answer to an order moves the effective position at no point and leaves the order filled and booked |
| `ClosedLoop.CancelAnswerForgetsFill` | crates/nnxt-gateway/src/trade.rs:118-129 | the answer to a cancel, unless a replay, leaves the order cancelled with its fill set to 0, and takes back the rest of it if it was alive |
| `Replays.RunWindow` | crates/nnxt-strategy/src/state.rs:50-56 | over any run the trade memory is that of the trade ids offered |
| `Replays.SeenIffHeard` | crates/nnxt-strategy/src/order_manager.rs:55-64 | a report counts as seen if and only if one with the same order id, status, filled and remaining quantity was heard before |
| `Replays.EventIsIgnoredIffReplay` | crates/nnxt-strategy/src/state.rs:46-56 | an event leaves the state as it was if and only if it repeats a report ever heard or one of the last 10,000 accepted trades |
| `Replays.ReplaysLeaveNoTrace` | crates/nnxt-strategy/src/state.rs:46-56 | replays inserted anywhere leave the state a run reaches unchanged |
| `Dispatch.RapidSources.ReadFrom` | crates/nnxt-actors/src/context.rs:58-65 | the new source's id is its index in the list, and earlier sources keep theirs |
| `Dispatch.FindQuote` | crates/nnxt-strategy/src/runner.rs:211-215 | the quote subscription of a source id, if any |
| `Dispatch.StrategyRunner.constructor` | crates/nnxt-strategy/src/runner.rs:103-130 | nothing connected, empty state |
| `Dispatch.StrategyRunner.ConnectSubscriptions` | crates/nnxt-strategy/src/runner.rs:257-288 | subscriptions are connected in turn up to the first that fails |
| `Dispatch.StrategyRunner.ConnectTrade` | crates/nnxt-strategy/src/runner.rs:290-360 | report and trade sources are set as far as the attempt gets |
| `Dispatch.StrategyRunner.ApplyActions` | crates/nnxt-strategy/src/runner.rs:426-430 | records every action in order |
| `Dispatch.StrategyRunner.HandleDataEvent` | crates/nnxt-strategy/src/runner.rs:206-235 | every cast meets the type its source was created for, and the event has the effect its handler specifies |
| `Dispatch.EveryWiringIsSound` | crates/nnxt-strategy/src/runner.rs:257-360 | after any connects, failures and reconnects, every id names a source of its handler's type, and sources keep their id and type |
| `Dispatch.DispatchIsTypeSound` | crates/nnxt-strategy/src/runner.rs:206-235 | in every reachable wiring an event is cast to the type its source was created for |
| `Dispatch.SourcesAreDistinct` | crates/nnxt-strategy/src/runner.rs:275-341 | quote, report and trade sources are pairwise distinct, also after reconnecting |
| `Dispatch.QuotesConnectInOrder` | crates/nnxt-strategy/src/runner.rs:257-288 | the subscriptions before the first failure get the next source ids in order, each with its instrument, and nothing else changes |
| `Dispatch.SubscriptionsAreHeard` | crates/nnxt-strategy/src/runner.rs:257-288 | events of each new quote source go to the handler of its own instrument; those of the sources there were go where they went |
| `Dispatch.TradeQueuesTakeOver` | crates/nnxt-strategy/src/runner.rs:290-360 | connecting the trade queues makes the new sources the only ones of reports and trades, as far as the attempt gets; the sources they replace are ignored, all others stay |
| `StrategyTimers.TimerManager.constructor` | crates/nnxt-strategy/src/context.rs:48-51 | no timers, ids from 0 |
| `StrategyTimers.TimerManager.SetTimer` | crates/nnxt-strategy/src/context.rs:61-70 | a timer under the next id, armed one interval ahead |
| `StrategyTimers.TimerManager.CancelTimer` | crates/nnxt-strategy/src/context.rs:72-78 | takes the timer out if it is there, and says so |
| `StrategyTimers.TimerManager.DueTimers` | crates/nnxt-strategy/src/context.rs:80-92 | reports the due timers in list order and rearms exactly them |
| `StrategyTimers.FiresEachDueTimerOnce` | crates/nnxt-strategy/src/context.rs:80-92 | one call reports a due id exactly once and no other |
| `StrategyTimers.ReportsInListOrder` | crates/nnxt-strategy/src/context.rs:80-92 | one call reports the due timers in the order of the list |
| `StrategyTimers.StillDueIff` | crates/nnxt-strategy/src/context.rs:84-88 | a fired timer is still due if and only if its interval is 0 or the clock stands at its last value |
| `StrategyTimers.SwapRemoveAt` | crates/nnxt-strategy/src/context.rs:72-78 | swap_remove leaves every element where it was but for the last, which takes the place of the one removed |
| `StrategyTimers.RemovingKeepsOthers` | crates/nnxt-strategy/src/context.rs:72-78 | swap_remove keeps every other timer |
| `StrategyTimers.EveryHistoryIsOrderly` | crates/nnxt-strategy/src/context.rs:60-93 | over any run with a monotone clock ids are distinct, exactly the timers set and not cancelled are held, and each is armed one interval after it was set or fired last |
| `StrategyTimers.TimerRate` | crates/nnxt-strategy/src/context.rs:60-93 | a timer set at t0 with interval d that fired k times satisfies k * d <= now - t0 |
| `StrategyTimers.PollReports` | crates/nnxt-strategy/src/context.rs:72-92 | a poll reports an id once if it was set, not cancelled, and its interval has passed since it was set or reported last, and never otherwise |
| `Reactor.OneShotTimers.AddTimer` | crates/nnxt-actors/src/reactor.rs:121-123 | adds the entry |
| `Reactor.OneShotTimers.PollDue` | crates/nnxt-actors/src/reactor.rs:125-138 | fires the first due entry in list order and takes it out |
| `Reactor.Reactor.constructor` | crates/nnxt-actors/src/reactor.rs:163-181 | counter 0, no timers |
| `Reactor.Reactor.AddTimer` | crates/nnxt-actors/src/reactor.rs:245-247 | adds the entry, nothing else |
| `Reactor.Reactor.Poll` | crates/nnxt-actors/src/reactor.rs:200-235 | one event by priority: shutdown, data, external, control, then timers on every thousandth otherwise empty poll |
| `Reactor.PollTakesMostUrgent` | crates/nnxt-actors/src/reactor.rs:200-221 | a poll takes the most urgent event there is, shutdown before data by source id before external before control, and does nothing else |
| `Reactor.IdlePollLooksFurther` | crates/nnxt-actors/src/reactor.rs:222-235 | with nothing there a poll counts itself, and only each thousandth looks at the control socket or, past it, at the timers, of which it takes the first due |
| `Reactor.PollConsumesWhatItReports` | crates/nnxt-actors/src/reactor.rs:222-232 | a timer event is the firing of one due entry, and no other poll touches the timers |
| `Reactor.EachTimerFiresOnce` | crates/nnxt-actors/src/reactor.rs:120-138 | over any run every timer added has fired exactly once or is still waiting |
| `Reactor.EveryThousandExamines` | crates/nnxt-actors/src/reactor.rs:222-223 | every 1000 consecutive idle polls examine the timers, even when the counter wraps among them |
| `Reactor.ExaminationsPerThousand` | crates/nnxt-actors/src/reactor.rs:222-223 | 1000 * n idle polls examine the timers at least n times |
| `Draining.IdleRunProgresses` | crates/nnxt-actors/src/reactor.rs:222-232 | each examination takes a timer, until none that was due is left |
| `Draining.DueTimersDrain` | crates/nnxt-actors/src/reactor.rs:120-138 | all timers due at the start have fired after 1000 idle polls for each timer due by the end |
| `Draining.RunReportsFired` | crates/nnxt-actors/src/reactor.rs:222-232 | over any run of polls, whatever else they find, the timer ids reported are those of the timers taken out, in order |
| `Draining.DueTimersFire` | crates/nnxt-actors/src/reactor.rs:200-235 | in polls with nothing else to do, 1000 for each timer due by the end, every timer due at the start is fired and its id reported as often as it was there |
| `Draining.DrainsInTimeIff` | crates/nnxt-actors/src/reactor.rs:120-138 | unless a wrap of the counter brings a look more, the n timers due at the start have all fired within 1000 * n idle polls, however the clock runs up to the horizon, if and only if they are served in turn: no timer due by the horizon comes before one of them in the list as swap_remove leaves it |
| `Draining.AlwaysDrainsIff` | crates/nnxt-actors/src/reactor.rs:120-138 | any number of idle polls, from any count, wraps included: the timers due at the start have all gone, however the clock runs up to the horizon, if and only if the looks among those polls serve them all whichever timer each look may turn out to serve |
| `Draining.AlwaysFiresIff` | crates/nnxt-actors/src/reactor.rs:200-235 | the same for the timers fired and reported by any number of polls with nothing else to do |
| `Draining.FiresInTimeIff` | crates/nnxt-actors/src/reactor.rs:120-138 | short of the wrap, the n timers due at the start have all been fired and reported within 1000 * n polls with nothing else to do if and only if they are served in turn |
| `Draining.ServedInTurnDrains` | crates/nnxt-actors/src/reactor.rs:120-138 | served in turn, they have all fired within 1000 * n idle polls, across the wrap of the counter too |
| `Draining.WrapCanDrainOutOfTurn` | crates/nnxt-actors/src/reactor.rs:222-232 | across the wrap the converse fails: the look more serves a newcomer and the timer that was due |
| `Draining.NewcomerIsServedFirst` | crates/nnxt-actors/src/reactor.rs:125-138 | 1000 polls for each timer due at the start are not enough when another falls due ahead of it in the list |
| `Registry.ActorRegistry.Register` | crates/nnxt-master/src/registry.rs:43-84 | the actor's old index entries go; then it is rejected with the first address that is taken, or entered as healthy with all its queues |
| `Registry.ActorRegistry.RegisterQueue` | crates/nnxt-master/src/registry.rs:86-114 | adds the queue to list and index, or reports the unknown actor or the taken address and changes nothing |
| `Registry.ActorRegistry.Unregister` | crates/nnxt-master/src/registry.rs:116-129 | removes the actor and everything it lists, or reports it unknown |
| `Registry.ActorRegistry.RecordHeartbeat` | crates/nnxt-master/src/registry.rs:208-218 | stamps a known actor and marks it healthy |
| `Registry.ActorRegistry.UpdateHealth` | crates/nnxt-master/src/registry.rs:220-226 | marks exactly the overdue actors unhealthy |
| `Registry.ActorRegistry.LookupQueue` | crates/nnxt-master/src/registry.rs:131-138 | the owner and type of an indexed address |
| `Registry.ActorRegistry.FindQueues` | crates/nnxt-master/src/registry.rs:140-168 | all and only the queues of the type, of owners of the actor type asked for, each once |
| `Registry.ActorRegistry.FindActorByType` | crates/nnxt-master/src/registry.rs:183-191 | some actor of the type, or an error exactly if there is none |
| `Registry.ActorRegistry.FindQueueByOwnerType` | crates/nnxt-master/src/registry.rs:193-206 | some queue of that owner and type, or an error exactly if there is none |
| `Registry.RegisterKeepsBacked` | crates/nnxt-master/src/registry.rs:43-84 | registering, accepted or rejected, keeps every index entry backed by its owner's list |
| `Registry.UnregisterKeepsBacked` | crates/nnxt-master/src/registry.rs:116-129 | so does unregistering |
| `Registry.RegisterQueueKeepsBacked` | crates/nnxt-master/src/registry.rs:86-114 | so does registering one queue |
| `Registry.RegisterKeepsListedIff` | crates/nnxt-master/src/registry.rs:49-83 | registering keeps every listed address indexed if and only if it is not a rejection of an actor that already lists queues |
| `Registry.UnregisterKeepsListed` | crates/nnxt-master/src/registry.rs:116-129 | unregistering keeps every listed address indexed |
| `Registry.RegisterQueueKeepsListed` | crates/nnxt-master/src/registry.rs:86-114 | registering one queue keeps every listed address indexed |
| `Registry.IndexIsUnionOfLists` | crates/nnxt-master/src/registry.rs:17-33 | with both directions the index is exactly the union of the lists |
| `Registry.RegisterThenUnregister` | crates/nnxt-master/src/registry.rs:43-129 | a fresh actor that registers and unregisters leaves both maps as they were |
| `MasterServer.MasterServer.constructor` | crates/nnxt-master/src/server.rs:31-44 | an empty registry and the given timeout |
| `MasterServer.MasterServer.HandleMessage` | crates/nnxt-master/src/server.rs:90-106 | a message that does not parse changes nothing; any other refreshes the health flags and is then handled |
| `MasterServer.MasterServer.HandleRequest` | crates/nnxt-master/src/server.rs:108-242 | each request has its registry effect and one of the answers the tables allow |
| `MasterServer.MasterServer.HandleConnectTrade` | crates/nnxt-master/src/server.rs:195-221 | a gateway of the type with its two queues, or the first thing missing |
| `MasterServer.EveryIndexIsBacked` | crates/nnxt-master/src/server.rs:90-242 | in every run, failures included, each indexed address points to a live actor that lists it with that type |
| `MasterServer.TradeConnectionIsReal` | crates/nnxt-master/src/server.rs:195-221 | a trade connection names queues that the chosen gateway really lists |
| `MasterServer.EveryListIsIndexed` | crates/nnxt-master/src/server.rs:90-242 | in runs where no listed actor is turned down re-registering, every listed address is indexed under its actor |
| `MasterServer.AlwaysListedIff` | crates/nnxt-master/src/server.rs:90-242 | every listed address is indexed under its actor at every moment of a run if and only if no actor with queues listed is turned down re-registering in it |
| `MasterServer.IndexCanLoseListed` | crates/nnxt-master/src/registry.rs:49-83 | a run in which they do not: after three registrations an actor lists an address that is not in the index |
| `MasterServer.StrippedActorTakesOthersAddress` | crates/nnxt-master/src/registry.rs:116-129 | the run goes on: another actor registers the lost address, and the first actor, leaving, takes it out of the index from under its new owner |
| `MasterServer.IndexEqualsLists` | crates/nnxt-master/src/server.rs:90-242 | in those runs the index is exactly the union of the lists |
| `MasterServer.HealthRefinesClock` | crates/nnxt-master/src/server.rs:90-106 | under a monotone clock, after every well-formed message an actor is Unhealthy if and only if its last heartbeat is more than the timeout ago |
| `RegistryRuns.RegisterSucceedsIff` | crates/nnxt-master/src/registry.rs:43-62 | a registration succeeds if and only if each of its addresses is free or listed by the actor itself up to now |
| `RegistryRuns.RejectionNamesOwner` | crates/nnxt-master/src/registry.rs:55-62 | a rejected registration names its first address that another actor owns, and that actor, which lists it |
| `RegistryRuns.RegisterQueueAddsOne` | crates/nnxt-master/src/registry.rs:105-112 | a queue registered with success is exactly one index entry and one listing more; every other entry, list and field stays |
| `RegistryRuns.IndexTellsHistory` | crates/nnxt-master/src/registry.rs:43-129 | over any run an address is indexed under an owner and type if and only if some request answered Ok gave it to that owner as such, and no actor that listed it has registered again or left since |
| `RegistryRuns.LookupTellsHistory` | crates/nnxt-master/src/registry.rs:131-138 | so lookup finds an address under the actor it was last given to, as long as it stands |
| `RegistryRuns.KnownTellsHistory` | crates/nnxt-master/src/registry.rs:43-129 | an actor is known exactly from a registration that succeeded until it leaves |
| `RegistryRuns.RecordTellsHistory` | crates/nnxt-master/src/registry.rs:72-112 | a known actor has the type and list of its last successful registration, followed by the queues it added since with success |
| `RegistryRuns.FindTellsHistory` | crates/nnxt-master/src/registry.rs:150-168 | asked for queues of a type owned by actors of a type, the master lists exactly the queues of that type that stand under an owner last registered as such an actor |
| `RegistryRuns.KnownIsHeard` | crates/nnxt-master/src/registry.rs:43-218 | a known actor has a last successful registration or heartbeat |
| `RegistryRuns.HealthTellsHistory` | crates/nnxt-master/src/registry.rs:208-226 | under any clock an actor is stamped with the time of its last successful registration or heartbeat, and is Unhealthy if and only if some message handled since came more than the timeout later |
| `RegistryRuns.UnhealthyIffSilent` | crates/nnxt-master/src/server.rs:90-106 | under a monotone clock an actor is Unhealthy if and only if its last successful registration or heartbeat is more than the timeout before the last message handled |
| `Addresses.NewAddress` | crates/nnxt-rapid/src/address.rs:57-89 | the first error in reading order, or the names built on the unchanged path |
| `Addresses.JoinOfSplit` | crates/nnxt-rapid/src/address.rs:63-83 | joining the segments of a path gives back the path |
| `Addresses.SplitOfJoin` | crates/nnxt-rapid/src/address.rs:63-83 | splitting joined slash-free segments gives back the segments |
| `Addresses.AcceptedIffJoinOfValid` | crates/nnxt-rapid/src/address.rs:57-89 | accepted are exactly the joins of nonempty lists of nonempty plain segments |
| `Addresses.NamesAreInjective` | crates/nnxt-rapid/src/address.rs:84-89 | distinct accepted paths have distinct shared memory names and files |
| `Addresses.AcceptedByCharacters` | crates/nnxt-rapid/src/address.rs:57-89 | accepted are exactly the nonempty paths of ASCII letters, digits, hyphens, underscores and single slashes that neither begin nor end with a slash; the names are the path behind the two fixed roots |
| `Addresses.RefusedForFirstFault` | crates/nnxt-rapid/src/address.rs:57-82 | a refused path is refused for its first fault in reading order, and the error says which segment or character it is |
| `QueueNames.PathIsUniqueIff` | crates/nnxt-utils/src/queue.rs:3-5 | a queue path determines its three components if and only if none of them has a slash |
| `QueueNames.ActionQueueIsUniqueIff` | crates/nnxt-utils/src/queue.rs:11-13 | an action queue belongs to one strategy and gateway alone if and only if neither id has a slash |
| `QueueNames.ActionQueuesAreDisjoint` | crates/nnxt-utils/src/queue.rs:7-13 | distinct strategy and gateway pairs never share an action queue; it meets a broadcast queue only as action data of a strategy towards a gateway named public |
| `QueueNames.SlashesCollide` | crates/nnxt-utils/src/queue.rs:3-13 | cases where it does not: with slashes inside components two different pairs share one queue |
| `QueueNames.QueuePathAcceptedIff` | crates/nnxt-utils/src/queue.rs:3-5 | a generated name is a valid address if and only if each component is |

## Left out

- Shared memory calls (shm_open, mmap, ftruncate, unlink, descriptors, errno mapping, cleanup): a mapping is a pair of arrays of the sizes the layout gives.
- Rings.Connect: leaves out the checks of magic, version, element size and mapping length, which come before the scan and change nothing; of the header only the recomputed layout is modelled, in RingLayout.
- Hardware memory ordering: every load, store and compare-and-exchange is one atomic step in a single order, so Acquire, Release and Relaxed do not differ.
- Torn reads: a slot is written and read as one value, so a look at a slot open for writing sees the last complete write, never a mixture of two.
- RingSafety.EveryRunIsValid: excludes a write sequence that reaches the free marker u64::MAX, where a cursor could not be told from a free one.
- RingLayout.LayoutsAgreeIff: assumes that the sums before the data offset do not overflow; LayoutIsSoundIff says what happens when they do.
- Rings.Reader.Read: takes the values its loads return as input and needs one that finds a message, because the loop of the source spins for ever without one.
- Rings.Reader.ReadTimeout: takes the values its loads return and the clock readings as input.
- Rings.CreateWithReaders: is refused only for want of a layout; failures of opening, truncating and mapping the memory are left out with those calls.
- nng sockets, JSON, MasterClient, control listeners, retries and back-off.
- MasterServer.MasterServer.HandleRequest: leaves out ListActors, which lists the actor table, and SendCommand with forward_command and the control queue lookup, which talk to other sockets.
- Dispatch.RapidSources.ReadFrom: takes whether the queue is there as an input.
- Dispatch.StrategyRunner.ConnectSubscriptions: takes which of the connects succeed as an input.
- Dispatch.StrategyRunner.ConnectTrade: takes how far the attempt gets as an input.
- Dispatch.StrategyRunner.HandleDataEvent: leaves out the market view that a book updates, which no other part of the model reads.
- find_queues_by_type and find_queues_by_actor_type are one method with an optional actor type.
- Market views (update_market, the fields of an order book) and the strategy callbacks: the strategy's answer to an event is an arbitrary list of intents.
- Timers inside the runner: tick_timers hands due timers to the strategy, which in the closed loop is a step in which the strategy speaks up on its own.
- Instrument ids are taken as strings compared for equality; their parsing is left out.
- Floating-point rounding: averages and cash flows are over reals, and no claim is made about f64 results.
- Several strategies on one gateway, and a runner without an action queue: the closed loop has one connected strategy.
- ClosedLoop.DrainedLoopIsSettled: its three queues lose nothing, whereas in the source they are finite rings on which a reader more than a lap behind skips messages; RingDelivery says when a reader skips none and sees what was written.
- Several clock readings inside one send_order or poll are one reading.
- Overflow panics of debug builds: arithmetic that is not checked wraps, as in a release build.
- ClosedLoop.EveryRunIsConsistent: assumes fewer orders than ids and a total quantity within i64, so ids and positions do not wrap.
- Ledgers.ProfitIdentity: assumes a total traded quantity within i64, so positions do not saturate.
- StrategyTimers.TimerRate: assumes that the clock stays below u64::MAX, where saturation would make a timer due at once for ever.
- Draining.DrainsInTimeIff: excludes wraps of the poll counter that bring a look more, where WrapCanDrainOutOfTurn shows that it fails; AlwaysDrainsIff is exact for every number of polls, wraps included.
- Draining.FiresInTimeIff: assumes that the poll counter does not wrap; AlwaysFiresIff covers the wrap.
- SimulatedSource, LatencyStats, the benchmarks, SubscriptionManager, the gateway runners and the Python bindings.
