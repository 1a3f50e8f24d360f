/** What becomes of one order between the moment it is sent or reported on and the next
    report: statuses by name, fills, and what it leaves pending. */
module Lifecycles {
  import opened Specs
  import opened Ledgers
  import opened Orders
  import opened RunnerStates
  import opened Conservation

  const OVER: set<OrderStatus> := {OrderStatus.Filled, Cancelled, Rejected}
  const ALIVE: set<OrderStatus> := {OrderStatus.Pending, PendingNew, Active, PendingCancel, PartialFilled}

  lemma OverOrAlive(status: OrderStatus)
    ensures status in OVER <==> status !in ALIVE
    ensures status in OVER <==> IsTerminal(status)
  {
    match status
    case Pending =>
    case PendingNew =>
    case Active =>
    case PendingCancel =>
    case Filled =>
    case Cancelled =>
    case Rejected =>
    case PartialFilled =>
  }

  /** The quantity that the order of an accepted report leaves pending, if it lives on.
      An order nobody knows counts as bought. */
  function LeftPending(state: OrdersState, event: OrderEvent, instrumentId: InstrumentId, side: Side): int {
    var total := SatAdd(event.filledQuantity, event.remainingQuantity);
    if event.orderId in state.orders then
      var order := state.orders[event.orderId];
      if order.instrumentId != instrumentId || order.side != side then 0
      else (if total > order.quantity then total else order.quantity) - event.filledQuantity
    else if event.instrumentId != instrumentId || side != Buy then 0
    else total - event.filledQuantity
  }

  /** An accepted report settles what its order has pending, whatever was pending before:
      nothing once it is filled, cancelled or rejected; in every other status the quantity
      less what the report says is filled. */
  lemma ReportDecidesPending(state: OrdersState, event: OrderEvent, instrumentId: InstrumentId, side: Side)
    requires AcceptsEvent(state, event)
    ensures PendingSum(OrdersAfterEvent(state, event).orders, instrumentId, side)
         == PendingSum(state.orders - {event.orderId}, instrumentId, side)
            + if event.status in OVER then 0 else LeftPending(state, event, instrumentId, side)
  {
    OverOrAlive(event.status);
    var after := OrdersAfterEvent(state, event).orders;
    PendingSumTakes(after, event.orderId, instrumentId, side);
    assert after - {event.orderId} == state.orders - {event.orderId};
  }

  /** A report that a living order is filled, cancelled or rejected, honest or not, takes back
      the whole signed quantity it was still waiting for, and nothing else. */
  lemma EndingTakesBackTheRest(state: State, event: OrderEvent, wanted: InstrumentId)
    requires AcceptsEvent(state.orders, event) && event.orderId in state.orders.orders
    requires state.orders.orders[event.orderId].status in ALIVE && event.status in OVER
    ensures var order := state.orders.orders[event.orderId];
            ExactEffective(AfterOrderEvent(state, event), wanted)
            == ExactEffective(state, wanted)
               - On(order.instrumentId, wanted, Signed(order.side, SatSub(order.quantity, order.filledQuantity)))
  {
    OverOrAlive(state.orders.orders[event.orderId].status);
    ReportDecidesPending(state.orders, event, wanted, Buy);
    ReportDecidesPending(state.orders, event, wanted, Sell);
    PendingSumTakes(state.orders.orders, event.orderId, wanted, Buy);
    PendingSumTakes(state.orders.orders, event.orderId, wanted, Sell);
  }

  /** An accepted report on an unknown order that is not over buys what remains, whatever side
      the order really has, as a limit order at the last price. */
  lemma UnknownOrderCountsAsBought(state: State, event: OrderEvent, wanted: InstrumentId)
    requires AcceptsEvent(state.orders, event) && event.orderId !in state.orders.orders
    requires event.status in ALIVE && event.filledQuantity + event.remainingQuantity <= U64_MAX
    ensures ExactEffective(AfterOrderEvent(state, event), wanted)
         == ExactEffective(state, wanted) + On(event.instrumentId, wanted, event.remainingQuantity)
    ensures AfterOrderEvent(state, event).orders.orders[event.orderId]
         == Order(event.instrumentId, event.orderId, 0, Buy, Limit, event.lastPrice,
                  event.filledQuantity + event.remainingQuantity, event.filledQuantity, event.status, event.timestamp)
  {
    assert state.orders.orders - {event.orderId} == state.orders.orders;
    OverOrAlive(event.status);
    ReportDecidesPending(state.orders, event, wanted, Buy);
    ReportDecidesPending(state.orders, event, wanted, Sell);
  }

  // ---------------------------------------------------------------------------
  // Between two reports

  /** Nothing new is said of the order: it is not sent again, and reports on it are replays. */
  predicate Untold(state: State, happening: Happening, id: u64) {
    match happening
    case Sent(SendNew(order), _) => order.orderId != id
    case Sent(SendCancel(_), _) => true
    case Traded(_) => true
    case Told(event) => event.orderId != id || !AcceptsEvent(state.orders, event)
  }

  predicate UntoldRun(state: State, run: seq<Happening>, id: u64) {
    run == []
    || (UntoldRun(state, run[..|run| - 1], id) && Untold(AfterAll(state, run[..|run| - 1]), run[|run| - 1], id))
  }

  predicate FillsOrder(state: State, happening: Happening, id: u64) {
    happening.Traded? && happening.trade.orderId == id && Accepts(state.ledger, happening.trade)
  }

  predicate AsksToCancel(happening: Happening, id: u64) {
    happening.Sent? && happening.action.SendCancel? && happening.action.cancel.orderId == id
  }

  /** How many accepted trades the order had, and their quantity. */
  function TradesOn(state: State, run: seq<Happening>, id: u64): nat {
    if run == [] then 0
    else
      TradesOn(state, run[..|run| - 1], id)
      + if FillsOrder(AfterAll(state, run[..|run| - 1]), run[|run| - 1], id) then 1 else 0
  }

  function TradedOn(state: State, run: seq<Happening>, id: u64): nat {
    if run == [] then 0
    else
      var last := run[|run| - 1];
      TradedOn(state, run[..|run| - 1], id)
      + if FillsOrder(AfterAll(state, run[..|run| - 1]), last, id) then last.trade.quantity else 0
  }

  predicate CancelAsked(run: seq<Happening>, id: u64) {
    exists k :: 0 <= k < |run| && AsksToCancel(run[k], id)
  }

  lemma CancelAskedLast(run: seq<Happening>, id: u64)
    requires run != []
    ensures CancelAsked(run, id) <==> CancelAsked(run[..|run| - 1], id) || AsksToCancel(run[|run| - 1], id)
  {
    var init := run[..|run| - 1];
    if CancelAsked(init, id) {
      var k :| 0 <= k < |init| && AsksToCancel(init[k], id);
      assert AsksToCancel(run[k], id);
    }
    if CancelAsked(run, id) {
      var k :| 0 <= k < |run| && AsksToCancel(run[k], id);
      assert k < |init| ==> AsksToCancel(init[k], id);
    }
  }

  /** Filled by a trade that completes it, even if it was over; else still over if it was; else
      waiting for its cancel if one was asked for; else active if a trade proved it so. */
  function StatusAfter(order: Order, trades: nat, traded: nat, cancelAsked: bool): OrderStatus {
    if trades > 0 && order.filledQuantity + traded >= order.quantity then OrderStatus.Filled
    else if order.status in OVER then order.status
    else if cancelAsked then PendingCancel
    else if trades > 0 && order.status == PendingNew then Active
    else order.status
  }

  /** What the order has become after so many trades of so much, and perhaps a cancel request. */
  predicate Follows(order: Order, after: Order, trades: nat, traded: nat, cancelAsked: bool) {
    && after.filledQuantity == Min(order.filledQuantity + traded, U64_MAX)
    && after.status == StatusAfter(order, trades, traded, cancelAsked)
    && after == order.(filledQuantity := after.filledQuantity, status := after.status, timestamp := after.timestamp)
  }

  lemma FillFollows(order: Order, after: Order, trades: nat, traded: nat, cancelAsked: bool, trade: TradeEvent)
    requires Follows(order, after, trades, traded, cancelAsked)
    ensures Follows(order, Fill(after, trade), trades + 1, traded + trade.quantity, cancelAsked)
  {
  }

  /** Whatever happens to other orders: as long as nothing new is said of this one, its fill is
      what was filled plus what was traded, its status follows from how much was traded and
      whether a cancel was asked for, in any order, and the rest of it stays as it was. */
  lemma {:induction false} UntoldOrderFollowsItsTrades(state: State, run: seq<Happening>, id: u64)
    requires id in state.orders.orders && UntoldRun(state, run, id)
    ensures id in AfterAll(state, run).orders.orders
    ensures Follows(state.orders.orders[id], AfterAll(state, run).orders.orders[id],
                    TradesOn(state, run, id), TradedOn(state, run, id), CancelAsked(run, id))
  {
    if run != [] {
      var init, last := run[..|run| - 1], run[|run| - 1];
      UntoldOrderFollowsItsTrades(state, init, id);
      CancelAskedLast(run, id);
      if FillsOrder(AfterAll(state, init), last, id) {
        FillFollows(state.orders.orders[id], AfterAll(state, init).orders.orders[id],
                    TradesOn(state, init, id), TradedOn(state, init, id), CancelAsked(init, id), last.trade);
      }
    }
  }

  /** An order of which nothing but trades has been heard since it was sent. */
  lemma SentOrderFollowsItsTrades(state: State, order: NewOrder, now: u64, run: seq<Happening>)
    requires UntoldRun(AfterAction(state, SendNew(order), now), run, order.orderId)
    ensures var sent := AfterAction(state, SendNew(order), now);
            var trades, traded := TradesOn(sent, run, order.orderId), TradedOn(sent, run, order.orderId);
            var cancelAsked := CancelAsked(run, order.orderId);
            order.orderId in AfterAll(sent, run).orders.orders
            && var after := AfterAll(sent, run).orders.orders[order.orderId];
               && after.instrumentId == order.instrumentId && after.side == order.side && after.quantity == order.quantity
               && after.orderId == order.orderId && after.clientOrderId == order.clientOrderId
               && after.priceType == order.priceType && after.limitPrice == order.limitPrice
               && after.filledQuantity == Min(traded, U64_MAX)
               && after.status == (if trades > 0 && traded >= order.quantity then OrderStatus.Filled
                                   else if cancelAsked then PendingCancel
                                   else if trades > 0 then Active
                                   else PendingNew)
  {
    UntoldOrderFollowsItsTrades(AfterAction(state, SendNew(order), now), run, order.orderId);
  }

  /** What touched the order last dates it: an accepted trade, or a cancel request that found it
      alive. */
  function TouchedAt(state: State, run: seq<Happening>, id: u64): u64
    requires id in state.orders.orders && UntoldRun(state, run, id)
  {
    if run == [] then state.orders.orders[id].timestamp
    else
      var init, last := run[..|run| - 1], run[|run| - 1];
      var before := AfterAll(state, init);
      if FillsOrder(before, last, id) then last.trade.timestamp
      else if AsksToCancel(last, id) && id in before.orders.orders && before.orders.orders[id].status in ALIVE then last.now
      else TouchedAt(state, init, id)
  }

  lemma {:induction false} UntoldOrderIsDated(state: State, run: seq<Happening>, id: u64)
    requires id in state.orders.orders && UntoldRun(state, run, id)
    ensures id in AfterAll(state, run).orders.orders
    ensures AfterAll(state, run).orders.orders[id].timestamp == TouchedAt(state, run, id)
  {
    if run != [] {
      UntoldOrderIsDated(state, run[..|run| - 1], id);
    }
  }
}
