/** Order lifecycle: what the runner believes about every order it has sent or heard of,
    and the exposure still pending on them. */
module Orders {
  import opened Specs

  /** What identifies an order event for the purpose of ignoring its replays. */
  datatype EventKey = EventKey(status: OrderStatus, filledQuantity: u64, remainingQuantity: u64)

  datatype OrdersState = OrdersState(orders: map<u64, Order>, seen: map<u64, set<EventKey>>)

  const NoOrders := OrdersState(map[], map[])

  predicate IsTerminal(status: OrderStatus) {
    status == Filled || status == Cancelled || status == Rejected
  }

  function KeyOf(event: OrderEvent): EventKey {
    EventKey(event.status, event.filledQuantity, event.remainingQuantity)
  }

  predicate Seen(state: OrdersState, orderId: u64, key: EventKey) {
    orderId in state.seen && key in state.seen[orderId]
  }

  function PendingOrder(order: NewOrder, now: u64): Order {
    Order(order.instrumentId, order.orderId, order.clientOrderId, order.side, order.priceType,
          order.limitPrice, order.quantity, 0, PendingNew, now)
  }

  function OrdersAfterAction(state: OrdersState, action: Action, now: u64): OrdersState {
    match action
    case SendNew(order) =>
      state.(orders := state.orders[order.orderId := PendingOrder(order, now)])
    case SendCancel(cancel) =>
      if cancel.orderId in state.orders && !IsTerminal(state.orders[cancel.orderId].status) then
        state.(orders := state.orders[cancel.orderId :=
                           state.orders[cancel.orderId].(status := PendingCancel, timestamp := now)])
      else state
  }

  /** The order an event speaks of: the known one, or a Buy order made up from the event. */
  function OrderFor(state: OrdersState, event: OrderEvent): Order {
    if event.orderId in state.orders then state.orders[event.orderId]
    else Order(event.instrumentId, event.orderId, 0, Buy, Limit, event.lastPrice,
               SatAdd(event.filledQuantity, event.remainingQuantity),
               event.filledQuantity, event.status, event.timestamp)
  }

  function Reported(order: Order, event: OrderEvent): Order {
    var quantity := SatAdd(event.filledQuantity, event.remainingQuantity);
    order.(status := event.status,
           filledQuantity := event.filledQuantity,
           timestamp := event.timestamp,
           quantity := if quantity > order.quantity then quantity else order.quantity)
  }

  predicate AcceptsEvent(state: OrdersState, event: OrderEvent) {
    !Seen(state, event.orderId, KeyOf(event))
  }

  function OrdersAfterEvent(state: OrdersState, event: OrderEvent): OrdersState {
    if !AcceptsEvent(state, event) then state
    else
      var known := if event.orderId in state.seen then state.seen[event.orderId] else {};
      OrdersState(state.orders[event.orderId := Reported(OrderFor(state, event), event)],
                  state.seen[event.orderId := known + {KeyOf(event)}])
  }

  function Fill(order: Order, trade: TradeEvent): Order {
    var filled := SatAdd(order.filledQuantity, trade.quantity);
    order.(filledQuantity := filled,
           timestamp := trade.timestamp,
           status := if filled >= order.quantity then Filled
                     else if order.status == PendingNew then Active
                     else order.status)
  }

  function OrdersAfterTrade(state: OrdersState, trade: TradeEvent): OrdersState {
    if trade.orderId in state.orders then
      state.(orders := state.orders[trade.orderId := Fill(state.orders[trade.orderId], trade)])
    else state
  }

  // ---------------------------------------------------------------------------
  // Pending exposure

  /** What one order still has pending on an instrument and side. */
  function Contribution(order: Order, instrumentId: InstrumentId, side: Side): u64 {
    if order.instrumentId == instrumentId && order.side == side && !IsTerminal(order.status)
    then SatSub(order.quantity, order.filledQuantity)
    else 0
  }

  ghost function AnyOrder(orders: map<u64, Order>): u64
    requires orders != map[]
    ensures AnyOrder(orders) in orders
  {
    var id :| id in orders;
    id
  }

  /** The exact sum of the contributions of all orders. */
  ghost function PendingSum(orders: map<u64, Order>, instrumentId: InstrumentId, side: Side): nat
    decreases |orders|
  {
    if orders == map[] then 0
    else
      var id := AnyOrder(orders);
      Contribution(orders[id], instrumentId, side) + PendingSum(orders - {id}, instrumentId, side)
  }

  /** The sum does not depend on which order is taken first. */
  lemma {:induction false} PendingSumTakes(orders: map<u64, Order>, id: u64, instrumentId: InstrumentId, side: Side)
    requires id in orders
    ensures PendingSum(orders, instrumentId, side)
         == Contribution(orders[id], instrumentId, side) + PendingSum(orders - {id}, instrumentId, side)
    decreases |orders|
  {
    var first := AnyOrder(orders);
    if first != id {
      PendingSumTakes(orders - {first}, id, instrumentId, side);
      PendingSumTakes(orders - {id}, first, instrumentId, side);
      assert orders - {first} - {id} == orders - {id} - {first};
    }
  }

  /** What an id contributes, whether or not it is known. */
  function ContributionAt(orders: map<u64, Order>, id: u64, instrumentId: InstrumentId, side: Side): u64 {
    if id in orders then Contribution(orders[id], instrumentId, side) else 0
  }

  /** Inserting or replacing one order changes the sum by that order's own contribution. */
  lemma PendingSumUpdate(orders: map<u64, Order>, id: u64, order: Order, instrumentId: InstrumentId, side: Side)
    ensures PendingSum(orders[id := order], instrumentId, side)
         == PendingSum(orders, instrumentId, side)
            - ContributionAt(orders, id, instrumentId, side) + Contribution(order, instrumentId, side)
  {
    var updated := orders[id := order];
    PendingSumTakes(updated, id, instrumentId, side);
    assert updated - {id} == orders - {id};
    if id in orders {
      PendingSumTakes(orders, id, instrumentId, side);
    } else {
      assert orders - {id} == orders;
    }
  }

  /** With every order terminal nothing is pending. */
  lemma {:induction false} AllTerminalPendsNothing(orders: map<u64, Order>, instrumentId: InstrumentId, side: Side)
    requires forall id :: id in orders ==> IsTerminal(orders[id].status)
    ensures PendingSum(orders, instrumentId, side) == 0
    decreases |orders|
  {
    if orders != map[] {
      AllTerminalPendsNothing(orders - {AnyOrder(orders)}, instrumentId, side);
    }
  }

  ghost function PendingExposureOf(state: OrdersState, instrumentId: InstrumentId): (u64, u64) {
    (Min(PendingSum(state.orders, instrumentId, Buy), U64_MAX),
     Min(PendingSum(state.orders, instrumentId, Sell), U64_MAX))
  }

  class OrderManager {
    var orders: map<u64, Order>
    var orderEventSeen: map<u64, set<EventKey>>

    ghost function View(): OrdersState
      reads this
    {
      OrdersState(orders, orderEventSeen)
    }

    constructor ()
      ensures View() == NoOrders
    {
      orders := map[];
      orderEventSeen := map[];
    }

    method OnActionSent(action: Action, now: u64)
      modifies this
      ensures View() == OrdersAfterAction(old(View()), action, now)
    {
      match action {
        case SendNew(order) =>
          orders := orders[order.orderId := PendingOrder(order, now)];
        case SendCancel(cancel) =>
          if cancel.orderId in orders && !IsTerminal(orders[cancel.orderId].status) {
            orders := orders[cancel.orderId :=
                               orders[cancel.orderId].(status := PendingCancel, timestamp := now)];
          }
      }
    }

    method ApplyOrderEvent(event: OrderEvent) returns (applied: bool)
      modifies this
      ensures View() == OrdersAfterEvent(old(View()), event)
      ensures applied <==> AcceptsEvent(old(View()), event)
    {
      var key := KeyOf(event);
      var known := {};
      if event.orderId in orderEventSeen {
        known := orderEventSeen[event.orderId];
      }
      if key in known {
        return false;
      }
      orderEventSeen := orderEventSeen[event.orderId := known + {key}];

      var quantity := SatAdd(event.filledQuantity, event.remainingQuantity);
      var order;
      if event.orderId in orders {
        order := orders[event.orderId];
      } else {
        order := Order(event.instrumentId, event.orderId, 0, Buy, Limit, event.lastPrice,
                       quantity, event.filledQuantity, event.status, event.timestamp);
      }
      order := order.(status := event.status);
      order := order.(filledQuantity := event.filledQuantity);
      order := order.(timestamp := event.timestamp);
      if quantity > order.quantity {
        order := order.(quantity := quantity);
      }
      orders := orders[event.orderId := order];
      return true;
    }

    method ApplyTradeEvent(trade: TradeEvent)
      modifies this
      ensures View() == OrdersAfterTrade(old(View()), trade)
    {
      if trade.orderId in orders {
        var order := orders[trade.orderId];
        order := order.(filledQuantity := SatAdd(order.filledQuantity, trade.quantity));
        order := order.(timestamp := trade.timestamp);
        if order.filledQuantity >= order.quantity {
          order := order.(status := Filled);
        } else if order.status == PendingNew {
          order := order.(status := Active);
        }
        orders := orders[trade.orderId := order];
      }
    }

    /** Adds up the remaining quantities in whatever order the table yields them. */
    method PendingExposure(instrumentId: InstrumentId) returns (pendingBuy: u64, pendingSell: u64)
      ensures pendingBuy == Min(PendingSum(orders, instrumentId, Buy), U64_MAX)
      ensures pendingSell == Min(PendingSum(orders, instrumentId, Sell), U64_MAX)
    {
      pendingBuy, pendingSell := 0, 0;
      ghost var buySum: nat, sellSum: nat := 0, 0;
      var rest := orders;
      while rest != map[]
        invariant buySum + PendingSum(rest, instrumentId, Buy) == PendingSum(orders, instrumentId, Buy)
        invariant sellSum + PendingSum(rest, instrumentId, Sell) == PendingSum(orders, instrumentId, Sell)
        invariant pendingBuy == Min(buySum, U64_MAX) && pendingSell == Min(sellSum, U64_MAX)
        decreases |rest|
      {
        var id :| id in rest.Keys;
        var order := rest[id];
        PendingSumTakes(rest, id, instrumentId, Buy);
        PendingSumTakes(rest, id, instrumentId, Sell);
        rest := rest - {id};
        buySum := buySum + Contribution(order, instrumentId, Buy);
        sellSum := sellSum + Contribution(order, instrumentId, Sell);
        if order.instrumentId != instrumentId {
          continue;
        }
        if IsTerminal(order.status) {
          continue;
        }
        var remaining := SatSub(order.quantity, order.filledQuantity);
        if remaining == 0 {
          continue;
        }
        match order.side {
          case Buy => pendingBuy := SatAdd(pendingBuy, remaining);
          case Sell => pendingSell := SatAdd(pendingSell, remaining);
        }
      }
    }
  }
}
