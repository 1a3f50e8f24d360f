/** The trade simulator: every new order is acknowledged, traded and filled at once;
    every cancel is reported as cancelled, whatever the order did before. */
module TradeSim {
  import opened Specs

  datatype GatewayEvent = OrderReport(order: OrderEvent) | TradeReport(trade: TradeEvent)

  function Acknowledged(order: NewOrder, now: u64): OrderEvent {
    OrderEvent(order.instrumentId, order.orderId, Active, 0, order.quantity, order.limitPrice, now)
  }

  function TradeOf(order: NewOrder, tradeId: u64, now: u64): TradeEvent {
    TradeEvent(order.instrumentId, tradeId, order.orderId, order.side, order.limitPrice, order.quantity, now)
  }

  function Completed(order: NewOrder, now: u64): OrderEvent {
    OrderEvent(order.instrumentId, order.orderId, OrderStatus.Filled, order.quantity, 0, order.limitPrice, now)
  }

  function CancelReported(cancel: CancelOrder, now: u64): OrderEvent {
    OrderEvent(cancel.instrumentId, cancel.orderId, Cancelled, 0, 0, 0.0, now)
  }

  /** What the simulator answers to one action. */
  function Answer(action: Action, tradeId: u64, now: u64): seq<GatewayEvent> {
    match action
    case SendNew(order) =>
      [OrderReport(Acknowledged(order, now)), TradeReport(TradeOf(order, tradeId, now)),
       OrderReport(Completed(order, now))]
    case SendCancel(cancel) => [OrderReport(CancelReported(cancel, now))]
  }

  function TradeIdAfter(action: Action, tradeId: u64): u64 {
    if action.SendNew? then Bump(tradeId) else tradeId
  }

  class TradeSimulator {
    var nextTradeId: u64
    var events: seq<GatewayEvent>

    constructor ()
      ensures nextTradeId == 1 && events == []
    {
      nextTradeId := 1;
      events := [];
    }

    method PushTradeEvent(order: NewOrder, now: u64)
      modifies this
      ensures nextTradeId == Bump(old(nextTradeId))
      ensures events == old(events) + [TradeReport(TradeOf(order, old(nextTradeId), now))]
    {
      var tradeId := nextTradeId;
      nextTradeId := Bump(nextTradeId);
      events := events + [TradeReport(TradeOf(order, tradeId, now))];
    }

    method PushOrderEvent(event: OrderEvent)
      modifies this`events
      ensures events == old(events) + [OrderReport(event)]
    {
      events := events + [OrderReport(event)];
    }

    method SendOrder(action: Action, now: u64)
      modifies this
      ensures events == old(events) + Answer(action, old(nextTradeId), now)
      ensures nextTradeId == TradeIdAfter(action, old(nextTradeId))
    {
      match action {
        case SendNew(order) =>
          PushOrderEvent(Acknowledged(order, now));
          PushTradeEvent(order, now);
          PushOrderEvent(Completed(order, now));
        case SendCancel(cancel) =>
          PushOrderEvent(CancelReported(cancel, now));
      }
    }

    method PollEvents() returns (drained: seq<GatewayEvent>)
      modifies this`events
      ensures drained == old(events) && events == []
    {
      drained := events;
      events := [];
    }
  }

  // ---------------------------------------------------------------------------
  // What the answers say

  function TradedIn(events: seq<GatewayEvent>): nat {
    if events == [] then 0
    else
      TradedIn(events[..|events| - 1])
      + match events[|events| - 1] case TradeReport(trade) => trade.quantity case OrderReport(_) => 0
  }

  /** The report speaks of this order at this time and price, as filled by so much. */
  predicate Accounts(report: OrderEvent, order: NewOrder, traded: nat, now: u64) {
    && report.orderId == order.orderId && report.instrumentId == order.instrumentId
    && report.filledQuantity == traded && report.filledQuantity + report.remainingQuantity == order.quantity
    && report.lastPrice == order.limitPrice && report.timestamp == now
  }

  /** Each report in the answer to an order says filled what the trades before it add up to and
      remaining the rest; the trades are of the order, at its limit price, and fill it. */
  lemma AnswerAccountsForOrder(order: NewOrder, tradeId: u64, now: u64, k: nat)
    requires k < |Answer(SendNew(order), tradeId, now)|
    ensures var answer := Answer(SendNew(order), tradeId, now);
            && TradedIn(answer) == order.quantity
            && match answer[k]
               case OrderReport(report) =>
                 && Accounts(report, order, TradedIn(answer[..k]), now)
                 && report.status == if k == |answer| - 1 then OrderStatus.Filled else Active
               case TradeReport(trade) =>
                 && trade.orderId == order.orderId && trade.instrumentId == order.instrumentId
                 && trade.side == order.side && trade.price == order.limitPrice && trade.timestamp == now
  {
    var answer := Answer(SendNew(order), tradeId, now);
    var one, two := [answer[0]], [answer[0], answer[1]];
    assert one[..0] == [] && two[..1] == one && answer[..2] == two && answer[..1] == one && answer[..0] == [];
    assert TradedIn(one) == 0 && TradedIn(two) == order.quantity;
  }
}
