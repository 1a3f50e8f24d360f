/** What keeps the effective position: under a gateway whose trades and reports agree,
    only sending an order or withdrawing one moves it. */
module Conservation {
  import opened Specs
  import opened Ledgers
  import opened Orders
  import opened RunnerStates

  datatype Happening = Sent(action: Action, now: u64) | Traded(trade: TradeEvent) | Told(event: OrderEvent)

  function After(state: State, happening: Happening): State {
    match happening
    case Sent(action, now) => AfterAction(state, action, now)
    case Traded(trade) => AfterTrade(state, trade)
    case Told(event) => AfterOrderEvent(state, event)
  }

  function AfterAll(state: State, run: seq<Happening>): State {
    if run == [] then state
    else After(AfterAll(state, run[..|run| - 1]), run[|run| - 1])
  }

  /** A list of actions is recorded one by one, in order. */
  lemma {:induction false} RecordingIsARun(state: State, actions: seq<Action>, now: u64)
    ensures AfterActions(state, actions, now)
         == AfterAll(state, seq(|actions|, k requires 0 <= k < |actions| => Sent(actions[k], now)))
  {
    if actions != [] {
      var init := actions[..|actions| - 1];
      var run := seq(|actions|, k requires 0 <= k < |actions| => Sent(actions[k], now));
      RecordingIsARun(state, init, now);
      assert run[..|run| - 1] == seq(|init|, k requires 0 <= k < |init| => Sent(init[k], now));
    }
  }

  function On(instrumentId: InstrumentId, wanted: InstrumentId, quantity: int): int {
    if instrumentId == wanted then quantity else 0
  }

  /** A new order under a fresh id moves its instrument by its signed quantity. */
  lemma NewOrderMoves(state: State, order: NewOrder, now: u64, wanted: InstrumentId)
    requires order.orderId !in state.orders.orders
    ensures ExactEffective(AfterAction(state, SendNew(order), now), wanted)
         == ExactEffective(state, wanted) + On(order.instrumentId, wanted, Signed(order.side, order.quantity))
  {
    EffectiveAfterUpdate(state, AfterAction(state, SendNew(order), now), order.orderId, wanted);
  }

  /** Asking for a cancel moves nothing: the order stays pending until it is reported. */
  lemma CancelRequestMovesNothing(state: State, cancel: CancelOrder, now: u64, wanted: InstrumentId)
    ensures forall side :: PendingOn(AfterAction(state, SendCancel(cancel), now), wanted, side)
                        == PendingOn(state, wanted, side)
    ensures ExactEffective(AfterAction(state, SendCancel(cancel), now), wanted) == ExactEffective(state, wanted)
  {
    var id := cancel.orderId;
    var after := AfterAction(state, SendCancel(cancel), now);
    if id in state.orders.orders {
      forall side {
        PendingSumUpdate(state.orders.orders, id, after.orders.orders[id], wanted, side);
      }
      assert state.orders.orders == state.orders.orders[id := state.orders.orders[id]];
    }
  }

  /** The order still has room for the trade: a fill it was waiting for. */
  predicate Covered(state: State, trade: TradeEvent) {
    trade.quantity == 0
    || (trade.orderId in state.orders.orders
        && var order := state.orders.orders[trade.orderId];
           && order.instrumentId == trade.instrumentId
           && order.side == trade.side
           && !IsTerminal(order.status)
           && order.filledQuantity + trade.quantity <= order.quantity)
  }

  /** The position can take the trade without reaching a 64-bit limit. */
  predicate InRange(state: State, trade: TradeEvent) {
    && trade.quantity <= I64_MAX
    && I64_MIN <= QuantityOf(state.ledger.positions, trade.instrumentId) + Signed(trade.side, trade.quantity) <= I64_MAX
  }

  lemma TradeMoves(state: State, trade: TradeEvent, wanted: InstrumentId)
    requires Accepts(state.ledger, trade) && InRange(state, trade)
    ensures ExactEffective(AfterTrade(state, trade), wanted)
         == ExactEffective(state, wanted)
            + On(trade.instrumentId, wanted, Signed(trade.side, trade.quantity))
            - (if trade.orderId in state.orders.orders then
                 Pull(state.orders.orders[trade.orderId], wanted)
                 - Pull(Fill(state.orders.orders[trade.orderId], trade), wanted)
               else 0)
  {
    var after := AfterTrade(state, trade);
    assert QuantityOf(after.ledger.positions, wanted)
        == QuantityOf(state.ledger.positions, wanted)
           + On(trade.instrumentId, wanted, Signed(trade.side, trade.quantity));
    if trade.orderId in state.orders.orders {
      EffectiveAfterUpdate(state, after, trade.orderId, wanted);
    }
  }

  lemma CoveredTradeIsNeutral(state: State, trade: TradeEvent, wanted: InstrumentId)
    requires Accepts(state.ledger, trade) && InRange(state, trade) && Covered(state, trade)
    ensures ExactEffective(AfterTrade(state, trade), wanted) == ExactEffective(state, wanted)
  {
    TradeMoves(state, trade, wanted);
  }

  lemma UncoveredTradeMoves(state: State, trade: TradeEvent)
    requires Accepts(state.ledger, trade) && InRange(state, trade) && !Covered(state, trade)
    ensures ExactEffective(AfterTrade(state, trade), trade.instrumentId) != ExactEffective(state, trade.instrumentId)
  {
    TradeMoves(state, trade, trade.instrumentId);
  }

  /** A trade is neutral for every instrument exactly when its order was waiting for it;
      a trade on a dead, foreign, mismatched or overfilled order is not. */
  lemma TradeIsNeutralIffCovered(state: State, trade: TradeEvent)
    requires Accepts(state.ledger, trade) && InRange(state, trade)
    ensures (forall wanted :: ExactEffective(AfterTrade(state, trade), wanted) == ExactEffective(state, wanted))
       <==> Covered(state, trade)
  {
    if Covered(state, trade) {
      forall wanted
        ensures ExactEffective(AfterTrade(state, trade), wanted) == ExactEffective(state, wanted)
      {
        CoveredTradeIsNeutral(state, trade, wanted);
      }
    } else {
      UncoveredTradeMoves(state, trade);
    }
  }

  /** The report agrees with the fills already booked as trades, and does not bring a
      finished order back to life. */
  predicate Honest(state: State, event: OrderEvent) {
    event.orderId in state.orders.orders
    && var order := state.orders.orders[event.orderId];
       && event.filledQuantity == order.filledQuantity
       && event.filledQuantity + event.remainingQuantity <= order.quantity
       && (IsTerminal(order.status) ==> IsTerminal(event.status) || order.filledQuantity == order.quantity)
  }

  predicate Withdraws(state: State, event: OrderEvent) {
    AcceptsEvent(state.orders, event) && IsTerminal(event.status)
  }

  /** What a report takes away: the signed quantity still pending on an order it ends. */
  function Withdrawn(state: State, event: OrderEvent, wanted: InstrumentId): int {
    if Withdraws(state, event) then PullAt(state.orders.orders, event.orderId, wanted) else 0
  }

  lemma ReportMoves(state: State, event: OrderEvent, wanted: InstrumentId)
    requires AcceptsEvent(state.orders, event)
    ensures ExactEffective(AfterOrderEvent(state, event), wanted)
         == ExactEffective(state, wanted)
            - PullAt(state.orders.orders, event.orderId, wanted)
            + Pull(Reported(OrderFor(state.orders, event), event), wanted)
  {
    EffectiveAfterUpdate(state, AfterOrderEvent(state, event), event.orderId, wanted);
  }

  /** An honest report of a living order is neutral; one that ends the order moves the
      effective position by exactly the signed remaining quantity. */
  lemma HonestReportMoves(state: State, event: OrderEvent, wanted: InstrumentId)
    requires Honest(state, event)
    ensures ExactEffective(AfterOrderEvent(state, event), wanted)
         == ExactEffective(state, wanted) - Withdrawn(state, event, wanted)
  {
    if AcceptsEvent(state.orders, event) {
      ReportMoves(state, event, wanted);
    }
  }

  /** The quantity of an order that is still expected to trade. */
  function Outstanding(order: Order): u64 {
    if IsTerminal(order.status) then 0 else SatSub(order.quantity, order.filledQuantity)
  }

  /** Any accepted report on a known order, honest or not, is neutral for every
      instrument exactly when it restates the quantity already outstanding. */
  lemma ReportIsNeutralIff(state: State, event: OrderEvent)
    requires AcceptsEvent(state.orders, event)
    requires event.orderId in state.orders.orders
    ensures (forall wanted :: ExactEffective(AfterOrderEvent(state, event), wanted) == ExactEffective(state, wanted))
       <==> var order := state.orders.orders[event.orderId];
            var total := SatAdd(event.filledQuantity, event.remainingQuantity);
            Outstanding(order)
            == if IsTerminal(event.status) then 0
               else SatSub(if total > order.quantity then total else order.quantity, event.filledQuantity)
  {
    var before := state.orders.orders[event.orderId];
    forall wanted
      ensures Outstanding(before) == Outstanding(Reported(before, event)) ==>
                ExactEffective(AfterOrderEvent(state, event), wanted) == ExactEffective(state, wanted)
    {
      ReportMoves(state, event, wanted);
    }
    ReportMoves(state, event, before.instrumentId);
  }

  // ---------------------------------------------------------------------------
  // Whole runs

  predicate Disciplined(state: State, happening: Happening) {
    match happening
    case Sent(SendNew(order), _) => order.orderId !in state.orders.orders
    case Sent(SendCancel(_), _) => true
    case Traded(trade) => Accepts(state.ledger, trade) ==> Covered(state, trade) && InRange(state, trade)
    case Told(event) => AcceptsEvent(state.orders, event) ==> Honest(state, event)
  }

  predicate DisciplinedRun(state: State, run: seq<Happening>) {
    run == []
    || (DisciplinedRun(state, run[..|run| - 1])
        && Disciplined(AfterAll(state, run[..|run| - 1]), run[|run| - 1]))
  }

  /** Signed quantity of the new orders sent on an instrument, less what the reports withdrew. */
  function NetOrdered(state: State, run: seq<Happening>, wanted: InstrumentId): int {
    if run == [] then 0
    else
      NetOrdered(state, run[..|run| - 1], wanted)
      + match run[|run| - 1]
        case Sent(SendNew(order), _) => On(order.instrumentId, wanted, Signed(order.side, order.quantity))
        case Told(event) => -Withdrawn(AfterAll(state, run[..|run| - 1]), event, wanted)
        case _ => 0
  }

  /** Conservation over a whole run: however fills, partial fills, reports, replays and
      cancel requests interleave, the effective position has moved by exactly the
      quantity sent less the quantity withdrawn. */
  lemma {:induction false} EffectivePositionIsConserved(state: State, run: seq<Happening>, wanted: InstrumentId)
    requires DisciplinedRun(state, run)
    ensures ExactEffective(AfterAll(state, run), wanted)
         == ExactEffective(state, wanted) + NetOrdered(state, run, wanted)
  {
    if run != [] {
      var before := AfterAll(state, run[..|run| - 1]);
      EffectivePositionIsConserved(state, run[..|run| - 1], wanted);
      match run[|run| - 1] {
        case Sent(SendNew(order), now) => NewOrderMoves(before, order, now, wanted);
        case Sent(SendCancel(cancel), now) => CancelRequestMovesNothing(before, cancel, now, wanted);
        case Traded(trade) =>
          if Accepts(before.ledger, trade) {
            CoveredTradeIsNeutral(before, trade, wanted);
          }
        case Told(event) =>
          if AcceptsEvent(before.orders, event) {
            HonestReportMoves(before, event, wanted);
          }
      }
    }
  }
}
