/** The strategy runner's state: orders and positions together, and the effective
    position the execution engine steers by. */
module RunnerStates {
  import opened Specs
  import opened Ledgers
  import opened Orders

  datatype State = State(orders: OrdersState, ledger: LedgerState)

  const InitialState := State(NoOrders, EmptyLedger)

  function AfterAction(state: State, action: Action, now: u64): State {
    state.(orders := OrdersAfterAction(state.orders, action, now))
  }

  function AfterActions(state: State, actions: seq<Action>, now: u64): State {
    if actions == [] then state
    else AfterAction(AfterActions(state, actions[..|actions| - 1], now), actions[|actions| - 1], now)
  }

  function AfterOrderEvent(state: State, event: OrderEvent): State {
    state.(orders := OrdersAfterEvent(state.orders, event))
  }

  function AfterTrade(state: State, trade: TradeEvent): State {
    if Accepts(state.ledger, trade) then
      State(OrdersAfterTrade(state.orders, trade), LedgerAfterTrade(state.ledger, trade))
    else state
  }

  ghost function PendingOn(state: State, instrumentId: InstrumentId, side: Side): nat {
    PendingSum(state.orders.orders, instrumentId, side)
  }

  /** Position plus pending buys minus pending sells, over the integers. */
  ghost function ExactEffective(state: State, instrumentId: InstrumentId): int {
    QuantityOf(state.ledger.positions, instrumentId)
    + PendingOn(state, instrumentId, Buy) - PendingOn(state, instrumentId, Sell)
  }

  /** The sums saturate at u64, the result wraps at i64. */
  function Combine(quantity: i64, pendingBuy: nat, pendingSell: nat): i64 {
    WrapI64(quantity + Min(pendingBuy, U64_MAX) - Min(pendingSell, U64_MAX))
  }

  /** What the runner computes. */
  ghost function Effective(state: State, instrumentId: InstrumentId): i64 {
    Combine(QuantityOf(state.ledger.positions, instrumentId),
            PendingOn(state, instrumentId, Buy), PendingOn(state, instrumentId, Sell))
  }

  class RunnerState {
    const orderManager: OrderManager
    const ledger: Ledger

    ghost predicate Valid()
      reads this, ledger, ledger.fillLedger
    {
      ledger.Valid()
    }

    ghost function View(): State
      reads this, orderManager, ledger, ledger.fillLedger
    {
      State(orderManager.View(), ledger.View())
    }

    constructor ()
      ensures Valid() && View() == InitialState
      ensures fresh(orderManager) && fresh(ledger) && fresh(ledger.fillLedger)
    {
      orderManager := new OrderManager();
      ledger := new Ledger();
    }

    method OnActionSent(action: Action, now: u64)
      requires Valid()
      modifies orderManager
      ensures Valid() && View() == AfterAction(old(View()), action, now)
    {
      orderManager.OnActionSent(action, now);
    }

    method ApplyOrderEvent(event: OrderEvent) returns (applied: bool)
      requires Valid()
      modifies orderManager
      ensures Valid() && View() == AfterOrderEvent(old(View()), event)
      ensures applied <==> AcceptsEvent(old(View()).orders, event)
    {
      applied := orderManager.ApplyOrderEvent(event);
    }

    method ApplyTradeEvent(trade: TradeEvent) returns (applied: bool)
      requires Valid()
      modifies orderManager, ledger, ledger.fillLedger
      ensures Valid() && View() == AfterTrade(old(View()), trade)
      ensures applied <==> Accepts(old(View()).ledger, trade)
    {
      var position := ledger.ApplyTradeEvent(trade);
      if position.Some? {
        orderManager.ApplyTradeEvent(trade);
        return true;
      }
      return false;
    }

    method EffectivePosition(instrumentId: InstrumentId) returns (effective: i64)
      requires Valid()
      ensures effective == Effective(View(), instrumentId)
    {
      var position := ledger.PositionFor(instrumentId);
      var positionQty := if position.Some? then position.value.quantity else 0;
      var pendingBuy, pendingSell := orderManager.PendingExposure(instrumentId);
      effective := WrappingSum(positionQty, pendingBuy, pendingSell);
      WrappingSumIsCombine(positionQty, PendingSum(orderManager.orders, instrumentId, Buy),
                           PendingSum(orderManager.orders, instrumentId, Sell));
    }
  }

  /** quantity + pending_buy as i64 - pending_sell as i64, wrapping at every step. */
  function WrappingSum(quantity: i64, pendingBuy: u64, pendingSell: u64): i64 {
    WrapI64(WrapI64(quantity + WrapI64(pendingBuy) as int) - WrapI64(pendingSell) as int)
  }

  /** The intermediate casts and wraps do not show in the result. */
  lemma WrappingSumIsCombine(quantity: i64, pendingBuy: nat, pendingSell: nat)
    ensures WrappingSum(quantity, Min(pendingBuy, U64_MAX), Min(pendingSell, U64_MAX))
         == Combine(quantity, pendingBuy, pendingSell)
  {
    var b, s: int := Min(pendingBuy, U64_MAX), Min(pendingSell, U64_MAX);
    WrapAbsorbs(b, quantity);
    assert WrapI64(quantity + WrapI64(b) as int) == WrapI64(quantity + b);
    WrapAbsorbs(quantity + b, -(WrapI64(s) as int));
    assert WrapI64(s) == if s > I64_MAX then s - TWO_64 else s;
    WrapShifts(quantity + b - s);
  }

  /** Away from the 64-bit limits the runner computes the exact effective position. */
  lemma EffectiveIsExact(state: State, instrumentId: InstrumentId)
    requires PendingOn(state, instrumentId, Buy) <= U64_MAX && PendingOn(state, instrumentId, Sell) <= U64_MAX
    ensures Effective(state, instrumentId) == ExactEffective(state, instrumentId)
       <==> I64_MIN <= ExactEffective(state, instrumentId) <= I64_MAX
  {
  }

  /** How far one order moves the effective position of an instrument. */
  function Pull(order: Order, instrumentId: InstrumentId): int {
    Contribution(order, instrumentId, Buy) as int - Contribution(order, instrumentId, Sell)
  }

  function PullAt(orders: map<u64, Order>, id: u64, instrumentId: InstrumentId): int {
    if id in orders then Pull(orders[id], instrumentId) else 0
  }

  /** Replacing one order moves the effective position by the change in its own pull. */
  lemma EffectiveAfterUpdate(before: State, after: State, id: u64, instrumentId: InstrumentId)
    requires id in after.orders.orders
    requires after.orders.orders == before.orders.orders[id := after.orders.orders[id]]
    ensures ExactEffective(after, instrumentId) - QuantityOf(after.ledger.positions, instrumentId)
         == ExactEffective(before, instrumentId) - QuantityOf(before.ledger.positions, instrumentId)
            - PullAt(before.orders.orders, id, instrumentId)
            + Pull(after.orders.orders[id], instrumentId)
  {
    PendingSumUpdate(before.orders.orders, id, after.orders.orders[id], instrumentId, Buy);
    PendingSumUpdate(before.orders.orders, id, after.orders.orders[id], instrumentId, Sell);
  }
}
