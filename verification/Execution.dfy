/** The execution engine: intents in, actions out, against one reading of the state. */
module Execution {
  import opened Specs
  import opened Ledgers
  import opened Orders
  import opened RunnerStates
  import opened Conservation

  datatype TargetOrder = TargetOrder(side: Side, priceType: PriceType, limitPrice: real, quantity: u64)

  datatype Intent =
    | TargetPosition(instrumentId: InstrumentId, targetQuantity: i64, priceType: PriceType, limitPrice: real)
    | TargetOrders(instrumentId: InstrumentId, orders: seq<TargetOrder>)
    | CancelIntent(instrumentId: InstrumentId, orderId: u64)

  datatype Outcome = Outcome(actions: seq<Action>, counter: u64)

  function SideOf(delta: int): Side {
    if delta > 0 then Buy else Sell
  }

  /** The quantity still missing to reach the target, saturating. */
  ghost function Missing(state: State, instrumentId: InstrumentId, target: i64): i64 {
    ClampI64(target - Effective(state, instrumentId))
  }

  ghost function TargetPositionOutcome(intent: Intent, state: State, counter: u64, now: u64): Outcome
    requires intent.TargetPosition?
  {
    var delta := Missing(state, intent.instrumentId, intent.targetQuantity);
    if delta == 0 then Outcome([], counter)
    else Outcome([SendNew(NewOrder(intent.instrumentId, counter, 0, SideOf(delta), intent.priceType,
                                   intent.limitPrice, Abs(delta), now))],
                 Bump(counter))
  }

  function TargetOrdersOutcome(instrumentId: InstrumentId, orders: seq<TargetOrder>, counter: u64, now: u64): Outcome {
    if orders == [] then Outcome([], counter)
    else
      var before := TargetOrdersOutcome(instrumentId, orders[..|orders| - 1], counter, now);
      var last := orders[|orders| - 1];
      Outcome(before.actions + [SendNew(NewOrder(instrumentId, before.counter, 0, last.side, last.priceType,
                                                 last.limitPrice, last.quantity, now))],
              Bump(before.counter))
  }

  ghost function IntentOutcome(intent: Intent, state: State, counter: u64, now: u64): Outcome {
    match intent
    case TargetPosition(_, _, _, _) => TargetPositionOutcome(intent, state, counter, now)
    case TargetOrders(instrumentId, orders) => TargetOrdersOutcome(instrumentId, orders, counter, now)
    case CancelIntent(instrumentId, orderId) =>
      Outcome([SendCancel(CancelOrder(instrumentId, orderId, now))], counter)
  }

  /** Every intent is judged against the same state; only the id counter moves on. */
  ghost function BatchOutcome(intents: seq<Intent>, state: State, counter: u64, now: u64): Outcome {
    if intents == [] then Outcome([], counter)
    else
      var before := BatchOutcome(intents[..|intents| - 1], state, counter, now);
      var last := IntentOutcome(intents[|intents| - 1], state, before.counter, now);
      Outcome(before.actions + last.actions, last.counter)
  }

  class ExecutionEngine {
    var counter: u64

    constructor ()
      ensures counter == 1
    {
      counter := 1;
    }

    method NextId() returns (id: u64)
      modifies this
      ensures id == old(counter) && counter == Bump(old(counter))
    {
      id := counter;
      counter := Bump(counter);
    }

    method TargetPositionActions(intent: Intent, state: RunnerState, now: u64) returns (actions: seq<Action>)
      requires state.Valid() && intent.TargetPosition?
      modifies this
      ensures state.Valid() && state.View() == old(state.View())
      ensures Outcome(actions, counter) == TargetPositionOutcome(intent, old(state.View()), old(counter), now)
    {
      var effectivePosition := state.EffectivePosition(intent.instrumentId);
      var delta := ClampI64(intent.targetQuantity - effectivePosition);
      if delta == 0 {
        return [];
      }
      var side := if delta > 0 then Buy else Sell;
      var quantity := Abs(delta);
      var id := NextId();
      return [SendNew(NewOrder(intent.instrumentId, id, 0, side, intent.priceType, intent.limitPrice, quantity, now))];
    }

    method TargetOrdersActions(instrumentId: InstrumentId, orders: seq<TargetOrder>, now: u64)
      returns (actions: seq<Action>)
      modifies this
      ensures Outcome(actions, counter) == TargetOrdersOutcome(instrumentId, orders, old(counter), now)
    {
      actions := [];
      for k := 0 to |orders|
        invariant Outcome(actions, counter) == TargetOrdersOutcome(instrumentId, orders[..k], old(counter), now)
      {
        assert orders[..k + 1][..k] == orders[..k];
        var id := NextId();
        var order := orders[k];
        actions := actions + [SendNew(NewOrder(instrumentId, id, 0, order.side, order.priceType,
                                               order.limitPrice, order.quantity, now))];
      }
      assert orders[..|orders|] == orders;
    }

    method Execute(intents: seq<Intent>, state: RunnerState, now: u64) returns (actions: seq<Action>)
      requires state.Valid()
      modifies this
      ensures state.Valid() && state.View() == old(state.View())
      ensures Outcome(actions, counter) == BatchOutcome(intents, old(state.View()), old(counter), now)
    {
      actions := [];
      for k := 0 to |intents|
        invariant state.Valid() && state.View() == old(state.View())
        invariant Outcome(actions, counter) == BatchOutcome(intents[..k], state.View(), old(counter), now)
      {
        assert intents[..k + 1][..k] == intents[..k];
        match intents[k] {
          case TargetPosition(_, _, _, _) =>
            var more := TargetPositionActions(intents[k], state, now);
            actions := actions + more;
          case TargetOrders(instrumentId, orders) =>
            var more := TargetOrdersActions(instrumentId, orders, now);
            actions := actions + more;
          case CancelIntent(instrumentId, orderId) =>
            actions := actions + [SendCancel(CancelOrder(instrumentId, orderId, now))];
        }
      }
      assert intents[..|intents|] == intents;
    }
  }

  // ---------------------------------------------------------------------------
  // Ids and quantities of a list of actions

  function NewOrders(actions: seq<Action>): seq<NewOrder> {
    if actions == [] then []
    else
      NewOrders(actions[..|actions| - 1])
      + match actions[|actions| - 1] case SendNew(order) => [order] case SendCancel(_) => []
  }

  lemma {:induction false} NewOrdersOfConcat(a: seq<Action>, b: seq<Action>)
    ensures NewOrders(a + b) == NewOrders(a) + NewOrders(b)
  {
    if b == [] {
      assert a + b == a;
    } else {
      NewOrdersOfConcat(a, b[..|b| - 1]);
      assert (a + b)[..|a + b| - 1] == a + b[..|b| - 1];
    }
  }

  /** The orders carry the ids first, first + 1, ... */
  ghost predicate Numbered(orders: seq<NewOrder>, first: int) {
    forall k :: 0 <= k < |orders| ==> orders[k].orderId == first + k
  }

  lemma {:induction false} TargetOrdersAreNumbered(instrumentId: InstrumentId, orders: seq<TargetOrder>, counter: u64, now: u64)
    requires counter + |orders| <= U64_MAX
    ensures var outcome := TargetOrdersOutcome(instrumentId, orders, counter, now);
            && |NewOrders(outcome.actions)| == |orders|
            && Numbered(NewOrders(outcome.actions), counter)
            && outcome.counter == counter + |orders|
  {
    if orders != [] {
      TargetOrdersAreNumbered(instrumentId, orders[..|orders| - 1], counter, now);
      var outcome := TargetOrdersOutcome(instrumentId, orders, counter, now);
      assert outcome.actions[..|outcome.actions| - 1]
          == TargetOrdersOutcome(instrumentId, orders[..|orders| - 1], counter, now).actions;
    }
  }

  lemma {:induction false} TargetOrdersCount(instrumentId: InstrumentId, orders: seq<TargetOrder>, counter: u64, now: u64)
    ensures |NewOrders(TargetOrdersOutcome(instrumentId, orders, counter, now).actions)| == |orders|
  {
    if orders != [] {
      TargetOrdersCount(instrumentId, orders[..|orders| - 1], counter, now);
      var outcome := TargetOrdersOutcome(instrumentId, orders, counter, now);
      assert outcome.actions[..|outcome.actions| - 1]
          == TargetOrdersOutcome(instrumentId, orders[..|orders| - 1], counter, now).actions;
    }
  }

  lemma IntentIsNumbered(intent: Intent, state: State, counter: u64, now: u64)
    requires counter + |NewOrders(IntentOutcome(intent, state, counter, now).actions)| <= U64_MAX
    ensures var outcome := IntentOutcome(intent, state, counter, now);
            && Numbered(NewOrders(outcome.actions), counter)
            && outcome.counter == counter + |NewOrders(outcome.actions)|
  {
    match intent {
      case TargetPosition(_, _, _, _) =>
      case TargetOrders(instrumentId, orders) =>
        TargetOrdersCount(instrumentId, orders, counter, now);
        TargetOrdersAreNumbered(instrumentId, orders, counter, now);
      case CancelIntent(_, _) =>
    }
  }

  /** One execution hands out consecutive fresh ids, whatever mix of intents it is given. */
  lemma {:induction false} BatchIsNumbered(intents: seq<Intent>, state: State, counter: u64, now: u64)
    requires counter + |NewOrders(BatchOutcome(intents, state, counter, now).actions)| <= U64_MAX
    ensures var outcome := BatchOutcome(intents, state, counter, now);
            && Numbered(NewOrders(outcome.actions), counter)
            && outcome.counter == counter + |NewOrders(outcome.actions)|
  {
    if intents != [] {
      var before := BatchOutcome(intents[..|intents| - 1], state, counter, now);
      var last := IntentOutcome(intents[|intents| - 1], state, before.counter, now);
      NewOrdersOfConcat(before.actions, last.actions);
      BatchIsNumbered(intents[..|intents| - 1], state, counter, now);
      IntentIsNumbered(intents[|intents| - 1], state, before.counter, now);
    }
  }

  // ---------------------------------------------------------------------------
  // Which action answers which intent

  /** What the strategy asked for, in full, and nothing else: one order for the missing quantity
      or none, one order for each on the list, one cancel request. */
  ghost predicate AnswersIntent(actions: seq<Action>, intent: Intent, state: State, firstId: u64, now: u64) {
    match intent
    case TargetPosition(instrumentId, target, priceType, limitPrice) =>
      var missing := target - Effective(state, instrumentId);
      if missing == 0 then actions == []
      else
        && |actions| == 1
        && actions[0] == SendNew(NewOrder(instrumentId, firstId, 0, if missing > 0 then Buy else Sell, priceType, limitPrice,
                                          if missing > 0 then Min(missing, I64_MAX) else Min(-missing, -I64_MIN), now))
    case TargetOrders(instrumentId, orders) =>
      && |actions| == |orders|
      && forall j :: 0 <= j < |orders| ==>
           actions[j] == SendNew(NewOrder(instrumentId, CountAfter(firstId, j), 0, orders[j].side, orders[j].priceType,
                                          orders[j].limitPrice, orders[j].quantity, now))
    case CancelIntent(instrumentId, orderId) => actions == [SendCancel(CancelOrder(instrumentId, orderId, now))]
  }

  lemma {:induction false} TargetOrdersAnswered(instrumentId: InstrumentId, orders: seq<TargetOrder>, counter: u64, now: u64)
    ensures var outcome := TargetOrdersOutcome(instrumentId, orders, counter, now);
            && outcome.counter == CountAfter(counter, |orders|)
            && |outcome.actions| == |orders|
            && forall j :: 0 <= j < |orders| ==>
                 outcome.actions[j] == SendNew(NewOrder(instrumentId, CountAfter(counter, j), 0, orders[j].side,
                                                        orders[j].priceType, orders[j].limitPrice, orders[j].quantity, now))
  {
    if orders != [] {
      TargetOrdersAnswered(instrumentId, orders[..|orders| - 1], counter, now);
      BumpIsCountAfter(counter, |orders| - 1);
    }
  }

  lemma IntentIsAnswered(intent: Intent, state: State, counter: u64, now: u64)
    ensures var outcome := IntentOutcome(intent, state, counter, now);
            && AnswersIntent(outcome.actions, intent, state, counter, now)
            && outcome.counter == CountAfter(counter, |NewOrders(outcome.actions)|)
  {
    match intent {
      case TargetPosition(_, _, _, _) => BumpIsCountAfter(counter, 0);
      case TargetOrders(instrumentId, orders) =>
        TargetOrdersAnswered(instrumentId, orders, counter, now);
        TargetOrdersCount(instrumentId, orders, counter, now);
      case CancelIntent(_, _) =>
    }
  }

  lemma {:induction false} BatchCounts(intents: seq<Intent>, state: State, counter: u64, now: u64)
    ensures var outcome := BatchOutcome(intents, state, counter, now);
            outcome.counter == CountAfter(counter, |NewOrders(outcome.actions)|)
  {
    if intents != [] {
      var before := BatchOutcome(intents[..|intents| - 1], state, counter, now);
      var last := IntentOutcome(intents[|intents| - 1], state, before.counter, now);
      BatchCounts(intents[..|intents| - 1], state, counter, now);
      IntentIsAnswered(intents[|intents| - 1], state, before.counter, now);
      NewOrdersOfConcat(before.actions, last.actions);
      CountAfterAdds(counter, |NewOrders(before.actions)|, |NewOrders(last.actions)|);
    }
  }

  lemma {:induction false} BatchBegins(intents: seq<Intent>, state: State, counter: u64, now: u64, k: nat)
    requires k <= |intents|
    ensures BatchOutcome(intents[..k], state, counter, now).actions <= BatchOutcome(intents, state, counter, now).actions
  {
    if k < |intents| {
      BatchBegins(intents[..|intents| - 1], state, counter, now, k);
      assert intents[..|intents| - 1][..k] == intents[..k];
    } else {
      assert intents[..k] == intents;
    }
  }

  /** The actions of the first k intents of a batch come first; what comes next, up to the actions
      of the first k + 1, answers intent k under ids that go on from those handed out before. */
  lemma BatchAnswersEach(intents: seq<Intent>, state: State, counter: u64, now: u64, k: nat)
    requires k < |intents|
    ensures var actions := BatchOutcome(intents, state, counter, now).actions;
            var start := |BatchOutcome(intents[..k], state, counter, now).actions|;
            var end := |BatchOutcome(intents[..k + 1], state, counter, now).actions|;
            && start <= end <= |actions|
            && (k == |intents| - 1 ==> end == |actions|)
            && AnswersIntent(actions[start..end], intents[k], state, CountAfter(counter, |NewOrders(actions[..start])|), now)
  {
    var actions := BatchOutcome(intents, state, counter, now).actions;
    var before := BatchOutcome(intents[..k], state, counter, now);
    var own := IntentOutcome(intents[k], state, before.counter, now);
    assert intents[..k + 1][..k] == intents[..k];
    assert BatchOutcome(intents[..k + 1], state, counter, now).actions == before.actions + own.actions;
    BatchBegins(intents, state, counter, now, k + 1);
    assert actions[..|before.actions|] == before.actions;
    assert actions[|before.actions|..|before.actions| + |own.actions|] == own.actions;
    BatchCounts(intents[..k], state, counter, now);
    IntentIsAnswered(intents[k], state, before.counter, now);
    assert k == |intents| - 1 ==> intents[..k + 1] == intents;
  }

  function Cancels(actions: seq<Action>): seq<CancelOrder> {
    if actions == [] then []
    else
      Cancels(actions[..|actions| - 1])
      + match actions[|actions| - 1] case SendNew(_) => [] case SendCancel(cancel) => [cancel]
  }

  lemma {:induction false} CancelsOfConcat(a: seq<Action>, b: seq<Action>)
    ensures Cancels(a + b) == Cancels(a) + Cancels(b)
  {
    if b == [] {
      assert a + b == a;
    } else {
      CancelsOfConcat(a, b[..|b| - 1]);
      assert (a + b)[..|a + b| - 1] == a + b[..|b| - 1];
    }
  }

  lemma {:induction false} OrdersCancelNothing(actions: seq<Action>)
    requires forall k :: 0 <= k < |actions| ==> actions[k].SendNew?
    ensures Cancels(actions) == []
  {
    if actions != [] {
      OrdersCancelNothing(actions[..|actions| - 1]);
    }
  }

  function CancelIntents(intents: seq<Intent>): seq<Intent> {
    if intents == [] then []
    else
      CancelIntents(intents[..|intents| - 1])
      + if intents[|intents| - 1].CancelIntent? then [intents[|intents| - 1]] else []
  }

  /** The cancels a batch sends are those it was asked for, all of them, in order. */
  lemma {:induction false} CancelsAreThoseAsked(intents: seq<Intent>, state: State, counter: u64, now: u64)
    ensures var asked, sent := CancelIntents(intents), Cancels(BatchOutcome(intents, state, counter, now).actions);
            && |sent| == |asked|
            && forall k :: 0 <= k < |asked| ==>
                 asked[k].CancelIntent? && sent[k] == CancelOrder(asked[k].instrumentId, asked[k].orderId, now)
  {
    if intents != [] {
      var init, last := intents[..|intents| - 1], intents[|intents| - 1];
      var before := BatchOutcome(init, state, counter, now);
      var own := IntentOutcome(last, state, before.counter, now);
      CancelsAreThoseAsked(init, state, counter, now);
      CancelsOfConcat(before.actions, own.actions);
      IntentIsAnswered(last, state, before.counter, now);
      if last.CancelIntent? {
        assert own.actions[..0] == [];
        assert Cancels(own.actions) == [own.actions[0].cancel];
      } else {
        OrdersCancelNothing(own.actions);
      }
    }
  }

  /** The quantity a list of new orders asks for on one instrument and side. */
  function AskedFor(orders: seq<NewOrder>, instrumentId: InstrumentId, side: Side): nat {
    if orders == [] then 0
    else
      var last := orders[|orders| - 1];
      AskedFor(orders[..|orders| - 1], instrumentId, side)
      + if last.instrumentId == instrumentId && last.side == side then last.quantity else 0
  }

  lemma {:induction false} AskedForConcat(a: seq<NewOrder>, b: seq<NewOrder>, instrumentId: InstrumentId, side: Side)
    ensures AskedFor(a + b, instrumentId, side) == AskedFor(a, instrumentId, side) + AskedFor(b, instrumentId, side)
  {
    if b == [] {
      assert a + b == a;
    } else {
      AskedForConcat(a, b[..|b| - 1], instrumentId, side);
      assert (a + b)[..|a + b| - 1] == a + b[..|b| - 1];
    }
  }

  lemma {:induction false} NothingAskedElsewhere(orders: seq<NewOrder>, instrumentId: InstrumentId, side: Side)
    requires forall k :: 0 <= k < |orders| ==> orders[k].instrumentId != instrumentId
    ensures AskedFor(orders, instrumentId, side) == 0
  {
    if orders != [] {
      NothingAskedElsewhere(orders[..|orders| - 1], instrumentId, side);
    }
  }

  ghost predicate FreshIds(state: State, first: int, count: nat) {
    forall id :: id in state.orders.orders ==> id < first || first + count <= id
  }

  /** Recording one action adds what it asks for, under an id not in use. */
  lemma RecordingOne(state: State, action: Action, now: u64, instrumentId: InstrumentId, side: Side)
    requires action.SendNew? ==> action.order.orderId !in state.orders.orders
    ensures PendingOn(AfterAction(state, action, now), instrumentId, side)
         == PendingOn(state, instrumentId, side)
            + match action
              case SendNew(order) => if order.instrumentId == instrumentId && order.side == side then order.quantity else 0
              case SendCancel(_) => 0
  {
    match action {
      case SendNew(order) =>
        PendingSumUpdate(state.orders.orders, order.orderId, PendingOrder(order, now), instrumentId, side);
      case SendCancel(cancel) =>
        CancelRequestMovesNothing(state, cancel, now, instrumentId);
    }
  }

  lemma {:induction false} RecordingUsesIds(state: State, actions: seq<Action>, first: int, now: u64)
    requires Numbered(NewOrders(actions), first)
    ensures var after := AfterActions(state, actions, now);
            && after.ledger == state.ledger
            && forall id :: id in after.orders.orders ==>
                 id in state.orders.orders || first <= id < first + |NewOrders(actions)|
  {
    if actions != [] {
      var init, last := actions[..|actions| - 1], actions[|actions| - 1];
      assert NewOrders(actions)[..|NewOrders(init)|] == NewOrders(init);
      RecordingUsesIds(state, init, first, now);
      if last.SendNew? {
        assert NewOrders(actions)[|NewOrders(init)|] == last.order;
      }
    }
  }

  /** Recording the actions adds exactly what they ask for to what is pending; cancel
      requests add nothing and positions stay. */
  lemma {:induction false} RecordingAddsWhatIsAsked(state: State, actions: seq<Action>, first: int, now: u64,
                                                    instrumentId: InstrumentId, side: Side)
    requires Numbered(NewOrders(actions), first)
    requires FreshIds(state, first, |NewOrders(actions)|)
    ensures var after := AfterActions(state, actions, now);
            && PendingOn(after, instrumentId, side)
               == PendingOn(state, instrumentId, side) + AskedFor(NewOrders(actions), instrumentId, side)
            && after.ledger == state.ledger
  {
    RecordingUsesIds(state, actions, first, now);
    if actions != [] {
      var init, last := actions[..|actions| - 1], actions[|actions| - 1];
      assert NewOrders(actions)[..|NewOrders(init)|] == NewOrders(init);
      RecordingAddsWhatIsAsked(state, init, first, now, instrumentId, side);
      RecordingUsesIds(state, init, first, now);
      if last.SendNew? {
        assert NewOrders(actions) == NewOrders(init) + [last.order];
        assert NewOrders(actions)[..|NewOrders(actions)| - 1] == NewOrders(init);
        assert NewOrders(actions)[|NewOrders(init)|].orderId == first + |NewOrders(init)|;
      } else {
        assert NewOrders(actions) == NewOrders(init);
      }
      RecordingOne(AfterActions(state, init, now), last, now, instrumentId, side);
    }
  }

  // ---------------------------------------------------------------------------
  // Convergence

  predicate Mentions(intent: Intent, instrumentId: InstrumentId) {
    !intent.CancelIntent? && intent.instrumentId == instrumentId
  }

  /** Intent k is the only one that orders anything on its instrument. */
  ghost predicate SoleTarget(intents: seq<Intent>, k: nat) {
    && k < |intents|
    && intents[k].TargetPosition?
    && forall j :: 0 <= j < |intents| && j != k ==> !Mentions(intents[j], intents[k].instrumentId)
  }

  lemma {:induction false} TargetOrdersStayOnInstrument(instrumentId: InstrumentId, orders: seq<TargetOrder>, counter: u64, now: u64)
    ensures forall order :: order in NewOrders(TargetOrdersOutcome(instrumentId, orders, counter, now).actions)
                        ==> order.instrumentId == instrumentId
  {
    if orders != [] {
      TargetOrdersStayOnInstrument(instrumentId, orders[..|orders| - 1], counter, now);
      var outcome := TargetOrdersOutcome(instrumentId, orders, counter, now);
      assert outcome.actions[..|outcome.actions| - 1]
          == TargetOrdersOutcome(instrumentId, orders[..|orders| - 1], counter, now).actions;
    }
  }

  lemma UnmentionedAsksNothing(intent: Intent, state: State, counter: u64, now: u64, instrumentId: InstrumentId, side: Side)
    requires !Mentions(intent, instrumentId)
    ensures AskedFor(NewOrders(IntentOutcome(intent, state, counter, now).actions), instrumentId, side) == 0
  {
    if intent.TargetOrders? {
      TargetOrdersStayOnInstrument(intent.instrumentId, intent.orders, counter, now);
      NothingAskedElsewhere(NewOrders(IntentOutcome(intent, state, counter, now).actions), instrumentId, side);
    }
  }

  /** What a missing quantity of delta asks for on one side. */
  function AskOn(delta: int, side: Side): nat {
    if delta != 0 && side == SideOf(delta) then Abs(delta) else 0
  }

  lemma TargetAsksForMissing(intent: Intent, state: State, counter: u64, now: u64, side: Side)
    requires intent.TargetPosition?
    ensures AskedFor(NewOrders(IntentOutcome(intent, state, counter, now).actions), intent.instrumentId, side)
         == AskOn(Missing(state, intent.instrumentId, intent.targetQuantity), side)
  {
    var delta := Missing(state, intent.instrumentId, intent.targetQuantity);
    if delta != 0 {
      var order := NewOrder(intent.instrumentId, counter, 0, SideOf(delta), intent.priceType,
                            intent.limitPrice, Abs(delta), now);
      assert IntentOutcome(intent, state, counter, now).actions == [SendNew(order)];
      OneOrderAsks(order, side);
    }
  }

  lemma OneOrderAsks(order: NewOrder, side: Side)
    ensures NewOrders([SendNew(order)]) == [order]
    ensures AskedFor([order], order.instrumentId, side) == if side == order.side then order.quantity else 0
  {
    assert [SendNew(order)][..0] == [];
    assert [order][..0] == [];
  }

  lemma ActionsAskTogether(a: seq<Action>, b: seq<Action>, instrumentId: InstrumentId, side: Side)
    ensures AskedFor(NewOrders(a + b), instrumentId, side)
         == AskedFor(NewOrders(a), instrumentId, side) + AskedFor(NewOrders(b), instrumentId, side)
  {
    NewOrdersOfConcat(a, b);
    AskedForConcat(NewOrders(a), NewOrders(b), instrumentId, side);
  }

  lemma IntentAsks(intent: Intent, isTarget: bool, instrumentId: InstrumentId, state: State, counter: u64, now: u64, side: Side)
    requires if isTarget then intent.TargetPosition? && intent.instrumentId == instrumentId
             else !Mentions(intent, instrumentId)
    ensures AskedFor(NewOrders(IntentOutcome(intent, state, counter, now).actions), instrumentId, side)
         == if isTarget then AskOn(Missing(state, instrumentId, intent.targetQuantity), side) else 0
  {
    if isTarget {
      TargetAsksForMissing(intent, state, counter, now, side);
    } else {
      UnmentionedAsksNothing(intent, state, counter, now, instrumentId, side);
    }
  }

  lemma {:induction false} BatchAsksForMissing(intents: seq<Intent>, k: nat, instrumentId: InstrumentId, state: State,
                                               counter: u64, now: u64, side: Side)
    requires forall j :: 0 <= j < |intents| && j != k ==> !Mentions(intents[j], instrumentId)
    requires k < |intents| ==> intents[k].TargetPosition? && intents[k].instrumentId == instrumentId
    ensures AskedFor(NewOrders(BatchOutcome(intents, state, counter, now).actions), instrumentId, side)
         == if k < |intents| then AskOn(Missing(state, instrumentId, intents[k].targetQuantity), side) else 0
  {
    if intents != [] {
      var init, last := intents[..|intents| - 1], intents[|intents| - 1];
      var before := BatchOutcome(init, state, counter, now);
      BatchAsksForMissing(init, k, instrumentId, state, counter, now, side);
      IntentAsks(last, k == |intents| - 1, instrumentId, state, before.counter, now, side);
      ActionsAskTogether(before.actions, IntentOutcome(last, state, before.counter, now).actions, instrumentId, side);
    }
  }

  /** Neither saturating operation on the way to the target saturates: not the subtraction
      that finds the missing quantity, not the addition to the side it is pending on. */
  predicate Attainable(quantity: i64, pendingBuy: nat, pendingSell: nat, target: i64) {
    Orderable(target - Combine(quantity, pendingBuy, pendingSell), pendingBuy, pendingSell)
  }

  predicate Orderable(missing: int, pendingBuy: nat, pendingSell: nat) {
    missing == 0
    || (I64_MIN <= missing <= I64_MAX
        && (if missing > 0 then pendingBuy else pendingSell) + Abs(missing) <= U64_MAX)
  }

  ghost predicate Reachable(state: State, instrumentId: InstrumentId, target: i64) {
    Attainable(QuantityOf(state.ledger.positions, instrumentId),
               PendingOn(state, instrumentId, Buy), PendingOn(state, instrumentId, Sell), target)
  }

  /** By how much the capped sums move when so much is ordered on each side. */
  function CappedGain(pendingBuy: nat, pendingSell: nat, buys: nat, sells: nat): int {
    Min(pendingBuy + buys, U64_MAX) - Min(pendingBuy, U64_MAX)
    - (Min(pendingSell + sells, U64_MAX) - Min(pendingSell, U64_MAX))
  }

  function Gained(pendingBuy: nat, pendingSell: nat, delta: int): int {
    CappedGain(pendingBuy, pendingSell, AskOn(delta, Buy), AskOn(delta, Sell))
  }

  lemma GainsMissingIff(pendingBuy: nat, pendingSell: nat, missing: int)
    ensures Gained(pendingBuy, pendingSell, ClampI64(missing)) == missing <==> Orderable(missing, pendingBuy, pendingSell)
    ensures missing >= 0 ==> 0 <= Gained(pendingBuy, pendingSell, ClampI64(missing)) <= missing
    ensures missing <= 0 ==> missing <= Gained(pendingBuy, pendingSell, ClampI64(missing)) <= 0
  {
  }

  lemma WrapsOntoIff(from: i64, gained: int, target: i64)
    requires -TWO_64 < from + gained - target < TWO_64
    ensures WrapI64(from + gained) == target <==> from + gained == target
  {
    assert WrapI64(target) == target;
    if WrapI64(from + gained) == target {
      WrapIsInjective(from + gained, target);
    }
  }

  lemma OrderingGains(q: i64, pendingBuy: nat, pendingSell: nat, buys: nat, sells: nat)
    ensures Combine(q, pendingBuy + buys, pendingSell + sells)
         == WrapI64(Combine(q, pendingBuy, pendingSell) + CappedGain(pendingBuy, pendingSell, buys, sells))
  {
    WrapAbsorbs(q + Min(pendingBuy, U64_MAX) - Min(pendingSell, U64_MAX),
                CappedGain(pendingBuy, pendingSell, buys, sells));
  }

  /** Ordering the clamped difference lands on the target iff nothing was lost on the way. */
  lemma StepLandsIff(q: i64, pendingBuy: nat, pendingSell: nat, target: i64)
    ensures (var delta := ClampI64(target - Combine(q, pendingBuy, pendingSell));
             Combine(q, pendingBuy + AskOn(delta, Buy), pendingSell + AskOn(delta, Sell)) == target)
       <==> Attainable(q, pendingBuy, pendingSell, target)
  {
    var effective: int := Combine(q, pendingBuy, pendingSell);
    var delta := ClampI64(target - effective);
    GainsMissingIff(pendingBuy, pendingSell, target - effective);
    OrderingGains(q, pendingBuy, pendingSell, AskOn(delta, Buy), AskOn(delta, Sell));
    WrapsOntoIff(effective, Gained(pendingBuy, pendingSell, delta), target);
  }

  lemma SoleTargetAsks(intents: seq<Intent>, k: nat, state: State, counter: u64, now: u64, side: Side)
    requires SoleTarget(intents, k)
    ensures AskedFor(NewOrders(BatchOutcome(intents, state, counter, now).actions), intents[k].instrumentId, side)
         == AskOn(Missing(state, intents[k].instrumentId, intents[k].targetQuantity), side)
  {
    BatchAsksForMissing(intents, k, intents[k].instrumentId, state, counter, now, side);
  }

  lemma LandsIffReachable(state: State, after: State, instrumentId: InstrumentId, target: i64)
    requires after.ledger == state.ledger
    requires forall side :: PendingOn(after, instrumentId, side)
                         == PendingOn(state, instrumentId, side) + AskOn(Missing(state, instrumentId, target), side)
    ensures Effective(after, instrumentId) == target <==> Reachable(state, instrumentId, target)
  {
    StepLandsIff(QuantityOf(state.ledger.positions, instrumentId),
                 PendingOn(state, instrumentId, Buy), PendingOn(state, instrumentId, Sell), target);
  }

  /** Convergence, exactly: a batch in which one intent alone speaks for an instrument
      brings that instrument's effective position to its target if and only if no
      saturation is met; cancel intents and intents on other instruments never matter. */
  lemma ConvergesIffReachable(intents: seq<Intent>, k: nat, state: State, counter: u64, now: u64, actions: seq<Action>)
    requires SoleTarget(intents, k)
    requires actions == BatchOutcome(intents, state, counter, now).actions
    requires counter + |NewOrders(actions)| <= U64_MAX && FreshIds(state, counter, |NewOrders(actions)|)
    ensures Effective(AfterActions(state, actions, now), intents[k].instrumentId) == intents[k].targetQuantity
       <==> Reachable(state, intents[k].instrumentId, intents[k].targetQuantity)
  {
    var instrumentId, target := intents[k].instrumentId, intents[k].targetQuantity;
    var after := AfterActions(state, actions, now);
    BatchIsNumbered(intents, state, counter, now);
    RecordingAddsWhatIsAsked(state, actions, counter, now, instrumentId, Buy);
    forall side
      ensures PendingOn(after, instrumentId, side)
           == PendingOn(state, instrumentId, side) + AskOn(Missing(state, instrumentId, target), side)
    {
      RecordingAddsWhatIsAsked(state, actions, counter, now, instrumentId, side);
      SoleTargetAsks(intents, k, state, counter, now, side);
    }
    LandsIffReachable(state, after, instrumentId, target);
  }

  ghost predicate DistinctTargets(intents: seq<Intent>) {
    && (forall k :: 0 <= k < |intents| ==> intents[k].TargetPosition?)
    && (forall j, k :: 0 <= j < |intents| && 0 <= k < |intents| && j != k ==>
          intents[j].instrumentId != intents[k].instrumentId)
  }

  ghost predicate AllMet(intents: seq<Intent>, state: State) {
    forall k :: 0 <= k < |intents| && intents[k].TargetPosition? ==>
      Effective(state, intents[k].instrumentId) == intents[k].targetQuantity
  }

  ghost predicate AllReachable(intents: seq<Intent>, state: State) {
    forall k :: 0 <= k < |intents| && intents[k].TargetPosition? ==>
      Reachable(state, intents[k].instrumentId, intents[k].targetQuantity)
  }

  /** A batch of target positions is silent exactly when every target is met already. */
  lemma {:induction false} SilentIffAllMet(intents: seq<Intent>, state: State, counter: u64, now: u64)
    requires forall k :: 0 <= k < |intents| ==> intents[k].TargetPosition?
    ensures BatchOutcome(intents, state, counter, now).actions == [] <==> AllMet(intents, state)
  {
    if intents != [] {
      var init, last := intents[..|intents| - 1], intents[|intents| - 1];
      SilentIffAllMet(init, state, counter, now);
      var before := BatchOutcome(init, state, counter, now);
      var outcome := IntentOutcome(last, state, before.counter, now);
      assert outcome.actions == [] <==> Effective(state, last.instrumentId) == last.targetQuantity;
      assert forall k :: 0 <= k < |init| ==> init[k] == intents[k];
    }
  }

  ghost predicate AsksNothing(intent: Intent, state: State) {
    match intent
    case TargetPosition(instrumentId, target, _, _) => Effective(state, instrumentId) == target
    case TargetOrders(_, orders) => orders == []
    case CancelIntent(_, _) => true
  }

  lemma IntentOrdersNothingIff(intent: Intent, state: State, counter: u64, now: u64)
    ensures NewOrders(IntentOutcome(intent, state, counter, now).actions) == [] <==> AsksNothing(intent, state)
  {
    match intent {
      case TargetPosition(_, _, _, _) =>
      case TargetOrders(instrumentId, orders) => TargetOrdersCount(instrumentId, orders, counter, now);
      case CancelIntent(_, _) =>
    }
  }

  /** Any batch, cancels included, orders nothing new exactly when each of its intents has
      nothing to ask for. */
  lemma {:induction false} OrdersNothingIff(intents: seq<Intent>, state: State, counter: u64, now: u64)
    ensures NewOrders(BatchOutcome(intents, state, counter, now).actions) == []
       <==> forall k :: 0 <= k < |intents| ==> AsksNothing(intents[k], state)
  {
    if intents != [] {
      var init, last := intents[..|intents| - 1], intents[|intents| - 1];
      var before := BatchOutcome(init, state, counter, now);
      OrdersNothingIff(init, state, counter, now);
      IntentOrdersNothingIff(last, state, before.counter, now);
      NewOrdersOfConcat(before.actions, IntentOutcome(last, state, before.counter, now).actions);
      assert forall k :: 0 <= k < |init| ==> init[k] == intents[k];
    }
  }

  lemma AllConvergeIff(intents: seq<Intent>, state: State, counter: u64, now: u64, actions: seq<Action>)
    requires DistinctTargets(intents)
    requires actions == BatchOutcome(intents, state, counter, now).actions
    requires counter + |NewOrders(actions)| <= U64_MAX && FreshIds(state, counter, |NewOrders(actions)|)
    ensures AllMet(intents, AfterActions(state, actions, now)) <==> AllReachable(intents, state)
  {
    forall k | 0 <= k < |intents|
      ensures Effective(AfterActions(state, actions, now), intents[k].instrumentId) == intents[k].targetQuantity
         <==> Reachable(state, intents[k].instrumentId, intents[k].targetQuantity)
    {
      assert SoleTarget(intents, k);
      ConvergesIffReachable(intents, k, state, counter, now, actions);
    }
  }

  /** Executing a batch of target positions on pairwise distinct instruments, recording its
      actions and executing the same batch again orders nothing more, if and only if every
      target was reachable without saturation. */
  lemma SecondExecutionIsSilentIff(intents: seq<Intent>, state: State, counter: u64, now: u64, actions: seq<Action>,
                                   after: State, laterCounter: u64, later: u64)
    requires DistinctTargets(intents)
    requires actions == BatchOutcome(intents, state, counter, now).actions
    requires counter + |NewOrders(actions)| <= U64_MAX && FreshIds(state, counter, |NewOrders(actions)|)
    requires after == AfterActions(state, actions, now)
    ensures BatchOutcome(intents, after, laterCounter, later).actions == [] <==> AllReachable(intents, state)
  {
    AllConvergeIff(intents, state, counter, now, actions);
    SilentIffAllMet(intents, after, laterCounter, later);
  }

  // ---------------------------------------------------------------------------
  // Batches that speak for one instrument more than once

  /** What a list of target orders asks for on one side. */
  function OrdersAsk(orders: seq<TargetOrder>, side: Side): nat {
    if orders == [] then 0
    else
      var last := orders[|orders| - 1];
      OrdersAsk(orders[..|orders| - 1], side) + if last.side == side then last.quantity else 0
  }

  /** What one intent asks for on an instrument and side: the quantity missing now, or the
      orders it lists. */
  ghost function IntentAsk(intent: Intent, state: State, instrumentId: InstrumentId, side: Side): nat {
    if intent.instrumentId != instrumentId then 0
    else match intent
      case TargetPosition(_, target, _, _) => AskOn(Missing(state, instrumentId, target), side)
      case TargetOrders(_, orders) => OrdersAsk(orders, side)
      case CancelIntent(_, _) => 0
  }

  ghost function AsksOf(intents: seq<Intent>, state: State, instrumentId: InstrumentId, side: Side): nat {
    if intents == [] then 0
    else AsksOf(intents[..|intents| - 1], state, instrumentId, side)
         + IntentAsk(intents[|intents| - 1], state, instrumentId, side)
  }

  lemma {:induction false} TargetOrdersAsk(instrumentId: InstrumentId, orders: seq<TargetOrder>, counter: u64, now: u64, side: Side)
    ensures AskedFor(NewOrders(TargetOrdersOutcome(instrumentId, orders, counter, now).actions), instrumentId, side)
         == OrdersAsk(orders, side)
  {
    if orders != [] {
      var init, last := orders[..|orders| - 1], orders[|orders| - 1];
      var before := TargetOrdersOutcome(instrumentId, init, counter, now);
      var order := NewOrder(instrumentId, before.counter, 0, last.side, last.priceType, last.limitPrice, last.quantity, now);
      TargetOrdersAsk(instrumentId, init, counter, now, side);
      ActionsAskTogether(before.actions, [SendNew(order)], instrumentId, side);
      OneOrderAsks(order, side);
    }
  }

  lemma OneIntentAsks(intent: Intent, instrumentId: InstrumentId, state: State, counter: u64, now: u64, side: Side)
    ensures AskedFor(NewOrders(IntentOutcome(intent, state, counter, now).actions), instrumentId, side)
         == IntentAsk(intent, state, instrumentId, side)
  {
    if !Mentions(intent, instrumentId) {
      UnmentionedAsksNothing(intent, state, counter, now, instrumentId, side);
    } else if intent.TargetPosition? {
      TargetAsksForMissing(intent, state, counter, now, side);
    } else {
      TargetOrdersAsk(instrumentId, intent.orders, counter, now, side);
    }
  }

  /** Any batch asks, on any instrument and side, for the sum of what its intents ask for, each
      judged against the same state. */
  lemma {:induction false} BatchAsksSum(intents: seq<Intent>, state: State, counter: u64, now: u64,
                                        instrumentId: InstrumentId, side: Side)
    ensures AskedFor(NewOrders(BatchOutcome(intents, state, counter, now).actions), instrumentId, side)
         == AsksOf(intents, state, instrumentId, side)
  {
    if intents != [] {
      var init, last := intents[..|intents| - 1], intents[|intents| - 1];
      var before := BatchOutcome(init, state, counter, now);
      BatchAsksSum(init, state, counter, now, instrumentId, side);
      OneIntentAsks(last, instrumentId, state, before.counter, now, side);
      ActionsAskTogether(before.actions, IntentOutcome(last, state, before.counter, now).actions, instrumentId, side);
    }
  }

  predicate Targets(intent: Intent, instrumentId: InstrumentId) {
    intent.TargetPosition? && intent.instrumentId == instrumentId
  }

  /** The instrument is spoken for by target positions only. */
  ghost predicate TargetsOnly(intents: seq<Intent>, instrumentId: InstrumentId) {
    forall k :: 0 <= k < |intents| && Mentions(intents[k], instrumentId) ==> intents[k].TargetPosition?
  }

  function TargetCount(intents: seq<Intent>, instrumentId: InstrumentId): nat {
    if intents == [] then 0
    else TargetCount(intents[..|intents| - 1], instrumentId)
         + if Targets(intents[|intents| - 1], instrumentId) then 1 else 0
  }

  ghost predicate MetOn(intents: seq<Intent>, instrumentId: InstrumentId, effective: int) {
    forall k :: 0 <= k < |intents| && Targets(intents[k], instrumentId) ==> intents[k].targetQuantity == effective
  }

  /** No difference to a target saturates, and no sum of what is pending does. */
  ghost predicate Unsaturated(intents: seq<Intent>, state: State, instrumentId: InstrumentId) {
    && (forall k :: 0 <= k < |intents| && Targets(intents[k], instrumentId) ==>
          I64_MIN <= intents[k].targetQuantity - Effective(state, instrumentId) <= I64_MAX)
    && PendingOn(state, instrumentId, Buy) + AsksOf(intents, state, instrumentId, Buy) <= U64_MAX
    && PendingOn(state, instrumentId, Sell) + AsksOf(intents, state, instrumentId, Sell) <= U64_MAX
  }

  function Times(count: nat, ask: nat): nat {
    count * ask
  }

  lemma OneTimeMore(count: nat, ask: nat)
    ensures Times(count + 1, ask) == Times(count, ask) + ask
  {
  }

  lemma TimesGrow(count: nat, ask: nat)
    requires count >= 2
    ensures Times(count, ask) >= 2 * ask
  {
    assert (count - 2) * ask >= 0;
  }

  /** If all targets on the instrument agree, each asks for the same. */
  lemma {:induction false} AgreeingTargetsAsk(intents: seq<Intent>, state: State, instrumentId: InstrumentId, target: i64, side: Side)
    requires TargetsOnly(intents, instrumentId) && MetOn(intents, instrumentId, target)
    ensures AsksOf(intents, state, instrumentId, side)
         == Times(TargetCount(intents, instrumentId), AskOn(Missing(state, instrumentId, target), side))
  {
    if intents != [] {
      var init, last := intents[..|intents| - 1], intents[|intents| - 1];
      assert forall k :: 0 <= k < |init| ==> init[k] == intents[k];
      AgreeingTargetsAsk(init, state, instrumentId, target, side);
      assert Mentions(last, instrumentId) ==> Targets(last, instrumentId);
      OneTimeMore(TargetCount(init, instrumentId), AskOn(Missing(state, instrumentId, target), side));
    }
  }

  lemma {:induction false} SomeTarget(intents: seq<Intent>, instrumentId: InstrumentId) returns (k: nat)
    requires TargetCount(intents, instrumentId) >= 1
    ensures k < |intents| && Targets(intents[k], instrumentId)
  {
    if Targets(intents[|intents| - 1], instrumentId) {
      k := |intents| - 1;
    } else {
      k := SomeTarget(intents[..|intents| - 1], instrumentId);
    }
  }

  lemma BatchAddsItsAsks(intents: seq<Intent>, state: State, counter: u64, now: u64, actions: seq<Action>, instrumentId: InstrumentId)
    requires actions == BatchOutcome(intents, state, counter, now).actions
    requires counter + |NewOrders(actions)| <= U64_MAX && FreshIds(state, counter, |NewOrders(actions)|)
    ensures AsksAdded(intents, state, AfterActions(state, actions, now), instrumentId)
  {
    BatchIsNumbered(intents, state, counter, now);
    RecordingAddsWhatIsAsked(state, actions, counter, now, instrumentId, Buy);
    forall side
      ensures PendingOn(AfterActions(state, actions, now), instrumentId, side)
           == PendingOn(state, instrumentId, side) + AsksOf(intents, state, instrumentId, side)
    {
      RecordingAddsWhatIsAsked(state, actions, counter, now, instrumentId, side);
      BatchAsksSum(intents, state, counter, now, instrumentId, side);
    }
  }

  ghost function BatchGain(intents: seq<Intent>, state: State, instrumentId: InstrumentId): int {
    CappedGain(PendingOn(state, instrumentId, Buy), PendingOn(state, instrumentId, Sell),
               AsksOf(intents, state, instrumentId, Buy), AsksOf(intents, state, instrumentId, Sell))
  }

  /** What a batch asks for has been added to what was pending. */
  ghost predicate AsksAdded(intents: seq<Intent>, state: State, after: State, instrumentId: InstrumentId) {
    && after.ledger == state.ledger
    && forall side :: PendingOn(after, instrumentId, side)
                   == PendingOn(state, instrumentId, side) + AsksOf(intents, state, instrumentId, side)
  }

  lemma AskingMovesEffective(intents: seq<Intent>, state: State, after: State, instrumentId: InstrumentId)
    requires AsksAdded(intents, state, after, instrumentId)
    ensures Effective(after, instrumentId) == WrapI64(Effective(state, instrumentId) + BatchGain(intents, state, instrumentId))
  {
    OrderingGains(QuantityOf(state.ledger.positions, instrumentId),
                  PendingOn(state, instrumentId, Buy), PendingOn(state, instrumentId, Sell),
                  AsksOf(intents, state, instrumentId, Buy), AsksOf(intents, state, instrumentId, Sell));
  }

  /** Any batch moves the effective position of any instrument by the capped gain of what it
      asks for there, wrapping. */
  lemma BatchMovesEffective(intents: seq<Intent>, state: State, counter: u64, now: u64, actions: seq<Action>, instrumentId: InstrumentId)
    requires actions == BatchOutcome(intents, state, counter, now).actions
    requires counter + |NewOrders(actions)| <= U64_MAX && FreshIds(state, counter, |NewOrders(actions)|)
    ensures Effective(AfterActions(state, actions, now), instrumentId)
         == WrapI64(Effective(state, instrumentId) + BatchGain(intents, state, instrumentId))
  {
    BatchAddsItsAsks(intents, state, counter, now, actions, instrumentId);
    AskingMovesEffective(intents, state, AfterActions(state, actions, now), instrumentId);
  }

  /** What asking so many times for the target gains. */
  ghost function RepeatedGain(state: State, instrumentId: InstrumentId, target: i64, count: nat): int {
    var delta := Missing(state, instrumentId, target);
    CappedGain(PendingOn(state, instrumentId, Buy), PendingOn(state, instrumentId, Sell),
               Times(count, AskOn(delta, Buy)), Times(count, AskOn(delta, Sell)))
  }

  /** Asked for so many times, the target is gained exactly. */
  ghost predicate GainsExactly(state: State, instrumentId: InstrumentId, target: i64, count: nat) {
    RepeatedGain(state, instrumentId, target, count) == target - Effective(state, instrumentId)
  }

  /** A repeated ask gains in the direction of the target, and no more than the sums can hold. */
  lemma RepeatedGainBounds(pendingBuy: nat, pendingSell: nat, missing: int, buys: nat, sells: nat)
    requires missing >= 0 ==> sells == 0
    requires missing <= 0 ==> buys == 0
    ensures missing >= 0 ==> 0 <= CappedGain(pendingBuy, pendingSell, buys, sells) <= U64_MAX
    ensures missing <= 0 ==> -U64_MAX <= CappedGain(pendingBuy, pendingSell, buys, sells) <= 0
  {
  }

  lemma RepeatedLandsIff(state: State, instrumentId: InstrumentId, target: i64, count: nat)
    ensures WrapI64(Effective(state, instrumentId) + RepeatedGain(state, instrumentId, target, count)) == target
       <==> GainsExactly(state, instrumentId, target, count)
  {
    var effective: int := Effective(state, instrumentId);
    var delta := Missing(state, instrumentId, target);
    var buys, sells := Times(count, AskOn(delta, Buy)), Times(count, AskOn(delta, Sell));
    assert AskOn(delta, Buy) == 0 ==> buys == 0;
    assert AskOn(delta, Sell) == 0 ==> sells == 0;
    RepeatedGainBounds(PendingOn(state, instrumentId, Buy), PendingOn(state, instrumentId, Sell), target - effective, buys, sells);
    WrapsOntoIff(effective, RepeatedGain(state, instrumentId, target, count), target);
  }

  lemma MetMeansAgreed(intents: seq<Intent>, k: nat, effective: int)
    requires k < |intents| && intents[k].TargetPosition?
    ensures MetOn(intents, intents[k].instrumentId, effective)
       <==> MetOn(intents, intents[k].instrumentId, intents[k].targetQuantity) && effective == intents[k].targetQuantity
  {
    assert Targets(intents[k], intents[k].instrumentId);
  }

  lemma AgreeingTargetsMove(intents: seq<Intent>, state: State, after: State, instrumentId: InstrumentId, target: i64)
    requires AsksAdded(intents, state, after, instrumentId)
    requires TargetsOnly(intents, instrumentId) && MetOn(intents, instrumentId, target)
    ensures Effective(after, instrumentId)
         == WrapI64(Effective(state, instrumentId)
                    + RepeatedGain(state, instrumentId, target, TargetCount(intents, instrumentId)))
  {
    AgreeingTargetsAsk(intents, state, instrumentId, target, Buy);
    AgreeingTargetsAsk(intents, state, instrumentId, target, Sell);
    AskingMovesEffective(intents, state, after, instrumentId);
  }

  lemma AgreedTargetIsMetIff(intents: seq<Intent>, state: State, after: State, instrumentId: InstrumentId, target: i64)
    requires AsksAdded(intents, state, after, instrumentId)
    requires TargetsOnly(intents, instrumentId) && MetOn(intents, instrumentId, target)
    ensures Effective(after, instrumentId) == target
       <==> GainsExactly(state, instrumentId, target, TargetCount(intents, instrumentId))
  {
    AgreeingTargetsMove(intents, state, after, instrumentId, target);
    RepeatedLandsIff(state, instrumentId, target, TargetCount(intents, instrumentId));
  }

  /** The targets on instrument of intent k agree, and asking for the missing quantity once for
      each of them gains exactly that quantity. */
  ghost predicate AgreedAndGained(intents: seq<Intent>, state: State, k: nat)
    requires k < |intents| && intents[k].TargetPosition?
  {
    && MetOn(intents, intents[k].instrumentId, intents[k].targetQuantity)
    && GainsExactly(state, intents[k].instrumentId, intents[k].targetQuantity,
                    TargetCount(intents, intents[k].instrumentId))
  }

  lemma AllTargetsMetIff(intents: seq<Intent>, state: State, after: State, k: nat)
    requires k < |intents| && intents[k].TargetPosition? && TargetsOnly(intents, intents[k].instrumentId)
    requires AsksAdded(intents, state, after, intents[k].instrumentId)
    ensures MetOn(intents, intents[k].instrumentId, Effective(after, intents[k].instrumentId))
       <==> AgreedAndGained(intents, state, k)
  {
    MetMeansAgreed(intents, k, Effective(after, intents[k].instrumentId));
    if MetOn(intents, intents[k].instrumentId, intents[k].targetQuantity) {
      AgreedTargetIsMetIff(intents, state, after, intents[k].instrumentId, intents[k].targetQuantity);
    }
  }

  /** All targets on one instrument, however many, are met afterwards if and only if they agree
      and asking for the missing quantity once for each gains exactly that quantity. */
  lemma RepeatedTargetsConvergeIff(intents: seq<Intent>, state: State, counter: u64, now: u64, actions: seq<Action>, k: nat)
    requires actions == BatchOutcome(intents, state, counter, now).actions
    requires counter + |NewOrders(actions)| <= U64_MAX && FreshIds(state, counter, |NewOrders(actions)|)
    requires k < |intents| && intents[k].TargetPosition? && TargetsOnly(intents, intents[k].instrumentId)
    ensures MetOn(intents, intents[k].instrumentId, Effective(AfterActions(state, actions, now), intents[k].instrumentId))
       <==> AgreedAndGained(intents, state, k)
  {
    BatchAddsItsAsks(intents, state, counter, now, actions, intents[k].instrumentId);
    AllTargetsMetIff(intents, state, AfterActions(state, actions, now), k);
  }

  /** Asked for once, gaining the target exactly is the target's being reachable. */
  lemma GainsOnceIffReachable(state: State, instrumentId: InstrumentId, target: i64)
    ensures GainsExactly(state, instrumentId, target, 1) <==> Reachable(state, instrumentId, target)
  {
    GainsMissingIff(PendingOn(state, instrumentId, Buy), PendingOn(state, instrumentId, Sell),
                    target - Effective(state, instrumentId));
  }

  lemma UnsaturatedRepeatsOvershoot(pendingBuy: nat, pendingSell: nat, missing: int, count: nat)
    requires count >= 2 && I64_MIN <= missing <= I64_MAX
    requires pendingBuy + Times(count, AskOn(missing, Buy)) <= U64_MAX
    requires pendingSell + Times(count, AskOn(missing, Sell)) <= U64_MAX
    ensures CappedGain(pendingBuy, pendingSell, Times(count, AskOn(missing, Buy)), Times(count, AskOn(missing, Sell))) == missing
       <==> missing == 0
  {
    TimesGrow(count, AskOn(missing, Buy));
    TimesGrow(count, AskOn(missing, Sell));
    assert Times(count, 0) == 0;
  }

  /** Away from saturation, two or more targets on one instrument are all met afterwards if and
      only if all were met before: repeating a target never helps. */
  lemma RepeatingNeverHelps(intents: seq<Intent>, state: State, counter: u64, now: u64, actions: seq<Action>,
                            instrumentId: InstrumentId)
    requires actions == BatchOutcome(intents, state, counter, now).actions
    requires counter + |NewOrders(actions)| <= U64_MAX && FreshIds(state, counter, |NewOrders(actions)|)
    requires TargetsOnly(intents, instrumentId) && TargetCount(intents, instrumentId) >= 2
    requires Unsaturated(intents, state, instrumentId)
    ensures MetOn(intents, instrumentId, Effective(AfterActions(state, actions, now), instrumentId))
       <==> MetOn(intents, instrumentId, Effective(state, instrumentId))
  {
    var k := SomeTarget(intents, instrumentId);
    var target, effective := intents[k].targetQuantity, Effective(state, instrumentId);
    RepeatedTargetsConvergeIff(intents, state, counter, now, actions, k);
    if MetOn(intents, instrumentId, target) {
      AgreeingTargetsAsk(intents, state, instrumentId, target, Buy);
      AgreeingTargetsAsk(intents, state, instrumentId, target, Sell);
      UnsaturatedRepeatsOvershoot(PendingOn(state, instrumentId, Buy), PendingOn(state, instrumentId, Sell),
                                  target - effective, TargetCount(intents, instrumentId));
    }
  }

  ghost predicate AllAttainable(intents: seq<Intent>, state: State) {
    forall k :: 0 <= k < |intents| && intents[k].TargetPosition? ==> AttainableAt(intents, state, k)
  }

  /** The targets on the instrument agree and together gain what is missing; where lists of
      orders share the instrument, what the batch asks for has to land on the target. */
  ghost predicate AttainableAt(intents: seq<Intent>, state: State, k: nat)
    requires k < |intents| && intents[k].TargetPosition?
  {
    if TargetsOnly(intents, intents[k].instrumentId) then AgreedAndGained(intents, state, k)
    else WrapI64(Effective(state, intents[k].instrumentId) + BatchGain(intents, state, intents[k].instrumentId))
         == intents[k].targetQuantity
  }

  lemma AttainsIff(intents: seq<Intent>, state: State, after: State, k: nat)
    requires k < |intents| && intents[k].TargetPosition?
    requires AsksAdded(intents, state, after, intents[k].instrumentId)
    ensures AllMet(intents, after) ==> AttainableAt(intents, state, k)
    ensures AttainableAt(intents, state, k) ==> Effective(after, intents[k].instrumentId) == intents[k].targetQuantity
  {
    var instrumentId := intents[k].instrumentId;
    assert Targets(intents[k], instrumentId);
    if TargetsOnly(intents, instrumentId) {
      AllTargetsMetIff(intents, state, after, k);
      if AllMet(intents, after) {
        assert MetOn(intents, instrumentId, Effective(after, instrumentId));
      }
    } else {
      AskingMovesEffective(intents, state, after, instrumentId);
    }
  }

  /** Any batch whatever: all its targets are met afterwards if and only if on each instrument
      they agree and are gained exactly. */
  lemma AnyBatchConvergesIff(intents: seq<Intent>, state: State, counter: u64, now: u64, actions: seq<Action>, after: State)
    requires actions == BatchOutcome(intents, state, counter, now).actions
    requires counter + |NewOrders(actions)| <= U64_MAX && FreshIds(state, counter, |NewOrders(actions)|)
    requires after == AfterActions(state, actions, now)
    ensures AllMet(intents, after) <==> AllAttainable(intents, state)
  {
    forall k | 0 <= k < |intents| && intents[k].TargetPosition?
      ensures AllMet(intents, after) ==> AttainableAt(intents, state, k)
      ensures AttainableAt(intents, state, k) ==> Effective(after, intents[k].instrumentId) == intents[k].targetQuantity
    {
      BatchAddsItsAsks(intents, state, counter, now, actions, intents[k].instrumentId);
      AttainsIff(intents, state, after, k);
    }
  }

  /** So executing any batch of target positions twice orders nothing the second time under
      just that condition. */
  lemma AnySecondExecutionIsSilentIff(intents: seq<Intent>, state: State, counter: u64, now: u64, actions: seq<Action>,
                                      after: State, laterCounter: u64, later: u64)
    requires forall k :: 0 <= k < |intents| ==> intents[k].TargetPosition?
    requires actions == BatchOutcome(intents, state, counter, now).actions
    requires counter + |NewOrders(actions)| <= U64_MAX && FreshIds(state, counter, |NewOrders(actions)|)
    requires after == AfterActions(state, actions, now)
    ensures BatchOutcome(intents, after, laterCounter, later).actions == [] <==> AllAttainable(intents, state)
  {
    AnyBatchConvergesIff(intents, state, counter, now, actions, after);
    SilentIffAllMet(intents, after, laterCounter, later);
  }

  lemma TwiceThere(intent: Intent)
    requires intent.TargetPosition?
    ensures TargetCount([intent], intent.instrumentId) == 1 && TargetCount([intent, intent], intent.instrumentId) == 2
  {
    assert [intent][..0] == [];
    assert [intent, intent][..1] == [intent];
  }

  /** Saturation is a way out: from the lowest position a target too far away for one order is
      missed by the batch that asks once, and met by the batch that asks twice. */
  lemma SaturatedTargetIsMetByAskingTwice(intent: Intent, state: State, counter: u64, now: u64, once: seq<Action>, twice: seq<Action>)
    requires intent.TargetPosition? && intent.targetQuantity == I64_MAX - 1
    requires QuantityOf(state.ledger.positions, intent.instrumentId) == I64_MIN
    requires PendingOn(state, intent.instrumentId, Buy) == 0 && PendingOn(state, intent.instrumentId, Sell) == 0
    requires once == BatchOutcome([intent], state, counter, now).actions
    requires twice == BatchOutcome([intent, intent], state, counter, now).actions
    requires counter + |NewOrders(once)| <= U64_MAX && FreshIds(state, counter, |NewOrders(once)|)
    requires counter + |NewOrders(twice)| <= U64_MAX && FreshIds(state, counter, |NewOrders(twice)|)
    ensures Effective(AfterActions(state, once, now), intent.instrumentId) != intent.targetQuantity
    ensures Effective(AfterActions(state, twice, now), intent.instrumentId) == intent.targetQuantity
  {
    TwiceThere(intent);
    RepeatedTargetsConvergeIff([intent], state, counter, now, once, 0);
    RepeatedTargetsConvergeIff([intent, intent], state, counter, now, twice, 0);
    assert Targets([intent][0], intent.instrumentId) && Targets([intent, intent][0], intent.instrumentId);
    assert Missing(state, intent.instrumentId, intent.targetQuantity) == I64_MAX;
    assert Times(1, I64_MAX) == I64_MAX && Times(2, I64_MAX) == U64_MAX - 1 && Times(2, 0) == 0;
  }

  lemma TwiceAsksTwice(intent: Intent, state: State, counter: u64, now: u64, side: Side)
    requires intent.TargetPosition?
    ensures var delta := Missing(state, intent.instrumentId, intent.targetQuantity);
            AskedFor(NewOrders(BatchOutcome([intent, intent], state, counter, now).actions), intent.instrumentId, side)
            == 2 * AskOn(delta, side)
  {
    var one := IntentOutcome(intent, state, counter, now);
    var two := IntentOutcome(intent, state, one.counter, now);
    assert [intent, intent][..1] == [intent] && [intent][..0] == [];
    assert BatchOutcome([intent], state, counter, now) == one by {
      assert BatchOutcome([], state, counter, now) == Outcome([], counter);
      assert [] + one.actions == one.actions;
    }
    ActionsAskTogether(one.actions, two.actions, intent.instrumentId, side);
    TargetAsksForMissing(intent, state, counter, now, side);
    TargetAsksForMissing(intent, state, one.counter, now, side);
  }

  /** Two intents on one instrument are both judged against the state before either is
      recorded: asking twice for the same target overshoots by the whole distance. */
  lemma AskingTwiceOvershoots(intent: Intent, state: State, counter: u64, now: u64, actions: seq<Action>)
    requires intent.TargetPosition?
    requires actions == BatchOutcome([intent, intent], state, counter, now).actions
    requires counter + |NewOrders(actions)| <= U64_MAX && FreshIds(state, counter, |NewOrders(actions)|)
    requires Effective(state, intent.instrumentId) == ExactEffective(state, intent.instrumentId)
    requires I64_MIN <= intent.targetQuantity - ExactEffective(state, intent.instrumentId) <= I64_MAX
    ensures ExactEffective(AfterActions(state, actions, now), intent.instrumentId)
         == intent.targetQuantity + (intent.targetQuantity - ExactEffective(state, intent.instrumentId))
  {
    BatchIsNumbered([intent, intent], state, counter, now);
    RecordingAddsWhatIsAsked(state, actions, counter, now, intent.instrumentId, Buy);
    RecordingAddsWhatIsAsked(state, actions, counter, now, intent.instrumentId, Sell);
    TwiceAsksTwice(intent, state, counter, now, Buy);
    TwiceAsksTwice(intent, state, counter, now, Sell);
  }
}
