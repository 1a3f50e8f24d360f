/** Strategy and simulator closed into a loop over three queues.  Each queue keeps its
    order; nothing orders one queue against another. */
module ClosedLoop {
  import opened Specs
  import opened Fills
  import opened Ledgers
  import opened Orders
  import opened RunnerStates
  import opened Conservation
  import opened Lifecycles
  import opened Execution
  import opened TradeSim

  /** The runner's answer to one event: its new state, its counter, and what it sends. */
  datatype Reaction = Reaction(state: State, counter: u64, actions: seq<Action>)

  /** Execute the strategy's intents and record the actions. */
  ghost function Decide(state: State, counter: u64, intents: seq<Intent>, now: u64): Reaction {
    var outcome := BatchOutcome(intents, state, counter, now);
    Reaction(AfterActions(state, outcome.actions, now), outcome.counter, outcome.actions)
  }

  ghost function OnOrderEvent(state: State, counter: u64, event: OrderEvent, intents: seq<Intent>, now: u64): Reaction {
    if AcceptsEvent(state.orders, event)
    then Decide(AfterOrderEvent(state, event), counter, intents, now)
    else Reaction(state, counter, [])
  }

  ghost function OnTradeEvent(state: State, counter: u64, trade: TradeEvent, intents: seq<Intent>, now: u64): Reaction {
    if Accepts(state.ledger, trade)
    then Decide(AfterTrade(state, trade), counter, intents, now)
    else Reaction(state, counter, [])
  }

  /** The three queues between the runner and the simulator, and every order ever sent. */
  datatype Loop = Loop(
    state: State,
    counter: u64,
    actions: seq<Action>,
    reports: seq<OrderEvent>,
    trades: seq<TradeEvent>,
    nextTradeId: u64,
    sent: seq<NewOrder>)

  /** One step: the strategy speaks up on its own, the gateway takes an action, or the
      runner takes an event from one of its two queues and the strategy answers. */
  datatype Step =
    | SpeakUp(intents: seq<Intent>, now: u64)
    | GatewayTakes(now: u64)
    | TakeReport(intents: seq<Intent>, now: u64)
    | TakeTrade(intents: seq<Intent>, now: u64)

  const Start := Loop(InitialState, 1, [], [], [], 1, [])

  function Send(loop: Loop, reaction: Reaction): Loop {
    loop.(state := reaction.state,
          counter := reaction.counter,
          actions := loop.actions + reaction.actions,
          sent := loop.sent + NewOrders(reaction.actions))
  }

  function OrderReports(events: seq<GatewayEvent>): seq<OrderEvent> {
    if events == [] then []
    else (if events[0].OrderReport? then [events[0].order] else []) + OrderReports(events[1..])
  }

  function TradeReports(events: seq<GatewayEvent>): seq<TradeEvent> {
    if events == [] then []
    else (if events[0].TradeReport? then [events[0].trade] else []) + TradeReports(events[1..])
  }

  ghost function Next(loop: Loop, step: Step): Loop {
    match step
    case SpeakUp(intents, now) => Send(loop, Decide(loop.state, loop.counter, intents, now))
    case GatewayTakes(now) =>
      if loop.actions == [] then loop
      else
        var answer := Answer(loop.actions[0], loop.nextTradeId, now);
        loop.(actions := loop.actions[1..],
              reports := loop.reports + OrderReports(answer),
              trades := loop.trades + TradeReports(answer),
              nextTradeId := TradeIdAfter(loop.actions[0], loop.nextTradeId))
    case TakeReport(intents, now) =>
      if loop.reports == [] then loop
      else Send(loop.(reports := loop.reports[1..]),
                OnOrderEvent(loop.state, loop.counter, loop.reports[0], intents, now))
    case TakeTrade(intents, now) =>
      if loop.trades == [] then loop
      else Send(loop.(trades := loop.trades[1..]),
                OnTradeEvent(loop.state, loop.counter, loop.trades[0], intents, now))
  }

  ghost function Run(steps: seq<Step>): Loop {
    if steps == [] then Start else Next(Run(steps[..|steps| - 1]), steps[|steps| - 1])
  }

  // ---------------------------------------------------------------------------
  // Bounds, and what every run keeps

  function TotalSent(orders: seq<NewOrder>): nat {
    if orders == [] then 0 else TotalSent(orders[..|orders| - 1]) + orders[|orders| - 1].quantity
  }

  function NetSent(orders: seq<NewOrder>, instrumentId: InstrumentId): int {
    if orders == [] then 0
    else
      var last := orders[|orders| - 1];
      NetSent(orders[..|orders| - 1], instrumentId)
      + if last.instrumentId == instrumentId then Signed(last.side, last.quantity) else 0
  }

  /** Fewer orders than ids, and less quantity than a position can hold. */
  predicate Bounded(loop: Loop) {
    |loop.sent| < U64_MAX && TotalSent(loop.sent) <= I64_MAX
  }

  /** The ids of the completion reports in a queue, in order. */
  function Completions(reports: seq<OrderEvent>): seq<u64> {
    if reports == [] then []
    else Completions(reports[..|reports| - 1]) + CompletionIn(reports[|reports| - 1])
  }

  function CompletionIn(report: OrderEvent): seq<u64> {
    if report.status == OrderStatus.Filled then [report.orderId] else []
  }

  /** How many orders have reached the gateway, have been booked as trades by the runner,
      have been reported to it as completed. */
  function Taken(loop: Loop): int {
    loop.nextTradeId - 1
  }

  function Booked(loop: Loop): int {
    Taken(loop) - |loop.trades|
  }

  function Done(loop: Loop): int {
    Taken(loop) - |Completions(loop.reports)|
  }

  /** Ids count the orders sent; what the gateway has not taken is in the action queue. */
  ghost predicate ActionsInOrder(loop: Loop) {
    && 0 <= Taken(loop) <= |loop.sent|
    && Numbered(loop.sent, 1)
    && loop.counter == |loop.sent| + 1
    && NewOrders(loop.actions) == loop.sent[Taken(loop)..]
  }

  ghost predicate IsTradeOf(trade: TradeEvent, sent: seq<NewOrder>, k: int) {
    && 0 <= k < |sent|
    && trade.tradeId == k + 1
    && trade.orderId == sent[k].orderId
    && trade.instrumentId == sent[k].instrumentId
    && trade.side == sent[k].side
    && trade.price == sent[k].limitPrice
    && trade.quantity == sent[k].quantity
  }

  /** The orders taken and not yet booked are in the trade queue, in order; the position of
      every instrument is the sum of the orders booked. */
  ghost predicate TradesInOrder(loop: Loop) {
    && 0 <= Booked(loop) <= |loop.sent|
    && (forall k :: 0 <= k < |loop.trades| ==> IsTradeOf(loop.trades[k], loop.sent, Booked(loop) + k))
    && (forall id :: id in loop.state.ledger.window ==> id <= Booked(loop))
    && forall instrumentId ::
         QuantityOf(loop.state.ledger.positions, instrumentId) == NetSent(loop.sent[..Booked(loop)], instrumentId)
  }

  ghost predicate NoCompletionSeen(state: State, orderId: u64) {
    orderId in state.orders.seen ==>
      forall key :: key in state.orders.seen[orderId] ==> key.status != OrderStatus.Filled
  }

  /** The orders still alive are among those sent and not yet reported as completed. */
  ghost predicate AliveWithin(state: State, done: int, sent: int) {
    forall id :: id in state.orders.orders && !IsTerminal(state.orders.orders[id].status) ==> done < id <= sent
  }

  /** A report that could revive an order has that order's completion behind it. */
  ghost predicate CompletionBehind(reports: seq<OrderEvent>) {
    forall k :: 0 <= k < |reports| && !IsTerminal(reports[k].status) ==>
      reports[k].orderId in Completions(reports[k..])
  }

  /** Completion reports wait in order, each behind its acknowledgement, and none that waits
      has been seen before. */
  ghost predicate ReportsInOrder(loop: Loop) {
    && 0 <= Done(loop) <= Taken(loop)
    && (forall k :: 0 <= k < |Completions(loop.reports)| ==> Completions(loop.reports)[k] == Done(loop) + k + 1)
    && CompletionBehind(loop.reports)
    && AliveWithin(loop.state, Done(loop), |loop.sent|)
    && (forall id: u64 :: Done(loop) < id ==> NoCompletionSeen(loop.state, id))
  }

  ghost predicate Consistent(loop: Loop) {
    ActionsInOrder(loop) && TradesInOrder(loop) && ReportsInOrder(loop)
  }

  // ---------------------------------------------------------------------------
  // Sequence facts

  lemma {:induction false} CompletionsOfConcat(a: seq<OrderEvent>, b: seq<OrderEvent>)
    ensures Completions(a + b) == Completions(a) + Completions(b)
  {
    if b == [] {
      assert a + b == a;
    } else {
      var init, last := b[..|b| - 1], b[|b| - 1];
      CompletionsOfConcat(a, init);
      assert (a + b)[..|a + b| - 1] == a + init && (a + b)[|a + b| - 1] == last;
      assert Completions(a) + (Completions(init) + CompletionIn(last))
          == (Completions(a) + Completions(init)) + CompletionIn(last);
    }
  }

  lemma CompletionsOfHead(reports: seq<OrderEvent>)
    requires reports != []
    ensures Completions(reports)
         == CompletionIn(reports[0]) + Completions(reports[1..])
  {
    assert reports == [reports[0]] + reports[1..];
    CompletionsOfConcat([reports[0]], reports[1..]);
    assert [reports[0]][..0] == [];
  }

  lemma {:induction false} TotalSentPrefix(orders: seq<NewOrder>, k: nat)
    requires k <= |orders|
    ensures TotalSent(orders[..k]) <= TotalSent(orders)
  {
    if k < |orders| {
      TotalSentPrefix(orders[..|orders| - 1], k);
      assert orders[..|orders| - 1][..k] == orders[..k];
    } else {
      assert orders[..k] == orders;
    }
  }

  lemma {:induction false} NetSentWithinTotal(orders: seq<NewOrder>, instrumentId: InstrumentId)
    ensures Abs(NetSent(orders, instrumentId)) <= TotalSent(orders)
  {
    if orders != [] {
      NetSentWithinTotal(orders[..|orders| - 1], instrumentId);
    }
  }

  lemma {:induction false} NewOrdersOfHead(actions: seq<Action>)
    requires actions != []
    ensures NewOrders(actions)
         == (if actions[0].SendNew? then [actions[0].order] else []) + NewOrders(actions[1..])
  {
    assert actions == [actions[0]] + actions[1..];
    NewOrdersOfConcat([actions[0]], actions[1..]);
    assert [actions[0]][..0] == [];
  }

  // ---------------------------------------------------------------------------
  // Every step keeps the loop consistent

  /** Recording actions brings no order to life but the new ones, and forgets no report. */
  lemma {:induction false} RecordingKeepsAlive(state: State, actions: seq<Action>, first: int, done: int, now: u64)
    requires Numbered(NewOrders(actions), first) && done < first
    requires AliveWithin(state, done, first - 1)
    ensures AliveWithin(AfterActions(state, actions, now), done, first - 1 + |NewOrders(actions)|)
    ensures AfterActions(state, actions, now).orders.seen == state.orders.seen
    ensures AfterActions(state, actions, now).ledger == state.ledger
  {
    if actions != [] {
      var init := actions[..|actions| - 1];
      assert NewOrders(actions)[..|NewOrders(init)|] == NewOrders(init);
      RecordingKeepsAlive(state, init, first, done, now);
      var last := actions[|actions| - 1];
      if last.SendNew? {
        assert NewOrders(actions)[|NewOrders(actions)| - 1] == last.order;
      }
    }
  }

  /** What a decision may do to the runner: send freshly numbered orders, and nothing to
      the ledger or to the reports seen. */
  ghost predicate Measured(loop: Loop, reaction: Reaction) {
    var count := |NewOrders(reaction.actions)|;
    && Numbered(NewOrders(reaction.actions), |loop.sent| + 1)
    && reaction.counter == loop.counter + count
    && reaction.state.ledger == loop.state.ledger
    && reaction.state.orders.seen == loop.state.orders.seen
    && AliveWithin(reaction.state, Done(loop), |loop.sent| + count)
  }

  lemma DecisionIsMeasured(loop: Loop, intents: seq<Intent>, now: u64)
    requires Consistent(loop)
    requires Bounded(Send(loop, Decide(loop.state, loop.counter, intents, now)))
    ensures Measured(loop, Decide(loop.state, loop.counter, intents, now))
  {
    var outcome := BatchOutcome(intents, loop.state, loop.counter, now);
    BatchIsNumbered(intents, loop.state, loop.counter, now);
    RecordingKeepsAlive(loop.state, outcome.actions, loop.counter, Done(loop), now);
  }

  lemma SendingKeepsActions(loop: Loop, reaction: Reaction)
    requires ActionsInOrder(loop) && Measured(loop, reaction)
    ensures ActionsInOrder(Send(loop, reaction))
  {
    NewOrdersOfConcat(loop.actions, reaction.actions);
    assert Send(loop, reaction).sent[Taken(loop)..] == loop.sent[Taken(loop)..] + NewOrders(reaction.actions);
  }

  lemma SendingKeepsTrades(loop: Loop, reaction: Reaction)
    requires TradesInOrder(loop) && Measured(loop, reaction)
    ensures TradesInOrder(Send(loop, reaction))
  {
    assert Send(loop, reaction).sent[..Booked(loop)] == loop.sent[..Booked(loop)];
  }

  lemma SendingKeepsReports(loop: Loop, reaction: Reaction)
    requires ReportsInOrder(loop) && Measured(loop, reaction)
    ensures ReportsInOrder(Send(loop, reaction))
  {
    forall id: u64 | Done(loop) < id
      ensures NoCompletionSeen(reaction.state, id)
    {
      assert NoCompletionSeen(loop.state, id);
    }
  }

  lemma SendingKeeps(loop: Loop, reaction: Reaction)
    requires Measured(loop, reaction)
    ensures Consistent(loop) ==> Consistent(Send(loop, reaction))
  {
    if Consistent(loop) {
      SendingKeepsActions(loop, reaction);
      SendingKeepsTrades(loop, reaction);
      SendingKeepsReports(loop, reaction);
    }
  }

  // The gateway takes an action.

  lemma AnswersOf(action: Action, tradeId: u64, now: u64)
    ensures var answer := Answer(action, tradeId, now);
            match action
            case SendNew(order) =>
              OrderReports(answer) == [Acknowledged(order, now), Completed(order, now)]
              && TradeReports(answer) == [TradeOf(order, tradeId, now)]
            case SendCancel(cancel) =>
              OrderReports(answer) == [CancelReported(cancel, now)] && TradeReports(answer) == []
  {
    var answer := Answer(action, tradeId, now);
    if action.SendNew? {
      var last, lastTwo := answer[2..], answer[1..];
      assert last[1..] == [] && lastTwo[1..] == last;
      assert OrderReports(last) == [Completed(action.order, now)] && TradeReports(last) == [];
      assert OrderReports(lastTwo) == OrderReports(last);
    } else {
      assert answer[1..] == [];
    }
  }

  lemma TakingKeepsActions(loop: Loop, now: u64)
    requires ActionsInOrder(loop) && Bounded(loop) && loop.actions != []
    ensures ActionsInOrder(Next(loop, GatewayTakes(now)))
    ensures loop.actions[0].SendNew? ==>
              Taken(loop) < |loop.sent| && loop.sent[Taken(loop)] == loop.actions[0].order
    ensures Taken(Next(loop, GatewayTakes(now))) == Taken(loop) + (if loop.actions[0].SendNew? then 1 else 0)
  {
    NewOrdersOfHead(loop.actions);
    if loop.actions[0].SendNew? {
      assert loop.sent[Taken(loop)..][0] == loop.actions[0].order;
      assert loop.sent[Taken(loop) + 1..] == loop.sent[Taken(loop)..][1..];
    }
  }

  lemma TakingKeepsTrades(loop: Loop, now: u64)
    requires ActionsInOrder(loop) && TradesInOrder(loop) && Bounded(loop) && loop.actions != []
    ensures TradesInOrder(Next(loop, GatewayTakes(now)))
  {
    TakingKeepsActions(loop, now);
    AnswersOf(loop.actions[0], loop.nextTradeId, now);
  }

  lemma CompletionBehindGrows(reports: seq<OrderEvent>, more: seq<OrderEvent>)
    requires CompletionBehind(reports) && CompletionBehind(more)
    ensures CompletionBehind(reports + more)
  {
    var all := reports + more;
    forall k | 0 <= k < |all| && !IsTerminal(all[k].status)
      ensures all[k].orderId in Completions(all[k..])
    {
      if k < |reports| {
        assert all[k..] == reports[k..] + more;
        CompletionsOfConcat(reports[k..], more);
      } else {
        assert all[k..] == more[k - |reports|..];
      }
    }
  }

  lemma AcknowledgedThenCompleted(acknowledged: OrderEvent, completed: OrderEvent)
    requires acknowledged.status == Active && completed.status == OrderStatus.Filled
    requires acknowledged.orderId == completed.orderId
    ensures Completions([acknowledged, completed]) == [completed.orderId]
    ensures CompletionBehind([acknowledged, completed])
  {
    var both := [acknowledged, completed];
    CompletionsOfHead(both);
    assert both[1..] == [completed];
    CompletionsOfHead([completed]);
    assert [completed][1..] == [] && both[0..] == both;
    assert Completions(both)[0] == completed.orderId;
  }

  /** An acknowledgement has its completion behind it; a cancelled order needs none. */
  lemma AnswerCompletes(action: Action, tradeId: u64, now: u64)
    ensures var more := OrderReports(Answer(action, tradeId, now));
            && CompletionBehind(more)
            && Completions(more) == match action case SendNew(order) => [order.orderId] case SendCancel(_) => []
  {
    AnswersOf(action, tradeId, now);
    match action {
      case SendNew(order) => AcknowledgedThenCompleted(Acknowledged(order, now), Completed(order, now));
      case SendCancel(cancel) => CompletionsOfHead([CancelReported(cancel, now)]);
    }
  }

  /** The completions that wait are those of the orders taken and not yet done, in order. */
  ghost predicate CompletionsInOrder(reports: seq<OrderEvent>, done: int, taken: int) {
    && |Completions(reports)| == taken - done
    && forall k :: 0 <= k < |Completions(reports)| ==> Completions(reports)[k] == done + k + 1
  }

  lemma AnswersWaitInOrder(reports: seq<OrderEvent>, done: int, taken: int, action: Action, tradeId: u64, now: u64)
    requires CompletionBehind(reports) && CompletionsInOrder(reports, done, taken)
    requires action.SendNew? ==> action.order.orderId == taken + 1
    ensures var all := reports + OrderReports(Answer(action, tradeId, now));
            CompletionBehind(all) && CompletionsInOrder(all, done, if action.SendNew? then taken + 1 else taken)
  {
    var more := OrderReports(Answer(action, tradeId, now));
    AnswerCompletes(action, tradeId, now);
    CompletionsOfConcat(reports, more);
    CompletionBehindGrows(reports, more);
  }

  lemma TakingKeepsReports(loop: Loop, now: u64)
    requires ActionsInOrder(loop) && ReportsInOrder(loop) && Bounded(loop) && loop.actions != []
    ensures ReportsInOrder(Next(loop, GatewayTakes(now)))
  {
    TakingKeepsActions(loop, now);
    AnswersWaitInOrder(loop.reports, Done(loop), Taken(loop), loop.actions[0], loop.nextTradeId, now);
    var after := Next(loop, GatewayTakes(now));
    assert CompletionsInOrder(after.reports, Done(loop), Taken(after));
    assert Done(after) == Done(loop);
    forall id: u64 | Done(after) < id
      ensures NoCompletionSeen(after.state, id)
    {
      assert NoCompletionSeen(loop.state, id);
    }
  }

  // The runner takes a trade.

  function BookTrade(loop: Loop): Loop
    requires loop.trades != []
  {
    loop.(trades := loop.trades[1..], state := AfterTrade(loop.state, loop.trades[0]))
  }

  /** The trade at the head of the queue is accepted and moves its instrument by exactly
      the order it answers. */
  lemma HeadTradeBooks(loop: Loop, instrumentId: InstrumentId)
    requires ActionsInOrder(loop) && TradesInOrder(loop) && Bounded(loop) && loop.trades != []
    ensures Accepts(loop.state.ledger, loop.trades[0])
    ensures QuantityOf(BookTrade(loop).state.ledger.positions, instrumentId)
         == NetSent(loop.sent[..Booked(loop) + 1], instrumentId)
  {
    var trade, booked := loop.trades[0], Booked(loop);
    assert IsTradeOf(trade, loop.sent, booked);
    var through := loop.sent[..booked + 1];
    assert through[..booked] == loop.sent[..booked];
    TotalSentPrefix(loop.sent, booked + 1);
    NetSentWithinTotal(through, instrumentId);
    NetSentWithinTotal(through, trade.instrumentId);
    assert NetSent(through, trade.instrumentId)
        == NetSent(loop.sent[..booked], trade.instrumentId) + Signed(trade.side, trade.quantity);
    MoveIsExact(PositionOf(loop.state.ledger.positions, trade.instrumentId, trade.timestamp), trade,
                Signed(trade.side, trade.quantity));
  }

  lemma BookingKeepsTrades(loop: Loop)
    requires ActionsInOrder(loop) && TradesInOrder(loop) && Bounded(loop) && loop.trades != []
    ensures TradesInOrder(BookTrade(loop))
  {
    var booked := Booked(loop);
    forall instrumentId
      ensures QuantityOf(BookTrade(loop).state.ledger.positions, instrumentId)
           == NetSent(loop.sent[..booked + 1], instrumentId)
    {
      HeadTradeBooks(loop, instrumentId);
    }
    assert IsTradeOf(loop.trades[0], loop.sent, booked + 0);
    RememberAddsOnly(loop.state.ledger.window, DEFAULT_FILL_WINDOW, loop.trades[0].tradeId);
    forall k | 0 <= k < |loop.trades| - 1
      ensures IsTradeOf(BookTrade(loop).trades[k], loop.sent, booked + 1 + k)
    {
      assert IsTradeOf(loop.trades[k + 1], loop.sent, booked + (k + 1));
    }
  }

  lemma TradesReviveNothing(state: State, trade: TradeEvent, done: int, sent: int)
    requires AliveWithin(state, done, sent)
    ensures AliveWithin(AfterTrade(state, trade), done, sent)
    ensures AfterTrade(state, trade).orders.seen == state.orders.seen
  {
  }

  lemma BookingKeepsReports(loop: Loop)
    requires ReportsInOrder(loop) && loop.trades != []
    ensures ReportsInOrder(BookTrade(loop))
  {
    TradesReviveNothing(loop.state, loop.trades[0], Done(loop), |loop.sent|);
    forall id: u64 | Done(loop) < id
      ensures NoCompletionSeen(BookTrade(loop).state, id)
    {
      assert NoCompletionSeen(loop.state, id);
    }
  }

  lemma BookingKeeps(loop: Loop)
    requires Consistent(loop) && Bounded(loop) && loop.trades != []
    ensures Consistent(BookTrade(loop))
  {
    BookingKeepsTrades(loop);
    BookingKeepsReports(loop);
  }

  // The runner takes a report.

  function HearReport(loop: Loop): Loop
    requires loop.reports != []
  {
    loop.(reports := loop.reports[1..], state := AfterOrderEvent(loop.state, loop.reports[0]))
  }

  /** The report at the head is either the next completion, or of an order already ended,
      or of an order whose completion is still to come. */
  lemma HeadReport(loop: Loop)
    requires ReportsInOrder(loop) && loop.reports != []
    ensures var report := loop.reports[0];
            if report.status == OrderStatus.Filled then
              report.orderId == Done(loop) + 1 == Done(HearReport(loop))
            else
              Completions(HearReport(loop).reports) == Completions(loop.reports)
              && (!IsTerminal(report.status) ==> Done(loop) < report.orderId <= Taken(loop))
  {
    var report := loop.reports[0];
    var waiting := Completions(loop.reports);
    CompletionsOfHead(loop.reports);
    assert loop.reports[0..] == loop.reports;
    if report.status == OrderStatus.Filled {
      assert waiting[0] == report.orderId;
      assert waiting[1..] == Completions(HearReport(loop).reports);
    } else if !IsTerminal(report.status) {
      var k :| 0 <= k < |waiting| && waiting[k] == report.orderId;
    }
  }

  lemma HearingKeepsQueue(loop: Loop)
    requires ReportsInOrder(loop) && loop.reports != []
    ensures CompletionBehind(HearReport(loop).reports)
    ensures var after := HearReport(loop);
            && 0 <= Done(after) <= Taken(after)
            && forall k :: 0 <= k < |Completions(after.reports)| ==> Completions(after.reports)[k] == Done(after) + k + 1
  {
    var after := HearReport(loop);
    CompletionsOfHead(loop.reports);
    HeadReport(loop);
    if loop.reports[0].status == OrderStatus.Filled {
      assert Completions(after.reports) == Completions(loop.reports)[1..];
    }
    forall k | 0 <= k < |after.reports| && !IsTerminal(after.reports[k].status)
      ensures after.reports[k].orderId in Completions(after.reports[k..])
    {
      assert loop.reports[k + 1..] == after.reports[k..];
    }
  }

  lemma HearingKeepsUnseen(loop: Loop, id: u64)
    requires ReportsInOrder(loop) && loop.reports != [] && Done(HearReport(loop)) < id
    ensures NoCompletionSeen(HearReport(loop).state, id)
  {
    HeadReport(loop);
    assert NoCompletionSeen(loop.state, id);
  }

  lemma HearingKeepsAlive(loop: Loop)
    requires ActionsInOrder(loop) && ReportsInOrder(loop) && loop.reports != []
    ensures AliveWithin(HearReport(loop).state, Done(HearReport(loop)), |loop.sent|)
  {
    HeadReport(loop);
    var report := loop.reports[0];
    if report.status == OrderStatus.Filled {
      assert NoCompletionSeen(loop.state, report.orderId);
      assert AcceptsEvent(loop.state.orders, report);
    }
  }

  lemma HearingKeepsReports(loop: Loop)
    requires ActionsInOrder(loop) && ReportsInOrder(loop) && loop.reports != []
    ensures ReportsInOrder(HearReport(loop))
  {
    HearingKeepsQueue(loop);
    HearingKeepsAlive(loop);
    forall id: u64 | Done(HearReport(loop)) < id
      ensures NoCompletionSeen(HearReport(loop).state, id)
    {
      HearingKeepsUnseen(loop, id);
    }
  }

  lemma HearingKeeps(loop: Loop)
    requires Consistent(loop) && loop.reports != []
    ensures Consistent(HearReport(loop))
  {
    HearingKeepsReports(loop);
  }

  // ---------------------------------------------------------------------------
  // Whole runs

  lemma {:induction false} TotalSentGrows(a: seq<NewOrder>, b: seq<NewOrder>)
    ensures TotalSent(a) <= TotalSent(a + b)
  {
    TotalSentPrefix(a + b, |a|);
    assert (a + b)[..|a|] == a;
  }

  lemma BoundedBefore(loop: Loop, step: Step)
    requires Bounded(Next(loop, step))
    ensures Bounded(loop)
  {
    var sent := Next(loop, step).sent;
    assert exists more :: sent == loop.sent + more by {
      assert sent == loop.sent + sent[|loop.sent|..];
    }
    var more :| sent == loop.sent + more;
    TotalSentGrows(loop.sent, more);
  }

  lemma SpeakingKeeps(loop: Loop, intents: seq<Intent>, now: u64)
    requires Consistent(loop)
    requires Bounded(Send(loop, Decide(loop.state, loop.counter, intents, now)))
    ensures Consistent(Send(loop, Decide(loop.state, loop.counter, intents, now)))
  {
    DecisionIsMeasured(loop, intents, now);
    SendingKeeps(loop, Decide(loop.state, loop.counter, intents, now));
  }

  lemma StayingSilent(loop: Loop)
    ensures Send(loop, Reaction(loop.state, loop.counter, [])) == loop
  {
    assert loop.actions + [] == loop.actions && loop.sent + [] == loop.sent;
  }

  lemma NextKeeps(loop: Loop, step: Step)
    requires Consistent(loop) && Bounded(Next(loop, step))
    ensures Consistent(Next(loop, step))
  {
    BoundedBefore(loop, step);
    match step {
      case SpeakUp(intents, now) => SpeakingKeeps(loop, intents, now);
      case GatewayTakes(now) =>
        if loop.actions != [] {
          TakingKeepsActions(loop, now);
          TakingKeepsTrades(loop, now);
          TakingKeepsReports(loop, now);
        }
      case TakeReport(intents, now) =>
        if loop.reports != [] {
          HearingKeeps(loop);
          var heard := HearReport(loop);
          if AcceptsEvent(loop.state.orders, loop.reports[0]) {
            assert Next(loop, step) == Send(heard, Decide(heard.state, heard.counter, intents, now));
            SpeakingKeeps(heard, intents, now);
          } else {
            StayingSilent(heard);
          }
        }
      case TakeTrade(intents, now) =>
        if loop.trades != [] {
          BookingKeeps(loop);
          HeadTradeBooks(loop, loop.trades[0].instrumentId);
          var booked := BookTrade(loop);
          assert Next(loop, step) == Send(booked, Decide(booked.state, booked.counter, intents, now));
          SpeakingKeeps(booked, intents, now);
        }
    }
  }

  lemma StartIsConsistent()
    ensures Consistent(Start)
  {
    assert Taken(Start) == 0 && Booked(Start) == 0 && Done(Start) == 0;
    assert Start.sent[0..] == [] && Start.sent[..0] == [];
    assert ActionsInOrder(Start);
    assert TradesInOrder(Start);
    assert ReportsInOrder(Start);
  }

  lemma {:induction false} EveryRunIsConsistent(steps: seq<Step>)
    requires Bounded(Run(steps))
    ensures Consistent(Run(steps))
  {
    if steps == [] {
      StartIsConsistent();
    } else {
      BoundedBefore(Run(steps[..|steps| - 1]), steps[|steps| - 1]);
      EveryRunIsConsistent(steps[..|steps| - 1]);
      NextKeeps(Run(steps[..|steps| - 1]), steps[|steps| - 1]);
    }
  }

  predicate Drained(loop: Loop) {
    loop.actions == [] && loop.reports == [] && loop.trades == []
  }

  /** At every moment of every run the position of every instrument is the sum of the
      orders whose trades have been taken from the queue: no replay, revival or cancel
      ever books a trade twice or loses one. */
  lemma PositionsFollowTheTradeQueue(steps: seq<Step>, instrumentId: InstrumentId)
    requires Bounded(Run(steps))
    ensures 0 <= Booked(Run(steps)) <= |Run(steps).sent|
    ensures QuantityOf(Run(steps).state.ledger.positions, instrumentId)
         == NetSent(Run(steps).sent[..Booked(Run(steps))], instrumentId)
  {
    EveryRunIsConsistent(steps);
  }

  /** However the strategy behaves and however the two event queues are merged, once the
      queues are empty every order is terminal, nothing is pending, and every position is
      the sum of the signed quantities sent. */
  lemma DrainedLoopIsSettled(steps: seq<Step>, instrumentId: InstrumentId)
    requires Bounded(Run(steps)) && Drained(Run(steps))
    ensures forall id :: id in Run(steps).state.orders.orders ==> IsTerminal(Run(steps).state.orders.orders[id].status)
    ensures PendingExposureOf(Run(steps).state.orders, instrumentId) == (0, 0)
    ensures QuantityOf(Run(steps).state.ledger.positions, instrumentId) == NetSent(Run(steps).sent, instrumentId)
    ensures Effective(Run(steps).state, instrumentId) == NetSent(Run(steps).sent, instrumentId)
  {
    var loop := Run(steps);
    EveryRunIsConsistent(steps);
    assert loop.sent[..|loop.sent|] == loop.sent;
    AllTerminalPendsNothing(loop.state.orders.orders, instrumentId, Buy);
    AllTerminalPendsNothing(loop.state.orders.orders, instrumentId, Sell);
  }

  /** A settled loop rests exactly when the positions are the targets: asked for its
      targets again the engine stays silent iff every position is where it should be. */
  lemma SettledLoopRestsIffOnTarget(steps: seq<Step>, targets: seq<Intent>, now: u64)
    requires Bounded(Run(steps)) && Drained(Run(steps))
    requires forall k :: 0 <= k < |targets| ==> targets[k].TargetPosition?
    ensures Drained(Next(Run(steps), SpeakUp(targets, now)))
       <==> forall k :: 0 <= k < |targets| && targets[k].TargetPosition? ==>
              NetSent(Run(steps).sent, targets[k].instrumentId) == targets[k].targetQuantity
  {
    var loop := Run(steps);
    forall k | 0 <= k < |targets|
      ensures Effective(loop.state, targets[k].instrumentId) == NetSent(loop.sent, targets[k].instrumentId)
    {
      DrainedLoopIsSettled(steps, targets[k].instrumentId);
    }
    SilentIffAllMet(targets, loop.state, loop.counter, now);
    assert loop.actions + BatchOutcome(targets, loop.state, loop.counter, now).actions
        == BatchOutcome(targets, loop.state, loop.counter, now).actions;
  }

  // ---------------------------------------------------------------------------
  // At which prices

  ghost predicate TradesOfSent(trades: seq<TradeEvent>, loop: Loop) {
    && |trades| == Booked(loop)
    && (forall k :: 0 <= k < |trades| ==> IsTradeOf(trades[k], loop.sent, k))
    && loop.state.ledger == LedgerAfter(trades)
  }

  lemma LaterSentKeepsTrades(trades: seq<TradeEvent>, loop: Loop, after: Loop)
    requires TradesOfSent(trades, loop) && loop.sent <= after.sent
    requires Booked(after) == Booked(loop) && after.state.ledger == loop.state.ledger
    ensures TradesOfSent(trades, after)
  {
    forall k | 0 <= k < |trades|
      ensures IsTradeOf(trades[k], after.sent, k)
    {
      assert IsTradeOf(trades[k], loop.sent, k);
    }
  }

  lemma BookingAddsTrade(trades: seq<TradeEvent>, loop: Loop)
    requires ActionsInOrder(loop) && TradesInOrder(loop) && Bounded(loop) && loop.trades != []
    requires TradesOfSent(trades, loop)
    ensures TradesOfSent(trades + [loop.trades[0]], BookTrade(loop))
  {
    var more := trades + [loop.trades[0]];
    HeadTradeBooks(loop, loop.trades[0].instrumentId);
    assert more[..|more| - 1] == trades;
    assert IsTradeOf(loop.trades[0], loop.sent, Booked(loop) + 0);
    forall k | 0 <= k < |more|
      ensures IsTradeOf(more[k], loop.sent, k)
    {
      if k < |trades| {
        assert IsTradeOf(trades[k], loop.sent, k);
      }
    }
  }

  lemma {:induction false} DecidingKeepsLedger(state: State, actions: seq<Action>, now: u64)
    ensures AfterActions(state, actions, now).ledger == state.ledger
  {
    if actions != [] {
      DecidingKeepsLedger(state, actions[..|actions| - 1], now);
    }
  }

  lemma TakingKeepsTradesOfSent(trades: seq<TradeEvent>, loop: Loop, now: u64)
    requires ActionsInOrder(loop) && Bounded(loop) && loop.actions != [] && TradesOfSent(trades, loop)
    ensures TradesOfSent(trades, Next(loop, GatewayTakes(now)))
  {
    TakingKeepsActions(loop, now);
    AnswersOf(loop.actions[0], loop.nextTradeId, now);
    LaterSentKeepsTrades(trades, loop, Next(loop, GatewayTakes(now)));
  }

  lemma SendingKeepsTradesOfSent(trades: seq<TradeEvent>, loop: Loop, intents: seq<Intent>, now: u64)
    requires TradesOfSent(trades, loop)
    ensures TradesOfSent(trades, Send(loop, Decide(loop.state, loop.counter, intents, now)))
  {
    DecidingKeepsLedger(loop.state, BatchOutcome(intents, loop.state, loop.counter, now).actions, now);
    LaterSentKeepsTrades(trades, loop, Send(loop, Decide(loop.state, loop.counter, intents, now)));
  }

  /** At every moment of every run the ledger, average prices and all, is what one trade for each
      order booked makes of it: in the order of sending, each at its order's limit price. */
  lemma {:induction false} LedgerIsOfOrdersSent(steps: seq<Step>) returns (trades: seq<TradeEvent>)
    requires Bounded(Run(steps))
    ensures TradesOfSent(trades, Run(steps))
  {
    trades := [];
    if steps != [] {
      var loop, step := Run(steps[..|steps| - 1]), steps[|steps| - 1];
      BoundedBefore(loop, step);
      EveryRunIsConsistent(steps[..|steps| - 1]);
      trades := LedgerIsOfOrdersSent(steps[..|steps| - 1]);
      match step {
        case SpeakUp(intents, now) => SendingKeepsTradesOfSent(trades, loop, intents, now);
        case GatewayTakes(now) =>
          if loop.actions != [] {
            TakingKeepsTradesOfSent(trades, loop, now);
          }
        case TakeReport(intents, now) =>
          if loop.reports != [] {
            var heard := HearReport(loop);
            LaterSentKeepsTrades(trades, loop, heard);
            if AcceptsEvent(loop.state.orders, loop.reports[0]) {
              SendingKeepsTradesOfSent(trades, heard, intents, now);
            } else {
              StayingSilent(heard);
            }
          }
        case TakeTrade(intents, now) =>
          if loop.trades != [] {
            BookingAddsTrade(trades, loop);
            HeadTradeBooks(loop, loop.trades[0].instrumentId);
            trades := trades + [loop.trades[0]];
            SendingKeepsTradesOfSent(trades, BookTrade(loop), intents, now);
          }
      }
    }
  }

  lemma {:induction false} JournalIsOfEvents(events: seq<TradeEvent>, instrumentId: InstrumentId, k: nat) returns (j: nat)
    requires k < |Journal(events, instrumentId)|
    ensures j < |events| && events[j] == Journal(events, instrumentId)[k] && events[j].instrumentId == instrumentId
  {
    var init := events[..|events| - 1];
    if k < |Journal(init, instrumentId)| {
      j := JournalIsOfEvents(init, instrumentId, k);
    } else {
      j := |events| - 1;
    }
  }

  lemma {:induction false} TradedIsSent(trades: seq<TradeEvent>, sent: seq<NewOrder>, instrumentId: InstrumentId)
    requires |trades| <= |sent| && forall k :: 0 <= k < |trades| ==> IsTradeOf(trades[k], sent, k)
    ensures TradedQuantity(Journal(trades, instrumentId)) <= TotalSent(sent[..|trades|])
  {
    if trades != [] {
      var init, n := trades[..|trades| - 1], |trades|;
      assert sent[..n][..n - 1] == sent[..n - 1];
      assert forall k :: 0 <= k < |init| ==> init[k] == trades[k];
      TradedIsSent(init, sent, instrumentId);
      assert IsTradeOf(trades[n - 1], sent, n - 1);
      assert Journal(trades, instrumentId)[..|Journal(init, instrumentId)|] == Journal(init, instrumentId);
    }
  }

  /** So in every run each open position's average price lies between the limit prices of the
      orders sent on its instrument. */
  lemma AverageWithinLimitPrices(steps: seq<Step>, instrumentId: InstrumentId, lo: real, hi: real)
    requires Bounded(Run(steps))
    requires forall k :: 0 <= k < |Run(steps).sent| && Run(steps).sent[k].instrumentId == instrumentId ==>
               lo <= Run(steps).sent[k].limitPrice <= hi
    requires instrumentId in Run(steps).state.ledger.positions
    ensures var position := Run(steps).state.ledger.positions[instrumentId];
            if position.quantity == 0 then position.avgPrice == 0.0 else lo <= position.avgPrice <= hi
  {
    var sent := Run(steps).sent;
    EveryRunIsConsistent(steps);
    var trades := LedgerIsOfOrdersSent(steps);
    TradedIsSent(trades, sent, instrumentId);
    TotalSentPrefix(sent, |trades|);
    forall k | 0 <= k < |Journal(trades, instrumentId)|
      ensures lo <= Journal(trades, instrumentId)[k].price <= hi
    {
      var j := JournalIsOfEvents(trades, instrumentId, k);
      assert IsTradeOf(trades[j], sent, j);
    }
    LedgerProfit(trades, instrumentId, lo, hi);
  }

  // ---------------------------------------------------------------------------
  // Where a loop can come to rest

  /** The step makes the strategy answer: it speaks up, or an event is taken and not ignored. */
  ghost predicate Answers(loop: Loop, step: Step) {
    match step
    case SpeakUp(_, _) => true
    case GatewayTakes(_) => false
    case TakeReport(_, _) => loop.reports != [] && AcceptsEvent(loop.state.orders, loop.reports[0])
    case TakeTrade(_, _) => loop.trades != [] && Accepts(loop.state.ledger, loop.trades[0])
  }

  /** The batch with which the strategy answered last. */
  ghost function LastAnswer(steps: seq<Step>): Option<seq<Intent>> {
    if steps == [] then None
    else
      var init, last := steps[..|steps| - 1], steps[|steps| - 1];
      if last.GatewayTakes? || !Answers(Run(init), last) then LastAnswer(init) else Some(last.intents)
  }

  /** No new order is on its way to the gateway and no completion on its way back. */
  ghost predicate NothingUnderWay(loop: Loop) {
    NewOrders(loop.actions) == [] && Completions(loop.reports) == []
  }

  ghost predicate QuietOnlyOnTarget(loop: Loop, answer: Option<seq<Intent>>) {
    NothingUnderWay(loop) && answer.Some? ==> AllMet(answer.value, loop.state)
  }

  /** A decision that orders nothing new has found every target met, and leaves it met
      whatever it cancels. */
  lemma AnsweringIsQuietOnlyOnTarget(loop: Loop, intents: seq<Intent>, now: u64)
    ensures QuietOnlyOnTarget(Send(loop, Decide(loop.state, loop.counter, intents, now)), Some(intents))
  {
    var actions := BatchOutcome(intents, loop.state, loop.counter, now).actions;
    NewOrdersOfConcat(loop.actions, actions);
    if NewOrders(actions) == [] {
      OrdersNothingIff(intents, loop.state, loop.counter, now);
      forall k | 0 <= k < |intents| && intents[k].TargetPosition?
        ensures Effective(AfterActions(loop.state, actions, now), intents[k].instrumentId) == intents[k].targetQuantity
      {
        assert AsksNothing(intents[k], loop.state);
        RecordingAddsWhatIsAsked(loop.state, actions, 0, now, intents[k].instrumentId, Buy);
        RecordingAddsWhatIsAsked(loop.state, actions, 0, now, intents[k].instrumentId, Sell);
      }
    }
  }

  /** What the gateway takes it answers: a new order becomes a completion under way. */
  lemma TakingIsQuietOnlyOnTarget(loop: Loop, now: u64, answer: Option<seq<Intent>>)
    requires loop.actions != [] && QuietOnlyOnTarget(loop, answer)
    ensures QuietOnlyOnTarget(Next(loop, GatewayTakes(now)), answer)
  {
    NewOrdersOfHead(loop.actions);
    AnswerCompletes(loop.actions[0], loop.nextTradeId, now);
    CompletionsOfConcat(loop.reports, OrderReports(Answer(loop.actions[0], loop.nextTradeId, now)));
  }

  /** A completion is never ignored, so what is ignored leaves as much under way as before. */
  lemma IgnoringIsQuietOnlyOnTarget(loop: Loop, answer: Option<seq<Intent>>)
    requires ReportsInOrder(loop) && loop.reports != [] && !AcceptsEvent(loop.state.orders, loop.reports[0])
    requires QuietOnlyOnTarget(loop, answer)
    ensures QuietOnlyOnTarget(loop.(reports := loop.reports[1..]), answer)
  {
    HeadReport(loop);
    assert NoCompletionSeen(loop.state, loop.reports[0].orderId) || loop.reports[0].orderId <= Done(loop);
  }

  lemma NextIsQuietOnlyOnTarget(loop: Loop, step: Step, answer: Option<seq<Intent>>)
    requires Consistent(loop) && Bounded(loop) && QuietOnlyOnTarget(loop, answer)
    ensures QuietOnlyOnTarget(Next(loop, step),
                              if step.GatewayTakes? || !Answers(loop, step) then answer else Some(step.intents))
  {
    match step {
      case SpeakUp(intents, now) => AnsweringIsQuietOnlyOnTarget(loop, intents, now);
      case GatewayTakes(now) =>
        if loop.actions != [] {
          TakingIsQuietOnlyOnTarget(loop, now, answer);
        }
      case TakeReport(intents, now) =>
        if Answers(loop, step) {
          AnsweringIsQuietOnlyOnTarget(HearReport(loop), intents, now);
        } else if loop.reports != [] {
          IgnoringIsQuietOnlyOnTarget(loop, answer);
          StayingSilent(loop.(reports := loop.reports[1..]));
        }
      case TakeTrade(intents, now) =>
        if loop.trades != [] {
          HeadTradeBooks(loop, loop.trades[0].instrumentId);
          AnsweringIsQuietOnlyOnTarget(BookTrade(loop), intents, now);
        }
    }
  }

  /** However the strategy changes its mind, cancels and lists orders, and however the queues
      are merged: whenever no new order and no completion is under way, every target of the
      batch with which it answered last is met. */
  lemma {:induction false} EveryQuietMomentIsOnTarget(steps: seq<Step>)
    requires Bounded(Run(steps))
    ensures QuietOnlyOnTarget(Run(steps), LastAnswer(steps))
  {
    if steps != [] {
      var init, last := steps[..|steps| - 1], steps[|steps| - 1];
      BoundedBefore(Run(init), last);
      EveryRunIsConsistent(init);
      EveryQuietMomentIsOnTarget(init);
      NextIsQuietOnlyOnTarget(Run(init), last, LastAnswer(init));
    }
  }

  /** So a loop comes to rest only on the targets the strategy asked for last, whatever was
      counted twice or not at all on the way: each position is its target. */
  lemma LoopRestsOnItsLastTargets(steps: seq<Step>, k: nat)
    requires Bounded(Run(steps)) && Drained(Run(steps)) && LastAnswer(steps).Some?
    requires k < |LastAnswer(steps).value| && LastAnswer(steps).value[k].TargetPosition?
    ensures var intent := LastAnswer(steps).value[k];
            QuantityOf(Run(steps).state.ledger.positions, intent.instrumentId) == intent.targetQuantity
  {
    EveryQuietMomentIsOnTarget(steps);
    DrainedLoopIsSettled(steps, LastAnswer(steps).value[k].instrumentId);
  }

  /** A strategy that has spoken up has answered, then or later. */
  lemma {:induction false} SpeakingUpIsAnswering(steps: seq<Step>, k: nat)
    requires k < |steps| && steps[k].SpeakUp?
    ensures LastAnswer(steps).Some?
    ensures exists j :: k <= j < |steps| && !steps[j].GatewayTakes? && steps[j].intents == LastAnswer(steps).value
  {
    if k < |steps| - 1 {
      var init := steps[..|steps| - 1];
      SpeakingUpIsAnswering(init, k);
      assert forall j :: 0 <= j < |init| ==> init[j] == steps[j];
    }
  }

  /** A strategy that answers everything with the same batch rests on that batch or not at all. */
  lemma SteadyStrategyRestsOnItsTargets(steps: seq<Step>, spoken: nat, targets: seq<Intent>)
    requires Bounded(Run(steps)) && Drained(Run(steps))
    requires spoken < |steps| && steps[spoken].SpeakUp?
    requires forall j :: 0 <= j < |steps| && !steps[j].GatewayTakes? ==> steps[j].intents == targets
    ensures forall k :: 0 <= k < |targets| && targets[k].TargetPosition? ==>
              QuantityOf(Run(steps).state.ledger.positions, targets[k].instrumentId) == targets[k].targetQuantity
  {
    SpeakingUpIsAnswering(steps, spoken);
    forall k | 0 <= k < |targets| && targets[k].TargetPosition?
      ensures QuantityOf(Run(steps).state.ledger.positions, targets[k].instrumentId) == targets[k].targetQuantity
    {
      LoopRestsOnItsLastTargets(steps, k);
    }
  }

  // ---------------------------------------------------------------------------
  // Between two settled moments

  /** The order is as it was sent, its trade is new and none of its reports has been seen. */
  ghost predicate JustSent(state: State, order: NewOrder, tradeId: u64) {
    && order.orderId in state.orders.orders
    && (exists now :: state.orders.orders[order.orderId] == PendingOrder(order, now))
    && order.orderId !in state.orders.seen
    && tradeId !in state.ledger.window
  }

  function Heard(state: State, event: GatewayEvent): State {
    match event
    case OrderReport(order) => AfterOrderEvent(state, order)
    case TradeReport(trade) => AfterTrade(state, trade)
  }

  function AllHeard(state: State, events: seq<GatewayEvent>): State {
    if events == [] then state else Heard(AllHeard(state, events[..|events| - 1]), events[|events| - 1])
  }

  lemma AnswerMovesNothing(state: State, order: NewOrder, tradeId: u64, now: u64)
    requires JustSent(state, order, tradeId) && InRange(state, TradeOf(order, tradeId, now))
    ensures var acknowledged := AfterOrderEvent(state, Acknowledged(order, now));
            var traded := AfterTrade(acknowledged, TradeOf(order, tradeId, now));
            var completed := AfterOrderEvent(traded, Completed(order, now));
            && ExactEffective(acknowledged, order.instrumentId) == ExactEffective(state, order.instrumentId)
            && ExactEffective(traded, order.instrumentId) == ExactEffective(state, order.instrumentId)
            && ExactEffective(completed, order.instrumentId) == ExactEffective(state, order.instrumentId)
  {
    var acknowledged := AfterOrderEvent(state, Acknowledged(order, now));
    var traded := AfterTrade(acknowledged, TradeOf(order, tradeId, now));
    ReportMoves(state, Acknowledged(order, now), order.instrumentId);
    TradeMoves(acknowledged, TradeOf(order, tradeId, now), order.instrumentId);
    ReportMoves(traded, Completed(order, now), order.instrumentId);
  }

  lemma AnswerFills(state: State, order: NewOrder, tradeId: u64, now: u64)
    requires JustSent(state, order, tradeId) && InRange(state, TradeOf(order, tradeId, now))
    ensures var traded := AfterTrade(AfterOrderEvent(state, Acknowledged(order, now)), TradeOf(order, tradeId, now));
            var after := AfterOrderEvent(traded, Completed(order, now));
            && order.orderId in after.orders.orders
            && after.orders.orders[order.orderId].status == OrderStatus.Filled
            && after.orders.orders[order.orderId].filledQuantity == order.quantity
            && QuantityOf(after.ledger.positions, order.instrumentId)
               == QuantityOf(state.ledger.positions, order.instrumentId) + Signed(order.side, order.quantity)
            && order.instrumentId in after.ledger.positions
            && after.orders.orders[order.orderId].timestamp == now
            && after.ledger.positions[order.instrumentId].lastUpdateNs == now
  {
  }

  lemma AllHeardLast(state: State, events: seq<GatewayEvent>, last: GatewayEvent)
    ensures AllHeard(state, events + [last]) == Heard(AllHeard(state, events), last)
  {
    assert (events + [last])[..|events|] == events;
  }

  lemma AllThreeHeard(state: State, a: GatewayEvent, b: GatewayEvent, c: GatewayEvent)
    ensures AllHeard(state, [a]) == Heard(state, a)
    ensures AllHeard(state, [a, b]) == Heard(Heard(state, a), b)
    ensures AllHeard(state, [a, b, c]) == Heard(Heard(Heard(state, a), b), c)
  {
    AllHeardLast(state, [], a);
    AllHeardLast(state, [a], b);
    AllHeardLast(state, [a, b], c);
    assert [] + [a] == [a] && [a] + [b] == [a, b] && [a, b] + [c] == [a, b, c];
  }

  /** The simulator's answer to an order, heard in the order given, moves the effective position at
      no point, and leaves the order filled and its quantity in the position. */
  lemma AnswerInOrderIsNeutral(state: State, order: NewOrder, tradeId: u64, now: u64)
    requires JustSent(state, order, tradeId) && InRange(state, TradeOf(order, tradeId, now))
    ensures var answer := Answer(SendNew(order), tradeId, now);
            var after := AllHeard(state, answer);
            && (forall k :: 0 <= k <= |answer| ==>
                  ExactEffective(AllHeard(state, answer[..k]), order.instrumentId) == ExactEffective(state, order.instrumentId))
            && order.orderId in after.orders.orders
            && after.orders.orders[order.orderId].status == OrderStatus.Filled
            && after.orders.orders[order.orderId].filledQuantity == order.quantity
            && QuantityOf(after.ledger.positions, order.instrumentId)
               == QuantityOf(state.ledger.positions, order.instrumentId) + Signed(order.side, order.quantity)
            && order.instrumentId in after.ledger.positions
            && after.orders.orders[order.orderId].timestamp == now
            && after.ledger.positions[order.instrumentId].lastUpdateNs == now
  {
    var answer := Answer(SendNew(order), tradeId, now);
    AnswerMovesNothing(state, order, tradeId, now);
    AnswerFills(state, order, tradeId, now);
    AllThreeHeard(state, answer[0], answer[1], answer[2]);
    assert answer == [answer[0], answer[1], answer[2]];
    forall k | 0 <= k <= |answer|
      ensures ExactEffective(AllHeard(state, answer[..k]), order.instrumentId) == ExactEffective(state, order.instrumentId)
    {
      assert answer[..0] == [] && answer[..1] == [answer[0]] && answer[..2] == [answer[0], answer[1]] && answer[..3] == answer;
    }
  }

  /** The simulator's answer to a cancel, if not a replay: the order is cancelled and its fill
      forgotten, whatever it was; the rest of a living order is taken back. */
  lemma CancelAnswerForgetsFill(state: State, cancel: CancelOrder, tradeId: u64, now: u64, wanted: InstrumentId)
    requires cancel.orderId in state.orders.orders
    requires AcceptsEvent(state.orders, CancelReported(cancel, now))
    ensures var order := state.orders.orders[cancel.orderId];
            var after := AllHeard(state, Answer(SendCancel(cancel), tradeId, now));
            && cancel.orderId in after.orders.orders
            && after.orders.orders[cancel.orderId] == order.(status := Cancelled, filledQuantity := 0, timestamp := now)
            && after.ledger == state.ledger
            && ExactEffective(after, wanted)
               == ExactEffective(state, wanted)
                  - if order.status in ALIVE
                    then On(order.instrumentId, wanted, Signed(order.side, SatSub(order.quantity, order.filledQuantity))) else 0
  {
    var report := CancelReported(cancel, now);
    AllThreeHeard(state, OrderReport(report), OrderReport(report), OrderReport(report));
    OverOrAlive(state.orders.orders[cancel.orderId].status);
    ReportMoves(state, report, wanted);
    if state.orders.orders[cancel.orderId].status in ALIVE {
      EndingTakesBackTheRest(state, report, wanted);
    }
  }

  /** If the trade overtakes the acknowledgement, the acknowledgement revives the order and
      counts its quantity a second time, until the completion is reported. */
  lemma TradeOvertakingAcknowledgementCountsTwice(state: State, order: NewOrder, tradeId: u64, now: u64)
    requires JustSent(state, order, tradeId) && InRange(state, TradeOf(order, tradeId, now))
    ensures var traded := AfterTrade(state, TradeOf(order, tradeId, now));
            var revived := AfterOrderEvent(traded, Acknowledged(order, now));
            var completed := AfterOrderEvent(revived, Completed(order, now));
            && ExactEffective(traded, order.instrumentId) == ExactEffective(state, order.instrumentId)
            && ExactEffective(revived, order.instrumentId)
               == ExactEffective(state, order.instrumentId) + Signed(order.side, order.quantity)
            && ExactEffective(completed, order.instrumentId) == ExactEffective(state, order.instrumentId)
  {
    var traded := AfterTrade(state, TradeOf(order, tradeId, now));
    var revived := AfterOrderEvent(traded, Acknowledged(order, now));
    TradeMoves(state, TradeOf(order, tradeId, now), order.instrumentId);
    ReportMoves(traded, Acknowledged(order, now), order.instrumentId);
    ReportMoves(revived, Completed(order, now), order.instrumentId);
  }

  /** If the completion overtakes the trade, the quantity is missing until the trade comes. */
  lemma CompletionOvertakingTradeCountsNothing(state: State, order: NewOrder, tradeId: u64, now: u64)
    requires JustSent(state, order, tradeId) && InRange(state, TradeOf(order, tradeId, now))
    ensures var acknowledged := AfterOrderEvent(state, Acknowledged(order, now));
            var completed := AfterOrderEvent(acknowledged, Completed(order, now));
            var traded := AfterTrade(completed, TradeOf(order, tradeId, now));
            && ExactEffective(acknowledged, order.instrumentId) == ExactEffective(state, order.instrumentId)
            && ExactEffective(completed, order.instrumentId)
               == ExactEffective(state, order.instrumentId) - Signed(order.side, order.quantity)
            && ExactEffective(traded, order.instrumentId) == ExactEffective(state, order.instrumentId)
  {
    var acknowledged := AfterOrderEvent(state, Acknowledged(order, now));
    var completed := AfterOrderEvent(acknowledged, Completed(order, now));
    ReportMoves(state, Acknowledged(order, now), order.instrumentId);
    ReportMoves(acknowledged, Completed(order, now), order.instrumentId);
    TradeMoves(completed, TradeOf(order, tradeId, now), order.instrumentId);
  }
}
