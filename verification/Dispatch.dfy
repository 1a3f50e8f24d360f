/** The strategy runner's wiring: which queue feeds which handler.  Data events arrive as
    untyped memory with a source id; the handlers cast it by that id alone. */
module Dispatch {
  import opened Specs
  import opened RunnerStates
  import opened Execution
  import opened ClosedLoop

  datatype OrderBook = OrderBook(instrumentId: InstrumentId, lastPrice: real, timestamp: u64)

  datatype MessageType = BookType | ReportType | TradeType | ActionType

  /** A message as it lies in memory, with the type its writer gave it. */
  datatype Message =
    | BookMessage(book: OrderBook)
    | ReportMessage(report: OrderEvent)
    | TradeMessage(trade: TradeEvent)
    | ActionMessage(action: Action)

  function TypeOf(message: Message): MessageType {
    match message
    case BookMessage(_) => BookType
    case ReportMessage(_) => ReportType
    case TradeMessage(_) => TradeType
    case ActionMessage(_) => ActionType
  }

  datatype QuoteSource = QuoteSource(instrumentId: InstrumentId, sourceId: nat)

  /** How far an attempt to connect the trade queues gets. */
  datatype TradeConnection = NoMaster | NoActionQueue | NoReportQueue | NoTradeQueue | AllConnected

  /** types[k] is the message type source k was created for. */
  datatype Wiring = Wiring(
    types: seq<MessageType>,
    quotes: seq<QuoteSource>,
    reports: Option<nat>,
    trades: Option<nat>)

  const Unwired := Wiring([], [], None, None)

  // ---------------------------------------------------------------------------
  // Connecting

  /** One subscription after another; the first that fails leaves the rest unconnected. */
  function QuotesConnected(w: Wiring, instruments: seq<InstrumentId>, connects: seq<bool>): Wiring
    requires |connects| == |instruments|
    decreases |instruments|
  {
    if instruments == [] || !connects[0] then w
    else
      QuotesConnected(w.(types := w.types + [BookType],
                         quotes := w.quotes + [QuoteSource(instruments[0], |w.types|)]),
                      instruments[1..], connects[1..])
  }

  function TradeConnected(w: Wiring, connection: TradeConnection): Wiring {
    match connection
    case NoMaster | NoActionQueue | NoReportQueue => w
    case NoTradeQueue => w.(types := w.types + [ReportType], reports := Some(|w.types|))
    case AllConnected =>
      w.(types := w.types + [ReportType, TradeType], reports := Some(|w.types|), trades := Some(|w.types| + 1))
  }

  /** Every id names a source of its handler's type, and no two handlers share a source. */
  ghost predicate WellWired(w: Wiring) {
    && (forall k :: 0 <= k < |w.quotes| ==>
          w.quotes[k].sourceId < |w.types| && w.types[w.quotes[k].sourceId] == BookType)
    && (forall j, k :: 0 <= j < k < |w.quotes| ==> w.quotes[j].sourceId < w.quotes[k].sourceId)
    && (w.reports.Some? ==> w.reports.value < |w.types| && w.types[w.reports.value] == ReportType)
    && (w.trades.Some? ==> w.trades.value < |w.types| && w.types[w.trades.value] == TradeType)
  }

  datatype Handler = QuoteHandler(instrumentId: InstrumentId) | ReportHandler | TradeHandler | Ignored

  function FindQuote(quotes: seq<QuoteSource>, sourceId: nat): (found: Option<QuoteSource>)
    ensures found.None? <==> forall k :: 0 <= k < |quotes| ==> quotes[k].sourceId != sourceId
    ensures found.Some? ==> found.value in quotes && found.value.sourceId == sourceId
  {
    if quotes == [] then None
    else if quotes[0].sourceId == sourceId then Some(quotes[0])
    else FindQuote(quotes[1..], sourceId)
  }

  /** Where a data event of this source goes. */
  function HandlerOf(w: Wiring, sourceId: nat): Handler {
    var quote := FindQuote(w.quotes, sourceId);
    if quote.Some? then QuoteHandler(quote.value.instrumentId)
    else if Some(sourceId) == w.reports then ReportHandler
    else if Some(sourceId) == w.trades then TradeHandler
    else Ignored
  }

  // ---------------------------------------------------------------------------
  // The runner

  class RapidSources {
    var types: seq<MessageType>

    constructor ()
      ensures types == []
    {
      types := [];
    }

    /** Connects a reader of the given type, if the queue is there. */
    method ReadFrom(messageType: MessageType, connects: bool) returns (sourceId: Option<nat>)
      modifies this
      ensures sourceId == if connects then Some(|old(types)|) else None
      ensures types == if connects then old(types) + [messageType] else old(types)
    {
      if !connects {
        return None;
      }
      sourceId := Some(|types|);
      types := types + [messageType];
    }
  }

  class StrategyRunner {
    const state: RunnerState
    const engine: ExecutionEngine
    const sources: RapidSources
    var quoteSources: seq<QuoteSource>
    var reportSource: Option<nat>
    var tradeSource: Option<nat>

    ghost function View(): Wiring
      reads this, sources
    {
      Wiring(sources.types, quoteSources, reportSource, tradeSource)
    }

    constructor ()
      ensures View() == Unwired && state.Valid() && state.View() == InitialState && engine.counter == 1
      ensures fresh(sources) && fresh(engine)
      ensures fresh(state.orderManager) && fresh(state.ledger) && fresh(state.ledger.fillLedger)
    {
      state := new RunnerState();
      engine := new ExecutionEngine();
      sources := new RapidSources();
      quoteSources, reportSource, tradeSource := [], None, None;
    }

    method ConnectSubscriptions(instruments: seq<InstrumentId>, connects: seq<bool>)
      requires |connects| == |instruments|
      modifies this, sources
      ensures View() == QuotesConnected(old(View()), instruments, connects)
    {
      var k := 0;
      while k < |instruments|
        invariant 0 <= k <= |instruments|
        invariant reportSource == old(reportSource) && tradeSource == old(tradeSource)
        invariant QuotesConnected(View(), instruments[k..], connects[k..])
               == QuotesConnected(old(View()), instruments, connects)
      {
        var sourceId := sources.ReadFrom(BookType, connects[k]);
        if sourceId.None? {
          return;
        }
        quoteSources := quoteSources + [QuoteSource(instruments[k], sourceId.value)];
        assert instruments[k..][1..] == instruments[k + 1..] && connects[k..][1..] == connects[k + 1..];
        k := k + 1;
      }
    }

    method ConnectTrade(connection: TradeConnection)
      modifies this, sources
      ensures View() == TradeConnected(old(View()), connection)
    {
      if connection == NoMaster || connection == NoActionQueue {
        return;
      }
      var reportId := sources.ReadFrom(ReportType, connection != NoReportQueue);
      if reportId.None? {
        return;
      }
      reportSource := reportId;
      var tradeId := sources.ReadFrom(TradeType, connection != NoTradeQueue);
      if tradeId.None? {
        return;
      }
      tradeSource := tradeId;
      assert old(sources.types) + [ReportType] + [TradeType] == old(sources.types) + [ReportType, TradeType];
    }

    method ApplyActions(now: u64, actions: seq<Action>)
      requires state.Valid()
      modifies state.orderManager
      ensures state.Valid() && state.View() == AfterActions(old(state.View()), actions, now)
    {
      for k := 0 to |actions|
        invariant state.Valid() && state.View() == AfterActions(old(state.View()), actions[..k], now)
      {
        assert actions[..k + 1][..k] == actions[..k];
        state.OnActionSent(actions[k], now);
      }
      assert actions[..|actions|] == actions;
    }

    /** Executes what the strategy answered and records it. */
    method Answer(intents: seq<Intent>, now: u64) returns (actions: seq<Action>)
      requires state.Valid()
      modifies state.orderManager, engine
      ensures state.Valid()
      ensures Reaction(state.View(), engine.counter, actions)
           == Decide(old(state.View()), old(engine.counter), intents, now)
    {
      actions := engine.Execute(intents, state, now);
      ApplyActions(now, actions);
    }

    /** message is the memory the event points at; its type is the one its source was
        created for.  Each destructor below is a cast that must find its own type. */
    method HandleDataEvent(sourceId: nat, message: Message, intents: seq<Intent>, now: u64)
      returns (actions: seq<Action>)
      requires state.Valid() && WellWired(View())
      requires sourceId < |sources.types| && TypeOf(message) == sources.types[sourceId]
      modifies state.orderManager, state.ledger, state.ledger.fillLedger, engine
      ensures state.Valid()
      ensures var before, counter := old(state.View()), old(engine.counter);
              Reaction(state.View(), engine.counter, actions)
              == match HandlerOf(View(), sourceId)
                 case QuoteHandler(instrumentId) =>
                   if message.book.instrumentId == instrumentId then Decide(before, counter, intents, now)
                   else Reaction(before, counter, [])
                 case ReportHandler => OnOrderEvent(before, counter, message.report, intents, now)
                 case TradeHandler => OnTradeEvent(before, counter, message.trade, intents, now)
                 case Ignored => Reaction(before, counter, [])
    {
      actions := [];
      var quote := FindQuote(quoteSources, sourceId);
      if quote.Some? {
        var book := message.book;
        if book.instrumentId != quote.value.instrumentId {
          return;
        }
        actions := Answer(intents, now);
        return;
      }
      if Some(sourceId) == reportSource {
        var applied := state.ApplyOrderEvent(message.report);
        if !applied {
          return;
        }
        actions := Answer(intents, now);
        return;
      }
      if Some(sourceId) == tradeSource {
        var applied := state.ApplyTradeEvent(message.trade);
        if !applied {
          return;
        }
        actions := Answer(intents, now);
      }
    }
  }

  // ---------------------------------------------------------------------------
  // Every reachable wiring

  datatype WiringStep =
    | ConnectQuotes(instruments: seq<InstrumentId>, connects: seq<bool>)
    | ConnectTrades(connection: TradeConnection)
    | OtherReader(messageType: MessageType)

  function Rewired(w: Wiring, step: WiringStep): Wiring {
    match step
    case ConnectQuotes(instruments, connects) =>
      if |connects| == |instruments| then QuotesConnected(w, instruments, connects) else w
    case ConnectTrades(connection) => TradeConnected(w, connection)
    case OtherReader(messageType) => w.(types := w.types + [messageType])
  }

  function WiringAfter(steps: seq<WiringStep>): Wiring {
    if steps == [] then Unwired else Rewired(WiringAfter(steps[..|steps| - 1]), steps[|steps| - 1])
  }

  lemma {:induction false} QuotesKeepWellWired(w: Wiring, instruments: seq<InstrumentId>, connects: seq<bool>)
    requires |connects| == |instruments| && WellWired(w)
    ensures WellWired(QuotesConnected(w, instruments, connects))
    ensures w.types <= QuotesConnected(w, instruments, connects).types
    decreases |instruments|
  {
    if instruments != [] && connects[0] {
      var next := w.(types := w.types + [BookType], quotes := w.quotes + [QuoteSource(instruments[0], |w.types|)]);
      QuotesKeepWellWired(next, instruments[1..], connects[1..]);
    }
  }

  lemma RewiringKeepsWellWired(w: Wiring, step: WiringStep)
    requires WellWired(w)
    ensures WellWired(Rewired(w, step)) && w.types <= Rewired(w, step).types
  {
    match step {
      case ConnectQuotes(instruments, connects) =>
        if |connects| == |instruments| {
          QuotesKeepWellWired(w, instruments, connects);
        }
      case ConnectTrades(_) =>
      case OtherReader(_) =>
    }
  }

  /** After any sequence of connects, reconnects and failures, the wiring is sound, and
      sources keep the id and type they were created with. */
  lemma {:induction false} EveryWiringIsSound(steps: seq<WiringStep>)
    ensures WellWired(WiringAfter(steps))
    ensures steps != [] ==> WiringAfter(steps[..|steps| - 1]).types <= WiringAfter(steps).types
  {
    if steps != [] {
      EveryWiringIsSound(steps[..|steps| - 1]);
      RewiringKeepsWellWired(WiringAfter(steps[..|steps| - 1]), steps[|steps| - 1]);
    }
  }

  function CastOf(handler: Handler): Option<MessageType> {
    match handler
    case QuoteHandler(_) => Some(BookType)
    case ReportHandler => Some(ReportType)
    case TradeHandler => Some(TradeType)
    case Ignored => None
  }

  /** In every reachable wiring a handler casts an event to the very type its source was
      created for, and an event is handled iff its source is currently connected: one left
      behind by a reconnect is ignored. */
  lemma DispatchIsTypeSound(steps: seq<WiringStep>, sourceId: nat)
    requires sourceId < |WiringAfter(steps).types|
    ensures var w := WiringAfter(steps);
            var handler := HandlerOf(w, sourceId);
            && (handler != Ignored ==> CastOf(handler) == Some(w.types[sourceId]))
            && (handler == Ignored <==>
                  (forall k :: 0 <= k < |w.quotes| ==> w.quotes[k].sourceId != sourceId)
                  && w.reports != Some(sourceId) && w.trades != Some(sourceId))
  {
    EveryWiringIsSound(steps);
  }

  /** The current report, trade and quote sources are pairwise distinct, also after any
      number of reconnects. */
  lemma SourcesAreDistinct(steps: seq<WiringStep>)
    ensures var w := WiringAfter(steps);
            && (w.reports.Some? ==> w.reports != w.trades)
            && (forall k :: 0 <= k < |w.quotes| ==>
                  Some(w.quotes[k].sourceId) != w.reports && Some(w.quotes[k].sourceId) != w.trades)
            && (forall j, k :: 0 <= j < k < |w.quotes| ==> w.quotes[j].sourceId != w.quotes[k].sourceId)
  {
    EveryWiringIsSound(steps);
  }

  /** How many connects succeed before the first that fails. */
  function Reached(connects: seq<bool>): (n: nat)
    ensures n <= |connects|
    ensures n < |connects| ==> !connects[n]
    ensures forall j :: 0 <= j < n ==> connects[j]
  {
    if connects == [] || !connects[0] then 0 else 1 + Reached(connects[1..])
  }

  /** Quotes k on are for the instruments in turn, from the sources from first on in turn. */
  ghost predicate InTurn(quotes: seq<QuoteSource>, k: nat, instruments: seq<InstrumentId>, first: nat)
    requires |quotes| - k <= |instruments|
  {
    forall m :: k <= m < |quotes| ==> quotes[m] == QuoteSource(instruments[m - k], first + (m - k))
  }

  /** The subscriptions before the first failure get the next sources, in order; all that was
      connected before stays. */
  lemma {:induction false} QuotesConnectInOrder(w: Wiring, instruments: seq<InstrumentId>, connects: seq<bool>)
    requires |connects| == |instruments|
    ensures var after, n := QuotesConnected(w, instruments, connects), Reached(connects);
            && after.reports == w.reports && after.trades == w.trades
            && w.types <= after.types && |after.types| == |w.types| + n
            && (forall m :: |w.types| <= m < |after.types| ==> after.types[m] == BookType)
            && w.quotes <= after.quotes && |after.quotes| == |w.quotes| + n
            && InTurn(after.quotes, |w.quotes|, instruments, |w.types|)
    decreases |instruments|
  {
    if instruments != [] && connects[0] {
      var next := w.(types := w.types + [BookType], quotes := w.quotes + [QuoteSource(instruments[0], |w.types|)]);
      var after := QuotesConnected(w, instruments, connects);
      QuotesConnectInOrder(next, instruments[1..], connects[1..]);
      assert after.types[|w.types|] == next.types[|w.types|];
      assert after.quotes[|w.quotes|] == next.quotes[|w.quotes|];
      forall m | |w.quotes| <= m < |after.quotes|
        ensures after.quotes[m] == QuoteSource(instruments[m - |w.quotes|], |w.types| + (m - |w.quotes|))
      {
        if m > |w.quotes| {
          assert instruments[1..][m - |next.quotes|] == instruments[m - |w.quotes|];
        }
      }
    }
  }

  lemma QuoteIsFound(w: Wiring, k: nat)
    requires WellWired(w) && k < |w.quotes|
    ensures HandlerOf(w, w.quotes[k].sourceId) == QuoteHandler(w.quotes[k].instrumentId)
  {
    var found := FindQuote(w.quotes, w.quotes[k].sourceId);
    var j :| 0 <= j < |w.quotes| && w.quotes[j] == found.value;
  }

  lemma NoQuoteIsFound(w: Wiring, sourceId: nat)
    requires forall k :: 0 <= k < |w.quotes| ==> w.quotes[k].sourceId != sourceId
    ensures HandlerOf(w, sourceId) == if Some(sourceId) == w.reports then ReportHandler
                                      else if Some(sourceId) == w.trades then TradeHandler else Ignored
  {
  }

  /** after has more quote sources than w, for the instruments in turn, and is else the same. */
  ghost predicate MoreQuotes(w: Wiring, after: Wiring, instruments: seq<InstrumentId>, n: nat) {
    && n <= |instruments|
    && after.reports == w.reports && after.trades == w.trades
    && w.quotes <= after.quotes && |after.quotes| == |w.quotes| + n
    && InTurn(after.quotes, |w.quotes|, instruments, |w.types|)
  }

  lemma MoreQuotesAreHeard(w: Wiring, after: Wiring, instruments: seq<InstrumentId>, n: nat, sourceId: nat)
    requires WellWired(after) && MoreQuotes(w, after, instruments, n) && |w.types| <= sourceId < |w.types| + n
    ensures HandlerOf(after, sourceId) == QuoteHandler(instruments[sourceId - |w.types|])
  {
    QuoteIsFound(after, |w.quotes| + (sourceId - |w.types|));
  }

  lemma OldSourcesStay(w: Wiring, after: Wiring, instruments: seq<InstrumentId>, n: nat, sourceId: nat)
    requires WellWired(w) && WellWired(after) && MoreQuotes(w, after, instruments, n)
    requires !(|w.types| <= sourceId < |w.types| + n)
    ensures HandlerOf(after, sourceId) == HandlerOf(w, sourceId)
  {
    if k :| 0 <= k < |w.quotes| && w.quotes[k].sourceId == sourceId {
      QuoteIsFound(w, k);
      QuoteIsFound(after, k);
    } else {
      NoQuoteIsFound(w, sourceId);
      NoQuoteIsFound(after, sourceId);
    }
  }

  /** After subscribing, books from each new source go to the quote handler of its own
      instrument, and events of the sources there were go where they went. */
  lemma SubscriptionsAreHeard(w: Wiring, instruments: seq<InstrumentId>, connects: seq<bool>, sourceId: nat)
    requires |connects| == |instruments| && WellWired(w)
    ensures HandlerOf(QuotesConnected(w, instruments, connects), sourceId)
         == if |w.types| <= sourceId < |w.types| + Reached(connects) then QuoteHandler(instruments[sourceId - |w.types|])
            else HandlerOf(w, sourceId)
  {
    var after := QuotesConnected(w, instruments, connects);
    QuotesConnectInOrder(w, instruments, connects);
    QuotesKeepWellWired(w, instruments, connects);
    if |w.types| <= sourceId < |w.types| + Reached(connects) {
      MoreQuotesAreHeard(w, after, instruments, Reached(connects), sourceId);
    } else {
      OldSourcesStay(w, after, instruments, Reached(connects), sourceId);
    }
  }

  /** An attempt to connect the trade queues that gets to the report queue makes its source the
      only one of reports, and one that gets to the trade queue makes the next the only one of
      trades; the sources they replace are ignored from then on, all others stay. */
  lemma TradeQueuesTakeOver(w: Wiring, connection: TradeConnection, sourceId: nat)
    requires WellWired(w)
    ensures var before := HandlerOf(w, sourceId);
            var newReports, newTrades := connection == NoTradeQueue || connection == AllConnected, connection == AllConnected;
            HandlerOf(TradeConnected(w, connection), sourceId)
            == if newReports && sourceId == |w.types| then ReportHandler
               else if newTrades && sourceId == |w.types| + 1 then TradeHandler
               else if (newReports && before == ReportHandler) || (newTrades && before == TradeHandler) then Ignored
               else before
  {
  }
}
