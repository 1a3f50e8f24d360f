/** Replayed events: order reports are remembered for ever, trades for the last
    10,000 accepted, and what is remembered has no effect when it comes again. */
module Replays {
  import opened Specs
  import opened Fills
  import opened Ledgers
  import opened Orders
  import opened RunnerStates
  import opened Conservation

  function TradeIds(run: seq<Happening>): seq<u64> {
    if run == [] then []
    else
      TradeIds(run[..|run| - 1])
      + match run[|run| - 1] case Traded(trade) => [trade.tradeId] case _ => []
  }

  /** The report says of the order what an earlier report already said, whatever its price
      and timestamp. */
  predicate SameReport(a: Happening, b: Happening) {
    && a.Told? && b.Told?
    && a.event.orderId == b.event.orderId
    && a.event.status == b.event.status
    && a.event.filledQuantity == b.event.filledQuantity
    && a.event.remainingQuantity == b.event.remainingQuantity
  }

  ghost predicate HeardBefore(run: seq<Happening>, report: Happening) {
    exists j :: 0 <= j < |run| && SameReport(run[j], report)
  }

  /** After the run, this happening is a replay the runner still remembers. */
  ghost predicate IsReplay(run: seq<Happening>, happening: Happening) {
    match happening
    case Sent(_, _) => false
    case Told(_) => HeardBefore(run, happening)
    case Traded(trade) => AmongLast(Accepted(TradeIds(run), 10_000), 10_000, trade.tradeId)
  }

  function StateAfter(run: seq<Happening>): State {
    AfterAll(InitialState, run)
  }

  lemma {:induction false} RunWindow(run: seq<Happening>)
    ensures StateAfter(run).ledger.window == WindowAfter(TradeIds(run), DEFAULT_FILL_WINDOW)
  {
    if run != [] {
      RunWindow(run[..|run| - 1]);
      if run[|run| - 1].Traded? {
        assert TradeIds(run)[..|TradeIds(run)| - 1] == TradeIds(run[..|run| - 1]);
      } else {
        assert TradeIds(run) == TradeIds(run[..|run| - 1]);
      }
    }
  }

  lemma {:induction false} SeenIffHeard(run: seq<Happening>, event: OrderEvent)
    ensures Seen(StateAfter(run).orders, event.orderId, KeyOf(event)) <==> HeardBefore(run, Told(event))
  {
    if run != [] {
      var before, last := run[..|run| - 1], run[|run| - 1];
      SeenIffHeard(before, event);
      if HeardBefore(before, Told(event)) {
        var j :| 0 <= j < |before| && SameReport(before[j], Told(event));
        assert SameReport(run[j], Told(event));
      } else if SameReport(last, Told(event)) {
        assert SameReport(run[|run| - 1], Told(event));
      }
    }
  }

  lemma RememberIsNew(window: seq<u64>, maxSize: nat, tradeId: u64)
    requires tradeId !in window && maxSize > 0
    ensures tradeId in Remember(window, maxSize, tradeId)
  {
    var remembered := Remember(window, maxSize, tradeId);
    assert remembered[|remembered| - 1] == tradeId;
  }

  /** Exactly the remembered replays are without effect: a report or trade leaves the whole
      state as it was iff it repeats a report ever heard, or one of the last 10,000 accepted
      trades. */
  lemma EventIsIgnoredIffReplay(run: seq<Happening>, happening: Happening)
    requires !happening.Sent?
    ensures After(StateAfter(run), happening) == StateAfter(run) <==> IsReplay(run, happening)
  {
    var state := StateAfter(run);
    match happening {
      case Told(event) =>
        SeenIffHeard(run, event);
        if !Seen(state.orders, event.orderId, KeyOf(event)) {
          assert Seen(After(state, happening).orders, event.orderId, KeyOf(event));
        }
      case Traded(trade) =>
        RunWindow(run);
        TurnedAwayIffRecent(TradeIds(run), DEFAULT_FILL_WINDOW, trade.tradeId);
        if trade.tradeId !in state.ledger.window {
          RememberIsNew(state.ledger.window, DEFAULT_FILL_WINDOW, trade.tradeId);
        }
    }
  }

  /** noisy is clean with remembered replays inserted anywhere. */
  ghost predicate WithReplays(clean: seq<Happening>, noisy: seq<Happening>) {
    if noisy == [] then clean == []
    else
      (IsReplay(noisy[..|noisy| - 1], noisy[|noisy| - 1]) && WithReplays(clean, noisy[..|noisy| - 1]))
      || (clean != [] && clean[|clean| - 1] == noisy[|noisy| - 1]
          && WithReplays(clean[..|clean| - 1], noisy[..|noisy| - 1]))
  }

  /** Any number of replays anywhere in a run leave no trace in the state it reaches. */
  lemma {:induction false} ReplaysLeaveNoTrace(clean: seq<Happening>, noisy: seq<Happening>)
    requires WithReplays(clean, noisy)
    ensures StateAfter(noisy) == StateAfter(clean)
    decreases |noisy|
  {
    if noisy != [] {
      var before, last := noisy[..|noisy| - 1], noisy[|noisy| - 1];
      if IsReplay(before, last) && WithReplays(clean, before) {
        ReplaysLeaveNoTrace(clean, before);
        EventIsIgnoredIffReplay(before, last);
      } else {
        ReplaysLeaveNoTrace(clean[..|clean| - 1], before);
      }
    }
  }
}
