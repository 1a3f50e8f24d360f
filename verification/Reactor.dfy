/** The reactor: one event per poll, by priority, with one-shot timers looked at only on
    every thousandth poll that found nothing else to do. */
module Reactor {
  import opened Specs
  import StrategyTimers

  const CONTROL_POLL_INTERVAL: u64 := 1000

  datatype TimerEntry = TimerEntry(timerId: u64, dueNs: u64)

  datatype Event = Data(sourceId: nat) | External | Control | Timer(timerId: u64) | Shutdown

  /** What the sources have to offer when they are polled. */
  datatype Offer = Offer(
    shutdown: bool,
    rapid: seq<bool>,
    external: bool,
    control: bool,
    listenerUp: bool,
    controlSocket: bool)

  datatype Core = Core(pollCount: u64, timers: seq<TimerEntry>)

  datatype Polled = Polled(event: Option<Event>, core: Core)

  /** The first source with a message, or |rapid| if there is none. */
  function FirstReady(rapid: seq<bool>): (k: nat)
    ensures k <= |rapid|
    ensures k < |rapid| ==> rapid[k]
    ensures forall j :: 0 <= j < k ==> !rapid[j]
  {
    if rapid == [] || rapid[0] then 0 else 1 + FirstReady(rapid[1..])
  }

  function FirstDue(timers: seq<TimerEntry>, now: u64): (k: nat)
    ensures k <= |timers|
    ensures k < |timers| ==> timers[k].dueNs <= now
    ensures forall j :: 0 <= j < k ==> timers[j].dueNs > now
  {
    if timers == [] || timers[0].dueNs <= now then 0 else 1 + FirstDue(timers[1..], now)
  }

  function WithoutFirstDue(timers: seq<TimerEntry>, now: u64): seq<TimerEntry> {
    var k := FirstDue(timers, now);
    if k < |timers| then StrategyTimers.SwapRemove(timers, k) else timers
  }

  /** One look at the timers: at most one fires. */
  function TimersExamined(core: Core, now: u64): Polled {
    var k := FirstDue(core.timers, now);
    Polled(if k < |core.timers| then Some(Timer(core.timers[k].timerId)) else None,
           core.(timers := WithoutFirstDue(core.timers, now)))
  }

  function PollStep(core: Core, offer: Offer, now: u64): Polled {
    if offer.shutdown then Polled(Some(Shutdown), core)
    else if FirstReady(offer.rapid) < |offer.rapid| then Polled(Some(Data(FirstReady(offer.rapid))), core)
    else if offer.external then Polled(Some(External), core)
    else if offer.control then Polled(Some(Control), core)
    else
      var counted := core.(pollCount := Bump(core.pollCount));
      if counted.pollCount % CONTROL_POLL_INTERVAL != 0 then Polled(None, counted)
      else if !offer.listenerUp && offer.controlSocket then Polled(Some(Control), counted)
      else TimersExamined(counted, now)
  }

  class OneShotTimers {
    var timers: seq<TimerEntry>

    constructor ()
      ensures timers == []
    {
      timers := [];
    }

    method AddTimer(timerId: u64, dueNs: u64)
      modifies this
      ensures timers == old(timers) + [TimerEntry(timerId, dueNs)]
    {
      timers := timers + [TimerEntry(timerId, dueNs)];
    }

    method PollDue(now: u64) returns (fired: Option<u64>)
      modifies this
      ensures timers == WithoutFirstDue(old(timers), now)
      ensures var k := FirstDue(old(timers), now);
              fired == if k < |old(timers)| then Some(old(timers)[k].timerId) else None
    {
      var index: Option<nat> := None;
      for k := 0 to |timers|
        invariant index.None? && forall j :: 0 <= j < k ==> timers[j].dueNs > now
      {
        if timers[k].dueNs <= now {
          index := Some(k);
          break;
        }
      }
      if index.Some? {
        fired := Some(timers[index.value].timerId);
        timers := StrategyTimers.SwapRemove(timers, index.value);
        return;
      }
      return None;
    }
  }

  class Reactor {
    const timers: OneShotTimers
    var pollCount: u64

    ghost function View(): Core
      reads this, timers
    {
      Core(pollCount, timers.timers)
    }

    constructor ()
      ensures View() == Core(0, []) && fresh(timers)
    {
      timers := new OneShotTimers();
      pollCount := 0;
    }

    method AddTimer(timerId: u64, dueNs: u64)
      modifies timers
      ensures View() == old(View()).(timers := old(View()).timers + [TimerEntry(timerId, dueNs)])
    {
      timers.AddTimer(timerId, dueNs);
    }

    method Poll(offer: Offer, now: u64) returns (event: Option<Event>)
      modifies this, timers
      ensures Polled(event, View()) == PollStep(old(View()), offer, now)
    {
      if offer.shutdown {
        return Some(Shutdown);
      }
      for k := 0 to |offer.rapid|
        invariant View() == old(View())
        invariant forall j :: 0 <= j < k ==> !offer.rapid[j]
      {
        if offer.rapid[k] {
          return Some(Data(k));
        }
      }
      if offer.external {
        return Some(External);
      }
      if offer.control {
        return Some(Control);
      }
      pollCount := Bump(pollCount);
      if pollCount % CONTROL_POLL_INTERVAL == 0 {
        if !offer.listenerUp {
          if offer.controlSocket {
            return Some(Control);
          }
        }
        var fired := timers.PollDue(now);
        if fired.Some? {
          return Some(Timer(fired.value));
        }
      }
      return None;
    }
  }

  // ---------------------------------------------------------------------------
  // Priority

  /** The event is there to be taken. */
  predicate Available(offer: Offer, event: Event) {
    match event
    case Shutdown => offer.shutdown
    case Data(sourceId) => sourceId < |offer.rapid| && offer.rapid[sourceId]
    case External => offer.external
    case Control => offer.control
    case Timer(_) => false
  }

  /** Shutting down comes first, then data by source id, then the rest. */
  function Urgency(offer: Offer, event: Event): nat {
    match event
    case Shutdown => 0
    case Data(sourceId) => 1 + sourceId
    case External => 1 + |offer.rapid|
    case Control => 2 + |offer.rapid|
    case Timer(_) => 3 + |offer.rapid|
  }

  /** A poll takes the most urgent event there is, and does nothing else. */
  lemma PollTakesMostUrgent(core: Core, offer: Offer, now: u64, available: Event)
    requires Available(offer, available)
    ensures var polled := PollStep(core, offer, now);
            && polled.core == core
            && polled.event.Some? && Available(offer, polled.event.value)
            && Urgency(offer, polled.event.value) <= Urgency(offer, available)
  {
  }

  ghost predicate NothingAvailable(offer: Offer) {
    forall event :: !Available(offer, event)
  }

  /** With nothing there a poll counts itself; only each thousandth looks further, at the control
      socket if no listener is up for it, else at the timers, of which it takes the first due. */
  lemma IdlePollLooksFurther(core: Core, offer: Offer, now: u64)
    requires NothingAvailable(offer)
    ensures var polled := PollStep(core, offer, now);
            && polled.core.pollCount == CountAfter(core.pollCount, 1)
            && if polled.core.pollCount % 1000 != 0 then polled.event.None? && polled.core.timers == core.timers
               else if !offer.listenerUp && offer.controlSocket then
                 polled.event == Some(Control) && polled.core.timers == core.timers
               else if forall k :: 0 <= k < |core.timers| ==> core.timers[k].dueNs > now then
                 polled.event.None? && polled.core.timers == core.timers
               else exists k :: 0 <= k < |core.timers| && core.timers[k].dueNs <= now
                             && (forall j :: 0 <= j < k ==> core.timers[j].dueNs > now)
                             && polled.event == Some(Timer(core.timers[k].timerId))
                             && polled.core.timers == StrategyTimers.SwapRemove(core.timers, k)
  {
    assert !Available(offer, Shutdown) && !Available(offer, External) && !Available(offer, Control);
    assert !Available(offer, Data(FirstReady(offer.rapid)));
    BumpIsCountAfter(core.pollCount, 0);
  }

  // ---------------------------------------------------------------------------
  // Timers over any run

  datatype Call = Add(timerId: u64, dueNs: u64) | PollOnce(offer: Offer, now: u64)

  datatype Trace = Trace(core: Core, added: seq<TimerEntry>, fired: seq<TimerEntry>)

  /** The poll gets as far as the timers. */
  predicate Examines(core: Core, offer: Offer) {
    Idle(offer) && Bump(core.pollCount) % CONTROL_POLL_INTERVAL == 0
  }

  /** The timer entry a poll consumes, if any. */
  function Consumed(core: Core, offer: Offer, now: u64): seq<TimerEntry> {
    if Examines(core, offer) then FirstDueEntry(core.timers, now) else []
  }

  function FirstDueEntry(timers: seq<TimerEntry>, now: u64): seq<TimerEntry> {
    var k := FirstDue(timers, now);
    if k < |timers| then [timers[k]] else []
  }

  function Extended(trace: Trace, call: Call): Trace {
    match call
    case Add(timerId, dueNs) =>
      var entry := TimerEntry(timerId, dueNs);
      Trace(trace.core.(timers := trace.core.timers + [entry]), trace.added + [entry], trace.fired)
    case PollOnce(offer, now) =>
      Trace(PollStep(trace.core, offer, now).core, trace.added, trace.fired + Consumed(trace.core, offer, now))
  }

  function TraceOf(start: u64, calls: seq<Call>): Trace {
    if calls == [] then Trace(Core(start, []), [], [])
    else Extended(TraceOf(start, calls[..|calls| - 1]), calls[|calls| - 1])
  }

  lemma LookTakesFirstDue(timers: seq<TimerEntry>, now: u64)
    ensures multiset(timers) == multiset(WithoutFirstDue(timers, now)) + multiset(FirstDueEntry(timers, now))
    ensures |timers| == |WithoutFirstDue(timers, now)| + |FirstDueEntry(timers, now)|
  {
    var k := FirstDue(timers, now);
    if k < |timers| {
      StrategyTimers.SwapRemoveTakesOne(timers, k);
      assert timers[k] in multiset(timers);
    }
  }

  /** A timer event is the firing of one entry that was due, and only such a poll touches
      the timers. */
  lemma PollConsumesWhatItReports(core: Core, offer: Offer, now: u64)
    ensures multiset(core.timers)
         == multiset(PollStep(core, offer, now).core.timers) + multiset(Consumed(core, offer, now))
    ensures forall id: u64 ::
              PollStep(core, offer, now).event == Some(Timer(id))
              <==> var consumed := Consumed(core, offer, now);
                   |consumed| == 1 && consumed[0].timerId == id && consumed[0].dueNs <= now
  {
    LookTakesFirstDue(core.timers, now);
  }

  /** Every timer ever added has either fired, exactly once, or is still waiting. */
  lemma {:induction false} EachTimerFiresOnce(start: u64, calls: seq<Call>)
    ensures var trace := TraceOf(start, calls);
            multiset(trace.added) == multiset(trace.fired) + multiset(trace.core.timers)
  {
    if calls != [] {
      var before := TraceOf(start, calls[..|calls| - 1]);
      EachTimerFiresOnce(start, calls[..|calls| - 1]);
      match calls[|calls| - 1] {
        case Add(_, _) =>
        case PollOnce(offer, now) => PollConsumesWhatItReports(before.core, offer, now);
      }
    }
  }

  // ---------------------------------------------------------------------------
  // Idle polls

  /** Nothing to do: no message anywhere, and no control socket read in line. */
  predicate Idle(offer: Offer) {
    && !offer.shutdown && !offer.external && !offer.control
    && FirstReady(offer.rapid) == |offer.rapid|
    && (offer.listenerUp || !offer.controlSocket)
  }

  function IdlePoll(core: Core, now: u64): Core {
    var count := Bump(core.pollCount);
    Core(count, if count % CONTROL_POLL_INTERVAL == 0 then WithoutFirstDue(core.timers, now) else core.timers)
  }

  lemma IdlePollIsPoll(core: Core, offer: Offer, now: u64)
    requires Idle(offer)
    ensures PollStep(core, offer, now).core == IdlePoll(core, now)
  {
  }

  /** The core after idle polls at the given times. */
  function IdleRun(core: Core, clocks: seq<u64>): Core {
    if clocks == [] then core else IdlePoll(IdleRun(core, clocks[..|clocks| - 1]), clocks[|clocks| - 1])
  }

  lemma {:induction false} IdleRunCounts(core: Core, clocks: seq<u64>)
    ensures IdleRun(core, clocks).pollCount == CountAfter(core.pollCount, |clocks|)
  {
    if clocks != [] {
      IdleRunCounts(core, clocks[..|clocks| - 1]);
      BumpIsCountAfter(core.pollCount, |clocks| - 1);
    }
  }

  function Examinations(count: u64, n: nat): nat {
    if n == 0 then 0
    else Examinations(count, n - 1) + if CountAfter(count, n) % CONTROL_POLL_INTERVAL == 0 then 1 else 0
  }

  /** Every 1000 consecutive idle polls examine the timers at least once, even when the
      64-bit counter wraps among them. */
  lemma EveryThousandExamines(count: u64)
    ensures exists k :: 1 <= k <= 1000 && CountAfter(count, k) % CONTROL_POLL_INTERVAL == 0
  {
    var k := 1000 - count % 1000;
    if count + k < TWO_64 {
      assert (count + k) % 1000 == 0;
      assert CountAfter(count, k) % CONTROL_POLL_INTERVAL == 0;
    } else {
      var wrap := TWO_64 - count;
      assert 1 <= wrap <= 1000;
      assert CountAfter(count, wrap) == 0;
      assert CountAfter(count, wrap) % CONTROL_POLL_INTERVAL == 0;
    }
  }

  lemma {:induction false} ExaminationsAdd(count: u64, m: nat, n: nat)
    ensures Examinations(count, m + n) == Examinations(count, m) + Examinations(CountAfter(count, m), n)
    decreases n
  {
    if n > 0 {
      ExaminationsAdd(count, m, n - 1);
      CountAfterAdds(count, m, n);
    }
  }

  lemma {:induction false} ExaminationsGrow(count: u64, k: nat, n: nat)
    requires k <= n
    ensures Examinations(count, k) <= Examinations(count, n)
    decreases n
  {
    if k < n {
      ExaminationsGrow(count, k, n - 1);
    }
  }

  /** In 1000 * blocks idle polls the timers are examined at least blocks times. */
  lemma {:induction false} ExaminationsPerThousand(count: u64, blocks: nat)
    ensures Examinations(count, 1000 * blocks) >= blocks
  {
    if blocks > 0 {
      var before := 1000 * (blocks - 1);
      ExaminationsPerThousand(count, blocks - 1);
      ExaminationsAdd(count, before, 1000);
      EveryThousandExamines(CountAfter(count, before));
      var k :| 1 <= k <= 1000 && CountAfter(CountAfter(count, before), k) % CONTROL_POLL_INTERVAL == 0;
      ExaminationsGrow(CountAfter(count, before), k, 1000);
    }
  }
}
