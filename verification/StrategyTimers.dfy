/** The strategy's periodic timers. */
module StrategyTimers {
  import opened Specs

  datatype TimerState = TimerState(id: u64, intervalNs: u64, nextFireNs: u64)

  datatype TimerEvent = TimerEvent(timerId: u64, timestamp: u64)

  datatype Timers = Timers(nextId: u64, timers: seq<TimerState>)

  const NoTimers := Timers(0, [])

  /** Vec::swap_remove: the last element takes the place of the one removed. */
  function SwapRemove<T>(s: seq<T>, k: nat): seq<T>
    requires k < |s|
  {
    if k == |s| - 1 then s[..k] else s[..k] + [s[|s| - 1]] + s[k + 1..|s| - 1]
  }

  /** Every other element stays where it was, but for the last, which fills the gap. */
  lemma SwapRemoveAt<T>(s: seq<T>, k: nat, j: nat)
    requires k < |s| && j < |s| - 1
    ensures |SwapRemove(s, k)| == |s| - 1
    ensures SwapRemove(s, k)[j] == if j == k then s[|s| - 1] else s[j]
  {
  }

  lemma SwapRemoveTakesOne<T>(s: seq<T>, k: nat)
    requires k < |s|
    ensures multiset(SwapRemove(s, k)) == multiset(s) - multiset{s[k]}
  {
    if k == |s| - 1 {
      assert s == s[..k] + [s[k]];
    } else {
      assert s == s[..k] + [s[k]] + s[k + 1..|s| - 1] + [s[|s| - 1]];
    }
  }

  predicate Due(timer: TimerState, now: u64) {
    now >= timer.nextFireNs
  }

  function Rearmed(timer: TimerState, now: u64): TimerState {
    if Due(timer, now) then timer.(nextFireNs := SatAdd(now, timer.intervalNs)) else timer
  }

  function IndexOf(timers: seq<TimerState>, id: u64): (k: nat)
    ensures k <= |timers|
    ensures k < |timers| ==> timers[k].id == id
    ensures forall j :: 0 <= j < k ==> timers[j].id != id
  {
    if timers == [] || timers[0].id == id then 0 else 1 + IndexOf(timers[1..], id)
  }

  function AfterSet(t: Timers, interval: u64, now: u64): Timers {
    Timers(Bump(t.nextId), t.timers + [TimerState(t.nextId, interval, SatAdd(now, interval))])
  }

  function AfterCancel(t: Timers, id: u64): Timers {
    var k := IndexOf(t.timers, id);
    if k < |t.timers| then t.(timers := SwapRemove(t.timers, k)) else t
  }

  /** The ids of the due timers, in list order. */
  function DueIds(timers: seq<TimerState>, now: u64): seq<u64> {
    if timers == [] then []
    else
      DueIds(timers[..|timers| - 1], now)
      + if Due(timers[|timers| - 1], now) then [timers[|timers| - 1].id] else []
  }

  ghost predicate EventsOf(events: seq<TimerEvent>, ids: seq<u64>, now: u64) {
    |events| == |ids| && forall k :: 0 <= k < |ids| ==> events[k] == TimerEvent(ids[k], now)
  }

  function AfterDue(t: Timers, now: u64): Timers {
    t.(timers := seq(|t.timers|, k requires 0 <= k < |t.timers| => Rearmed(t.timers[k], now)))
  }

  class TimerManager {
    var nextId: u64
    var timers: seq<TimerState>

    ghost function View(): Timers
      reads this
    {
      Timers(nextId, timers)
    }

    constructor ()
      ensures View() == NoTimers
    {
      nextId, timers := 0, [];
    }

    method SetTimer(interval: u64, now: u64) returns (id: u64)
      modifies this
      ensures id == old(nextId) && View() == AfterSet(old(View()), interval, now)
    {
      id := nextId;
      nextId := Bump(nextId);
      timers := timers + [TimerState(id, interval, SatAdd(now, interval))];
    }

    method CancelTimer(id: u64) returns (found: bool)
      modifies this
      ensures View() == AfterCancel(old(View()), id)
      ensures found <==> exists k :: 0 <= k < |old(timers)| && old(timers)[k].id == id
    {
      var k := IndexOf(timers, id);
      if k < |timers| {
        timers := SwapRemove(timers, k);
        return true;
      }
      return false;
    }

    method DueTimers(now: u64) returns (events: seq<TimerEvent>)
      modifies this
      ensures EventsOf(events, DueIds(old(timers), now), now)
      ensures View() == AfterDue(old(View()), now)
    {
      events := [];
      ghost var before := timers;
      for k := 0 to |timers|
        invariant |timers| == |before|
        invariant forall j :: 0 <= j < k ==> timers[j] == Rearmed(before[j], now)
        invariant forall j :: k <= j < |timers| ==> timers[j] == before[j]
        invariant nextId == old(nextId)
        invariant EventsOf(events, DueIds(before[..k], now), now)
      {
        assert before[..k + 1][..k] == before[..k];
        var timer := timers[k];
        if now >= timer.nextFireNs {
          events := events + [TimerEvent(timer.id, now)];
          timers := timers[k := timer.(nextFireNs := SatAdd(now, timer.intervalNs))];
        }
      }
      assert before[..|before|] == before;
    }
  }

  // ---------------------------------------------------------------------------
  // One call of due_timers

  ghost predicate DistinctIds(timers: seq<TimerState>) {
    forall j, k :: 0 <= j < k < |timers| ==> timers[j].id != timers[k].id
  }

  ghost predicate DueUnder(timers: seq<TimerState>, now: u64, id: int) {
    exists k :: 0 <= k < |timers| && timers[k].id == id && Due(timers[k], now)
  }

  lemma DueUnderLast(timers: seq<TimerState>, now: u64, id: int)
    requires timers != []
    ensures var init, last := timers[..|timers| - 1], timers[|timers| - 1];
            DueUnder(timers, now, id) <==> DueUnder(init, now, id) || (last.id == id && Due(last, now))
  {
    var init, last := timers[..|timers| - 1], timers[|timers| - 1];
    if DueUnder(init, now, id) {
      var k :| 0 <= k < |init| && init[k].id == id && Due(init[k], now);
      assert timers[k].id == id;
    }
    if last.id == id && Due(last, now) {
      assert timers[|timers| - 1].id == id;
    }
    if DueUnder(timers, now, id) && !(last.id == id && Due(last, now)) {
      var k :| 0 <= k < |timers| && timers[k].id == id && Due(timers[k], now);
      assert init[k].id == id;
    }
  }

  lemma DueOnlyOnce(timers: seq<TimerState>, now: u64, id: int)
    requires timers != [] && DistinctIds(timers) && timers[|timers| - 1].id == id
    ensures !DueUnder(timers[..|timers| - 1], now, id)
  {
  }

  /** An id is fired as often as it is due: once if its timer is due, else not at all. */
  lemma {:induction false} FiresEachDueTimerOnce(timers: seq<TimerState>, now: u64, id: u64)
    requires DistinctIds(timers)
    ensures multiset(DueIds(timers, now))[id] == if DueUnder(timers, now, id) then 1 else 0
  {
    if timers != [] {
      FiresEachDueTimerOnce(timers[..|timers| - 1], now, id);
      DueUnderLast(timers, now, id);
      if timers[|timers| - 1].id == id {
        DueOnlyOnce(timers, now, id);
      }
    }
  }

  /** After being fired a timer is still due exactly when it has no interval or the clock
      stands at its very last value. */
  lemma StillDueIff(timer: TimerState, now: u64)
    ensures Due(Rearmed(timer, now), now) <==> Due(timer, now) && (timer.intervalNs == 0 || now == U64_MAX)
  {
  }

  // ---------------------------------------------------------------------------
  // Runs

  datatype Call = SetTimer(interval: u64, now: u64) | CancelTimer(id: u64) | Poll(now: u64)

  /** What happened to an id: when and how it was set, how often it has fired, when it was set or
      fired last, whether it has been cancelled. */
  datatype Record = Record(setAt: u64, interval: u64, fired: nat, lastAt: u64, cancelled: bool)

  /** records[id] is the record of the timer that was given that id. */
  datatype History = History(t: Timers, now: u64, records: seq<Record>)

  const Beginning := History(NoTimers, 0, [])

  /** How often a call of due_timers reports an id. */
  function Firings(timers: seq<TimerState>, now: u64, id: int): nat {
    if 0 <= id <= U64_MAX then multiset(DueIds(timers, now))[id] else 0
  }

  function Counted(record: Record, firings: nat, now: u64): Record {
    if firings == 0 then record else record.(fired := record.fired + firings, lastAt := now)
  }

  function Recorded(h: History, call: Call): History {
    match call
    case SetTimer(interval, now) =>
      History(AfterSet(h.t, interval, now), now, h.records + [Record(now, interval, 0, now, false)])
    case CancelTimer(id) =>
      h.(t := AfterCancel(h.t, id),
         records := if id < |h.records| then h.records[id := h.records[id].(cancelled := true)] else h.records)
    case Poll(now) =>
      History(AfterDue(h.t, now), now,
              seq(|h.records|, k requires 0 <= k < |h.records| => Counted(h.records[k], Firings(h.t.timers, now, k), now)))
  }

  function HistoryAfter(calls: seq<Call>): History {
    if calls == [] then Beginning else Recorded(HistoryAfter(calls[..|calls| - 1]), calls[|calls| - 1])
  }

  /** The clock never goes back. */
  ghost predicate Monotone(calls: seq<Call>) {
    calls == []
    || (Monotone(calls[..|calls| - 1])
        && (!calls[|calls| - 1].CancelTimer? ==> HistoryAfter(calls[..|calls| - 1]).now <= calls[|calls| - 1].now))
  }

  /** The timer is armed one interval after it was set or fired last, and no earlier than its next
      multiple of the interval. */
  predicate ArmedInTime(timer: TimerState, record: Record) {
    && timer.intervalNs == record.interval
    && timer.nextFireNs == Min(U64_MAX, record.lastAt + record.interval)
    && timer.nextFireNs >= Min(U64_MAX, record.setAt + record.fired * record.interval + record.interval)
  }

  predicate WithinRate(record: Record, now: u64) {
    record.setAt + record.fired * record.interval <= now
  }

  ghost predicate Holds(timers: seq<TimerState>, id: int) {
    exists k :: 0 <= k < |timers| && timers[k].id == id
  }

  ghost predicate Orderly(h: History) {
    && h.t.nextId == |h.records|
    && DistinctIds(h.t.timers)
    && (forall k :: 0 <= k < |h.t.timers| ==>
          h.t.timers[k].id < |h.records| && ArmedInTime(h.t.timers[k], h.records[h.t.timers[k].id]))
    && (forall id :: 0 <= id < |h.records| ==> WithinRate(h.records[id], h.now))
    && (forall id :: 0 <= id < |h.records| ==> (Holds(h.t.timers, id) <==> !h.records[id].cancelled))
  }

  lemma SettingIsOrderly(h: History, interval: u64, now: u64)
    requires Orderly(h) && h.now <= now && |h.records| < U64_MAX
    ensures Orderly(Recorded(h, SetTimer(interval, now)))
  {
    var after := Recorded(h, SetTimer(interval, now));
    var added := after.t.timers[|h.t.timers|];
    assert added.id == |h.records|;
    forall id | 0 <= id < |after.records|
      ensures Holds(after.t.timers, id) <==> !after.records[id].cancelled
    {
      if id < |h.records| {
        assert Holds(h.t.timers, id) <==> !h.records[id].cancelled;
        if Holds(h.t.timers, id) {
          var k :| 0 <= k < |h.t.timers| && h.t.timers[k].id == id;
          assert after.t.timers[k].id == id;
        }
      }
    }
  }

  /** Removing one timer keeps every other, wherever the swap put it. */
  lemma RemovingKeepsOthers(timers: seq<TimerState>, k: nat, id: int)
    requires k < |timers| && DistinctIds(timers)
    ensures DistinctIds(SwapRemove(timers, k))
    ensures Holds(SwapRemove(timers, k), id) <==> Holds(timers, id) && id != timers[k].id
    ensures forall timer :: timer in SwapRemove(timers, k) ==> timer in timers
  {
    var left := SwapRemove(timers, k);
    forall j | 0 <= j < |left|
      ensures left[j] == timers[if j == k then |timers| - 1 else j]
    {
    }
    if Holds(timers, id) && id != timers[k].id {
      var j :| 0 <= j < |timers| && timers[j].id == id;
      assert left[if j == |timers| - 1 then (if k == |timers| - 1 then j else k) else j].id == id;
    }
    if Holds(left, id) {
      var j :| 0 <= j < |left| && left[j].id == id;
      assert timers[if j == k then |timers| - 1 else j].id == id;
    }
  }

  lemma CancellingIsOrderly(h: History, id: u64)
    requires Orderly(h)
    ensures Orderly(Recorded(h, CancelTimer(id)))
  {
    var after := Recorded(h, CancelTimer(id));
    var k := IndexOf(h.t.timers, id);
    if k < |h.t.timers| {
      forall other
        ensures Holds(after.t.timers, other) <==> Holds(h.t.timers, other) && other != id
        ensures DistinctIds(after.t.timers)
        ensures forall timer :: timer in after.t.timers ==> timer in h.t.timers
      {
        RemovingKeepsOthers(h.t.timers, k, other);
      }
      forall j | 0 <= j < |after.t.timers|
        ensures after.t.timers[j].id < |after.records|
        ensures ArmedInTime(after.t.timers[j], after.records[after.t.timers[j].id])
      {
        assert after.t.timers[j] in h.t.timers;
      }
    } else if id < |h.records| {
      assert !Holds(h.t.timers, id);
    }
  }

  /** Firing on time leaves the timer on time for its next multiple. */
  lemma FiringKeepsTime(timer: TimerState, record: Record, now: u64)
    requires ArmedInTime(timer, record) && Due(timer, now) && now < U64_MAX
    ensures var counted := Counted(record, 1, now);
            WithinRate(counted, now) && ArmedInTime(Rearmed(timer, now), counted)
  {
    assert (record.fired + 1) * record.interval == record.fired * record.interval + record.interval;
  }

  lemma FiringsOfTimer(timers: seq<TimerState>, now: u64, k: nat)
    requires DistinctIds(timers) && k < |timers|
    ensures Firings(timers, now, timers[k].id) == if Due(timers[k], now) then 1 else 0
  {
    FiresEachDueTimerOnce(timers, now, timers[k].id);
  }

  lemma FiringsOfNone(timers: seq<TimerState>, now: u64, id: int)
    requires DistinctIds(timers) && !Holds(timers, id)
    ensures Firings(timers, now, id) == 0
  {
    if 0 <= id <= U64_MAX {
      FiresEachDueTimerOnce(timers, now, id);
    }
  }

  lemma PollCounts(h: History, now: u64, k: nat)
    requires Orderly(h) && h.now <= now < U64_MAX && k < |h.t.timers|
    ensures var after := Recorded(h, Poll(now));
            var id := h.t.timers[k].id;
            && WithinRate(after.records[id], now)
            && ArmedInTime(after.t.timers[k], after.records[id])
  {
    var timer := h.t.timers[k];
    FiringsOfTimer(h.t.timers, now, k);
    if Due(timer, now) {
      FiringKeepsTime(timer, h.records[timer.id], now);
    }
  }

  lemma PollKeepsRate(h: History, now: u64, id: nat)
    requires Orderly(h) && h.now <= now < U64_MAX && id < |h.records|
    ensures WithinRate(Recorded(h, Poll(now)).records[id], now)
  {
    if Holds(h.t.timers, id) {
      var k :| 0 <= k < |h.t.timers| && h.t.timers[k].id == id;
      PollCounts(h, now, k);
    } else {
      FiringsOfNone(h.t.timers, now, id);
      assert WithinRate(h.records[id], h.now);
    }
  }

  lemma PollKeepsHolding(timers: seq<TimerState>, polled: seq<TimerState>, id: int)
    requires |polled| == |timers| && forall k :: 0 <= k < |timers| ==> polled[k].id == timers[k].id
    ensures Holds(polled, id) <==> Holds(timers, id)
  {
    if Holds(timers, id) {
      var k :| 0 <= k < |timers| && timers[k].id == id;
      assert polled[k].id == id;
    }
  }

  lemma PollingIsOrderly(h: History, now: u64)
    requires Orderly(h) && h.now <= now < U64_MAX
    ensures Orderly(Recorded(h, Poll(now)))
  {
    var after := Recorded(h, Poll(now));
    forall k | 0 <= k < |after.t.timers|
      ensures after.t.timers[k].id < |after.records|
      ensures ArmedInTime(after.t.timers[k], after.records[after.t.timers[k].id])
    {
      PollCounts(h, now, k);
    }
    forall id | 0 <= id < |after.records|
      ensures WithinRate(after.records[id], after.now)
      ensures Holds(after.t.timers, id) <==> !after.records[id].cancelled
    {
      PollKeepsRate(h, now, id);
      PollKeepsHolding(h.t.timers, after.t.timers, id);
      assert Holds(h.t.timers, id) <==> !h.records[id].cancelled;
    }
  }

  lemma {:induction false} EveryHistoryIsOrderly(calls: seq<Call>)
    requires Monotone(calls)
    requires |HistoryAfter(calls).records| <= U64_MAX && HistoryAfter(calls).now < U64_MAX
    ensures Orderly(HistoryAfter(calls))
  {
    if calls != [] {
      EveryHistoryIsOrderly(calls[..|calls| - 1]);
      var before := HistoryAfter(calls[..|calls| - 1]);
      match calls[|calls| - 1] {
        case SetTimer(interval, now) => SettingIsOrderly(before, interval, now);
        case CancelTimer(id) => CancellingIsOrderly(before, id);
        case Poll(now) => PollingIsOrderly(before, now);
      }
    }
  }

  /** The rate bound: in any run under a clock that does not go back, a timer set at t0 with
      interval d that has fired k times satisfies k * d <= now - t0, cancelled since or not. */
  lemma TimerRate(calls: seq<Call>, id: nat)
    requires Monotone(calls)
    requires |HistoryAfter(calls).records| <= U64_MAX && HistoryAfter(calls).now < U64_MAX
    requires id < |HistoryAfter(calls).records|
    ensures var record := HistoryAfter(calls).records[id];
            record.fired * record.interval <= HistoryAfter(calls).now - record.setAt
  {
    EveryHistoryIsOrderly(calls);
  }

  /** The next poll reports an id, once, exactly if it was set and not cancelled and its interval
      has passed since it was set or reported last; at the end of the clock it is due as well. */
  lemma PollReports(calls: seq<Call>, now: u64, id: nat)
    requires Monotone(calls)
    requires |HistoryAfter(calls).records| <= U64_MAX && HistoryAfter(calls).now < U64_MAX
    ensures var h := HistoryAfter(calls);
            Firings(h.t.timers, now, id)
            == if id < |h.records| && !h.records[id].cancelled
                  && (now - h.records[id].lastAt >= h.records[id].interval || now == U64_MAX) then 1 else 0
  {
    var h := HistoryAfter(calls);
    EveryHistoryIsOrderly(calls);
    if Holds(h.t.timers, id) {
      var k :| 0 <= k < |h.t.timers| && h.t.timers[k].id == id;
      FiringsOfTimer(h.t.timers, now, k);
      assert Holds(h.t.timers, id) <==> !h.records[id].cancelled;
    } else {
      FiringsOfNone(h.t.timers, now, id);
      assert id < |h.records| ==> (Holds(h.t.timers, id) <==> !h.records[id].cancelled);
    }
  }

  lemma DueIsHeld(timers: seq<TimerState>, now: u64, a: nat)
    requires DistinctIds(timers) && a < |DueIds(timers, now)|
    ensures IndexOf(timers, DueIds(timers, now)[a]) < |timers|
  {
    var id := DueIds(timers, now)[a];
    FiresEachDueTimerOnce(timers, now, id);
    assert id in multiset(DueIds(timers, now));
    var k :| 0 <= k < |timers| && timers[k].id == id && Due(timers[k], now);
  }

  lemma IndexIs(timers: seq<TimerState>, id: u64, k: nat)
    requires k < |timers| && timers[k].id == id
    requires forall j :: 0 <= j < k ==> timers[j].id != id
    ensures IndexOf(timers, id) == k
  {
  }

  lemma IndexInInit(timers: seq<TimerState>, init: seq<TimerState>, id: u64)
    requires init <= timers && IndexOf(init, id) < |init|
    ensures IndexOf(timers, id) == IndexOf(init, id)
  {
    IndexIs(timers, id, IndexOf(init, id));
  }

  /** One call reports the due timers in the order of the list. */
  lemma {:induction false} ReportsInListOrder(timers: seq<TimerState>, now: u64, a: nat, b: nat)
    requires DistinctIds(timers) && a < b < |DueIds(timers, now)|
    ensures IndexOf(timers, DueIds(timers, now)[a]) < IndexOf(timers, DueIds(timers, now)[b]) < |timers|
  {
    var init := timers[..|timers| - 1];
    var ids := DueIds(init, now);
    DueIsHeld(init, now, a);
    IndexInInit(timers, init, ids[a]);
    if b < |ids| {
      ReportsInListOrder(init, now, a, b);
      IndexInInit(timers, init, ids[b]);
    } else {
      DueIsHeld(timers, now, b);
      assert forall j :: 0 <= j < |init| ==> timers[j].id != timers[|init|].id;
    }
  }
}
