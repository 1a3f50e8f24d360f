/** How many idle polls of the reactor it takes until the timers that were due have fired. */
module Draining {
  import opened Reactor
  import opened Specs
  import StrategyTimers

  function DueCount(timers: seq<TimerEntry>, now: u64): nat {
    if timers == [] then 0
    else DueCount(timers[..|timers| - 1], now) + if timers[|timers| - 1].dueNs <= now then 1 else 0
  }

  lemma {:induction false} DueCountOfConcat(a: seq<TimerEntry>, b: seq<TimerEntry>, now: u64)
    ensures DueCount(a + b, now) == DueCount(a, now) + DueCount(b, now)
  {
    if b == [] {
      assert a + b == a;
    } else {
      DueCountOfConcat(a, b[..|b| - 1], now);
      assert (a + b)[..|a + b| - 1] == a + b[..|b| - 1];
    }
  }

  lemma RemovingCounts(timers: seq<TimerEntry>, k: nat, now: u64)
    requires k < |timers|
    ensures DueCount(StrategyTimers.SwapRemove(timers, k), now)
         == DueCount(timers, now) - if timers[k].dueNs <= now then 1 else 0
  {
    assert [timers[k]][..0] == [];
    if k == |timers| - 1 {
      assert timers == timers[..k] + [timers[k]];
      DueCountOfConcat(timers[..k], [timers[k]], now);
    } else {
      var mid, last := timers[k + 1..|timers| - 1], [timers[|timers| - 1]];
      assert timers == timers[..k] + ([timers[k]] + (mid + last));
      DueCountOfConcat(timers[..k], [timers[k]] + (mid + last), now);
      DueCountOfConcat([timers[k]], mid + last, now);
      DueCountOfConcat(mid, last, now);
      assert StrategyTimers.SwapRemove(timers, k) == timers[..k] + (last + mid);
      DueCountOfConcat(timers[..k], last + mid, now);
      DueCountOfConcat(last, mid, now);
    }
  }

  ghost predicate NoneDue(timers: seq<TimerEntry>, now: u64) {
    forall k :: 0 <= k < |timers| ==> timers[k].dueNs > now
  }

  /** One look either finds nothing due, or takes one of the timers due by the horizon. */
  lemma LookProgresses(timers: seq<TimerEntry>, from: u64, now: u64, horizon: u64)
    requires from <= now <= horizon
    ensures NoneDue(WithoutFirstDue(timers, now), from)
         || DueCount(WithoutFirstDue(timers, now), horizon) == DueCount(timers, horizon) - 1
    ensures NoneDue(timers, from) ==> NoneDue(WithoutFirstDue(timers, now), from)
  {
    var k := FirstDue(timers, now);
    if k < |timers| {
      RemovingCounts(timers, k, horizon);
    }
  }

  ghost predicate Between(clocks: seq<u64>, from: u64, horizon: u64) {
    forall k :: 0 <= k < |clocks| ==> from <= clocks[k] <= horizon
  }

  lemma {:induction false} IdleRunProgresses(core: Core, clocks: seq<u64>, from: u64, horizon: u64)
    requires Between(clocks, from, horizon)
    ensures NoneDue(IdleRun(core, clocks).timers, from)
         || DueCount(IdleRun(core, clocks).timers, horizon) + Examinations(core.pollCount, |clocks|)
            <= DueCount(core.timers, horizon)
  {
    if clocks != [] {
      var before := IdleRun(core, clocks[..|clocks| - 1]);
      IdleRunProgresses(core, clocks[..|clocks| - 1], from, horizon);
      IdleRunCounts(core, clocks);
      LookProgresses(before.timers, from, clocks[|clocks| - 1], horizon);
    }
  }

  lemma {:induction false} NothingCounted(timers: seq<TimerEntry>, from: u64, horizon: u64)
    requires from <= horizon && DueCount(timers, horizon) == 0
    ensures NoneDue(timers, from)
  {
    if timers != [] {
      NothingCounted(timers[..|timers| - 1], from, horizon);
    }
  }

  /** Every timer due at the start has fired after 1000 idle polls for each timer that falls
      due before the last of them; with no newcomer that is 1000 per timer already due. */
  lemma DueTimersDrain(core: Core, clocks: seq<u64>, from: u64, horizon: u64)
    requires Between(clocks, from, horizon) && from <= horizon
    requires |clocks| >= 1000 * DueCount(core.timers, horizon)
    ensures NoneDue(IdleRun(core, clocks).timers, from)
  {
    var n := DueCount(core.timers, horizon);
    IdleRunProgresses(core, clocks, from, horizon);
    ExaminationsPerThousand(core.pollCount, n);
    ExaminationsGrow(core.pollCount, 1000 * n, |clocks|);
    if !NoneDue(IdleRun(core, clocks).timers, from) {
      NothingCounted(IdleRun(core, clocks).timers, from, horizon);
    }
  }

  // ---------------------------------------------------------------------------
  // How long the timers due at the start take

  /** The next timer served at the horizon was due at the start already. */
  predicate HeadDue(timers: seq<TimerEntry>, from: u64, horizon: u64) {
    var k := FirstDue(timers, horizon);
    k < |timers| && timers[k].dueNs <= from
  }

  /** The timers after so many looks at the horizon. */
  function Turns(timers: seq<TimerEntry>, horizon: u64, looks: nat): seq<TimerEntry> {
    if looks == 0 then timers else WithoutFirstDue(Turns(timers, horizon, looks - 1), horizon)
  }

  /** Were every look taken at the horizon, the first n would serve timers due at the start. */
  predicate ServedInTurn(timers: seq<TimerEntry>, from: u64, horizon: u64, n: nat) {
    n == 0 || (ServedInTurn(timers, from, horizon, n - 1) && HeadDue(Turns(timers, horizon, n - 1), from, horizon))
  }

  lemma {:induction false} EachIsServed(timers: seq<TimerEntry>, from: u64, horizon: u64, n: nat, looks: nat)
    requires ServedInTurn(timers, from, horizon, n) && looks < n
    ensures HeadDue(Turns(timers, horizon, looks), from, horizon)
  {
    if looks < n - 1 {
      EachIsServed(timers, from, horizon, n - 1, looks);
    }
  }

  lemma LookCounts(timers: seq<TimerEntry>, from: u64, horizon: u64)
    requires from <= horizon
    ensures DueCount(WithoutFirstDue(timers, horizon), from)
         == DueCount(timers, from) - if HeadDue(timers, from, horizon) then 1 else 0
  {
    var k := FirstDue(timers, horizon);
    if k < |timers| {
      RemovingCounts(timers, k, from);
    }
  }

  lemma {:induction false} TurnsCount(timers: seq<TimerEntry>, from: u64, horizon: u64, looks: nat)
    requires from <= horizon
    ensures DueCount(Turns(timers, horizon, looks), from) + looks >= DueCount(timers, from)
    ensures DueCount(Turns(timers, horizon, looks), from) + looks == DueCount(timers, from)
       <==> ServedInTurn(timers, from, horizon, looks)
  {
    if looks > 0 {
      TurnsCount(timers, from, horizon, looks - 1);
      LookCounts(Turns(timers, horizon, looks - 1), from, horizon);
    }
  }

  lemma HeadDueAnytime(timers: seq<TimerEntry>, from: u64, now: u64, horizon: u64)
    requires from <= now <= horizon && HeadDue(timers, from, horizon)
    ensures WithoutFirstDue(timers, now) == WithoutFirstDue(timers, horizon)
  {
    assert FirstDue(timers, now) == FirstDue(timers, horizon);
  }

  /** The timers after looks at the given times. */
  function Served(timers: seq<TimerEntry>, looks: seq<u64>): seq<TimerEntry> {
    if looks == [] then timers
    else WithoutFirstDue(Served(timers, looks[..|looks| - 1]), looks[|looks| - 1])
  }

  /** Idle polls do to the timers what their looks do. */
  lemma {:induction false} IdleRunServes(core: Core, clocks: seq<u64>, from: u64, horizon: u64) returns (looks: seq<u64>)
    requires Between(clocks, from, horizon)
    ensures |looks| == Examinations(core.pollCount, |clocks|) && Between(looks, from, horizon)
    ensures IdleRun(core, clocks).timers == Served(core.timers, looks)
  {
    looks := [];
    if clocks != [] {
      var before := IdleRunServes(core, clocks[..|clocks| - 1], from, horizon);
      IdleRunCounts(core, clocks);
      looks := before;
      if CountAfter(core.pollCount, |clocks|) % CONTROL_POLL_INTERVAL == 0 {
        looks := before + [clocks[|clocks| - 1]];
        assert looks[..|looks| - 1] == before;
      }
    }
  }

  /** After so many looks: where the turns are by then, or past all that were due. */
  ghost predicate Follows(start: seq<TimerEntry>, timers: seq<TimerEntry>, looks: nat, from: u64, horizon: u64, n: nat) {
    if looks < n then timers == Turns(start, horizon, looks) else NoneDue(timers, from)
  }

  lemma TurnsExhaust(start: seq<TimerEntry>, from: u64, horizon: u64, n: nat)
    requires from <= horizon && n == DueCount(start, from) && ServedInTurn(start, from, horizon, n)
    ensures NoneDue(Turns(start, horizon, n), from)
  {
    TurnsCount(start, from, horizon, n);
    NothingCounted(Turns(start, horizon, n), from, from);
  }

  lemma LookFollows(start: seq<TimerEntry>, timers: seq<TimerEntry>, looks: nat, from: u64, now: u64, horizon: u64, n: nat)
    requires from <= now <= horizon && Follows(start, timers, looks, from, horizon, n)
    requires looks < n ==> HeadDue(timers, from, horizon)
    requires looks + 1 == n ==> NoneDue(Turns(start, horizon, n), from)
    ensures Follows(start, WithoutFirstDue(timers, now), looks + 1, from, horizon, n)
  {
    if looks < n {
      HeadDueAnytime(timers, from, now, horizon);
    } else {
      LookProgresses(timers, from, now, horizon);
    }
  }

  /** Served in turn, it does not matter when the looks happen. */
  lemma {:induction false} LooksFollowTurns(start: seq<TimerEntry>, looks: seq<u64>, from: u64, horizon: u64, n: nat)
    requires from <= horizon && Between(looks, from, horizon)
    requires n == DueCount(start, from) && ServedInTurn(start, from, horizon, n)
    ensures Follows(start, Served(start, looks), |looks|, from, horizon, n)
  {
    TurnsExhaust(start, from, horizon, n);
    if looks != [] {
      var init, now := looks[..|looks| - 1], looks[|looks| - 1];
      LooksFollowTurns(start, init, from, horizon, n);
      if |init| < n {
        EachIsServed(start, from, horizon, n, |init|);
      }
      LookFollows(start, Served(start, init), |init|, from, now, horizon, n);
    }
  }

  lemma {:induction false} LooksAtHorizon(timers: seq<TimerEntry>, looks: seq<u64>, horizon: u64)
    requires Between(looks, horizon, horizon)
    ensures Served(timers, looks) == Turns(timers, horizon, |looks|)
  {
    if looks != [] {
      LooksAtHorizon(timers, looks[..|looks| - 1], horizon);
    }
  }

  lemma {:induction false} ExaminationsWithoutWrap(count: u64, n: nat)
    requires count + n <= U64_MAX
    ensures Examinations(count, n) == (count + n) / 1000 - count / 1000
  {
    if n > 0 {
      ExaminationsWithoutWrap(count, n - 1);
      assert CountAfter(count, n) == count + n;
    }
  }

  lemma {:induction false} DueCountOfNone(timers: seq<TimerEntry>, from: u64)
    requires NoneDue(timers, from)
    ensures DueCount(timers, from) == 0
  {
    if timers != [] {
      DueCountOfNone(timers[..|timers| - 1], from);
    }
  }

  ghost predicate AlwaysDrains(core: Core, polls: nat, from: u64, horizon: u64) {
    forall clocks: seq<u64> :: |clocks| == polls && Between(clocks, from, horizon) ==>
      NoneDue(IdleRun(core, clocks).timers, from)
  }

  /** Served in turn, the n timers due at the start have all fired within 1000 * n idle polls,
      however the clock runs up to the horizon, and across the wrap of the poll counter too. */
  lemma ServedInTurnDrains(core: Core, from: u64, horizon: u64, n: nat)
    requires from <= horizon && n == DueCount(core.timers, from)
    requires ServedInTurn(core.timers, from, horizon, n)
    ensures AlwaysDrains(core, 1000 * n, from, horizon)
  {
    ExaminationsPerThousand(core.pollCount, n);
    forall clocks: seq<u64> | |clocks| == 1000 * n && Between(clocks, from, horizon)
      ensures NoneDue(IdleRun(core, clocks).timers, from)
    {
      var looks := IdleRunServes(core, clocks, from, horizon);
      LooksFollowTurns(core.timers, looks, from, horizon, n);
    }
  }

  lemma NoWrapNoLookMore(count: u64, n: nat)
    requires count + 1000 * n <= U64_MAX
    ensures Examinations(count, 1000 * n) == n
  {
    ExaminationsWithoutWrap(count, 1000 * n);
  }

  /** Unless a wrap of the poll counter brings a look more, they do so if and only if they are
      served in turn: no timer that falls due by the horizon comes before one of them in the
      list as swap_remove leaves it. */
  lemma DrainsInTimeIff(core: Core, from: u64, horizon: u64, n: nat)
    requires from <= horizon && n == DueCount(core.timers, from)
    requires Examinations(core.pollCount, 1000 * n) == n
    ensures AlwaysDrains(core, 1000 * n, from, horizon) <==> ServedInTurn(core.timers, from, horizon, n)
  {
    if ServedInTurn(core.timers, from, horizon, n) {
      ServedInTurnDrains(core, from, horizon, n);
    }
    if AlwaysDrains(core, 1000 * n, from, horizon) {
      DrainingServesInTurn(core, from, horizon, n);
    }
  }

  lemma DrainingServesInTurn(core: Core, from: u64, horizon: u64, n: nat)
    requires from <= horizon && n == DueCount(core.timers, from)
    requires Examinations(core.pollCount, 1000 * n) == n
    requires AlwaysDrains(core, 1000 * n, from, horizon)
    ensures ServedInTurn(core.timers, from, horizon, n)
  {
    var clocks: seq<u64> := seq(1000 * n, _ => horizon);
    assert Between(clocks, from, horizon);
    var looks := IdleRunServes(core, clocks, horizon, horizon);
    LooksAtHorizon(core.timers, looks, horizon);
    DueCountOfNone(IdleRun(core, clocks).timers, from);
    TurnsCount(core.timers, from, horizon, n);
  }

  // A timer that falls due meanwhile may be served first: one timer due at the start and
  // 1000 idle polls are not enough.

  const NEWCOMER: TimerEntry := TimerEntry(1, 5)
  const OVERDUE: TimerEntry := TimerEntry(2, 0)

  lemma {:induction false} NothingBeforeTheThousandth(core: Core, clocks: seq<u64>)
    requires core.pollCount + |clocks| < 1000
    ensures IdleRun(core, clocks) == Core(core.pollCount + |clocks|, core.timers)
  {
    if clocks != [] {
      NothingBeforeTheThousandth(core, clocks[..|clocks| - 1]);
    }
  }

  lemma NewcomerIsServedFirst(clocks: seq<u64>)
    requires |clocks| == 1000 && clocks[999] == 5
    ensures DueCount([NEWCOMER, OVERDUE], 0) == 1
    ensures IdleRun(Core(0, [NEWCOMER, OVERDUE]), clocks).timers == [OVERDUE]
  {
    assert [NEWCOMER, OVERDUE][..1] == [NEWCOMER] && [NEWCOMER][..0] == [];
    assert DueCount([NEWCOMER], 0) == 0;
    NothingBeforeTheThousandth(Core(0, [NEWCOMER, OVERDUE]), clocks[..999]);
    assert FirstDue([NEWCOMER, OVERDUE], 5) == 0;
  }

  // A wrap of the poll counter can bring a look more, and with it the newcomer and the timer
  // that was due: 616 polls lie between the last two looks around the wrap.

  const BEFORE_WRAP: u64 := U64_MAX - 616

  lemma WrapBringsTwoLooks()
    ensures Examinations(BEFORE_WRAP, 1000) == 2
  {
    ExaminationsWithoutWrap(BEFORE_WRAP, 616);
    assert CountAfter(BEFORE_WRAP, 617) == 0;
    assert Examinations(BEFORE_WRAP, 617) == 2;
    ExaminationsAdd(BEFORE_WRAP, 617, 383);
    ExaminationsWithoutWrap(0, 383);
  }

  lemma TwoLooksServeBoth(looks: seq<u64>)
    requires |looks| == 2 && Between(looks, 0, 5)
    ensures NoneDue(Served([NEWCOMER, OVERDUE], looks), 0)
  {
    var both := [NEWCOMER, OVERDUE];
    assert looks[..1] == [looks[0]] && looks[..1][..0] == [];
    assert Served(both, looks[..1]) == WithoutFirstDue(both, looks[0]);
    if looks[0] == 5 {
      assert FirstDue(both, looks[0]) == 0;
      assert WithoutFirstDue(both, looks[0]) == [OVERDUE];
    } else {
      assert both[1..] == [OVERDUE];
      assert FirstDue(both, looks[0]) == 1;
      assert WithoutFirstDue(both, looks[0]) == [NEWCOMER];
    }
  }

  /** So across the wrap timers can drain in time without being served in turn. */
  lemma WrapCanDrainOutOfTurn()
    ensures DueCount([NEWCOMER, OVERDUE], 0) == 1 && !ServedInTurn([NEWCOMER, OVERDUE], 0, 5, 1)
    ensures AlwaysDrains(Core(BEFORE_WRAP, [NEWCOMER, OVERDUE]), 1000, 0, 5)
  {
    var core := Core(BEFORE_WRAP, [NEWCOMER, OVERDUE]);
    assert [NEWCOMER, OVERDUE][..1] == [NEWCOMER] && [NEWCOMER][..0] == [];
    assert DueCount([NEWCOMER], 0) == 0;
    assert FirstDue(core.timers, 5) == 0;
    assert Turns(core.timers, 5, 0) == core.timers;
    WrapBringsTwoLooks();
    forall clocks: seq<u64> | |clocks| == 1000 && Between(clocks, 0, 5)
      ensures NoneDue(IdleRun(core, clocks).timers, 0)
    {
      var looks := IdleRunServes(core, clocks, 0, 5);
      TwoLooksServeBoth(looks);
    }
  }

  // ---------------------------------------------------------------------------
  // Any number of polls, wrap or not

  /** Some time between the two makes this the timer that a look serves. */
  predicate CouldBeFirst(timers: seq<TimerEntry>, k: nat, from: u64, horizon: u64) {
    && k < |timers| && timers[k].dueNs <= horizon
    && forall j :: 0 <= j < k ==> timers[j].dueNs > from && timers[j].dueNs > timers[k].dueNs
  }

  /** Whichever timer each look may turn out to serve, so many looks serve all that were due. */
  ghost predicate AlwaysServed(timers: seq<TimerEntry>, from: u64, horizon: u64, looks: nat)
    decreases looks
  {
    NoneDue(timers, from)
    || (looks > 0
        && forall k :: 0 <= k < |timers| && CouldBeFirst(timers, k, from, horizon) ==>
             AlwaysServed(StrategyTimers.SwapRemove(timers, k), from, horizon, looks - 1))
  }

  /** The timers after looks at the given times, first look first. */
  function ServedFrom(timers: seq<TimerEntry>, looks: seq<u64>): seq<TimerEntry>
    decreases |looks|
  {
    if looks == [] then timers else ServedFrom(WithoutFirstDue(timers, looks[0]), looks[1..])
  }

  lemma {:induction false} ServedFromEither(timers: seq<TimerEntry>, looks: seq<u64>, last: u64)
    ensures ServedFrom(timers, looks + [last]) == WithoutFirstDue(ServedFrom(timers, looks), last)
    decreases |looks|
  {
    var all := looks + [last];
    if looks == [] {
      assert all[1..] == [];
    } else {
      assert all[1..] == looks[1..] + [last];
      ServedFromEither(WithoutFirstDue(timers, looks[0]), looks[1..], last);
    }
  }

  lemma {:induction false} ServedIsServedFrom(timers: seq<TimerEntry>, looks: seq<u64>)
    ensures Served(timers, looks) == ServedFrom(timers, looks)
  {
    if looks != [] {
      var init, last := looks[..|looks| - 1], looks[|looks| - 1];
      ServedIsServedFrom(timers, init);
      ServedFromEither(timers, init, last);
      assert looks == init + [last];
    }
  }

  lemma LookServesSomeFirst(timers: seq<TimerEntry>, from: u64, now: u64, horizon: u64) returns (k: nat)
    requires from <= now <= horizon && !NoneDue(timers, from)
    ensures CouldBeFirst(timers, k, from, horizon)
    ensures WithoutFirstDue(timers, now) == StrategyTimers.SwapRemove(timers, k)
  {
    k := FirstDue(timers, now);
  }

  lemma SomeLookServes(timers: seq<TimerEntry>, k: nat, from: u64, horizon: u64) returns (now: u64)
    requires from <= horizon && CouldBeFirst(timers, k, from, horizon)
    ensures from <= now <= horizon
    ensures WithoutFirstDue(timers, now) == StrategyTimers.SwapRemove(timers, k)
  {
    now := if timers[k].dueNs < from then from else timers[k].dueNs;
    assert FirstDue(timers, now) == k;
  }

  lemma {:induction false} NoneDueStays(timers: seq<TimerEntry>, looks: seq<u64>, from: u64, horizon: u64)
    requires NoneDue(timers, from) && Between(looks, from, horizon)
    ensures NoneDue(ServedFrom(timers, looks), from)
    decreases |looks|
  {
    if looks != [] {
      LookProgresses(timers, from, looks[0], horizon);
      NoneDueStays(WithoutFirstDue(timers, looks[0]), looks[1..], from, horizon);
    }
  }

  lemma ServedAfter(timers: seq<TimerEntry>, k: nat, from: u64, horizon: u64, looks: nat)
    requires AlwaysServed(timers, from, horizon, looks) && !NoneDue(timers, from)
    requires CouldBeFirst(timers, k, from, horizon)
    ensures looks > 0 && AlwaysServed(StrategyTimers.SwapRemove(timers, k), from, horizon, looks - 1)
  {
  }

  lemma {:induction false} LooksServe(timers: seq<TimerEntry>, looks: seq<u64>, n: nat, from: u64, horizon: u64)
    requires n == |looks| && Between(looks, from, horizon) && AlwaysServed(timers, from, horizon, n)
    ensures NoneDue(ServedFrom(timers, looks), from)
    decreases n
  {
    if NoneDue(timers, from) {
      NoneDueStays(timers, looks, from, horizon);
    } else {
      var k := LookServesSomeFirst(timers, from, looks[0], horizon);
      ServedAfter(timers, k, from, horizon, n);
      LooksServe(WithoutFirstDue(timers, looks[0]), looks[1..], n - 1, from, horizon);
    }
  }

  lemma MissedAfter(timers: seq<TimerEntry>, from: u64, horizon: u64, looks: nat) returns (k: nat)
    requires looks > 0 && !AlwaysServed(timers, from, horizon, looks)
    ensures CouldBeFirst(timers, k, from, horizon)
    ensures !AlwaysServed(StrategyTimers.SwapRemove(timers, k), from, horizon, looks - 1)
  {
    k :| 0 <= k < |timers| && CouldBeFirst(timers, k, from, horizon)
         && !AlwaysServed(StrategyTimers.SwapRemove(timers, k), from, horizon, looks - 1);
  }

  lemma {:induction false} SomeLooksMiss(timers: seq<TimerEntry>, n: nat, from: u64, horizon: u64) returns (looks: seq<u64>)
    requires from <= horizon && !AlwaysServed(timers, from, horizon, n)
    ensures |looks| == n && Between(looks, from, horizon) && !NoneDue(ServedFrom(timers, looks), from)
    decreases n
  {
    if n == 0 {
      looks := [];
    } else {
      var k := MissedAfter(timers, from, horizon, n);
      var now := SomeLookServes(timers, k, from, horizon);
      var rest := SomeLooksMiss(StrategyTimers.SwapRemove(timers, k), n - 1, from, horizon);
      looks := [now] + rest;
      assert looks[1..] == rest;
    }
  }

  /** Clock readings at which idle polls take their looks at just the given times. */
  lemma {:induction false} LooksCanHappen(core: Core, polls: nat, looks: seq<u64>, from: u64, horizon: u64)
    returns (clocks: seq<u64>)
    requires from <= horizon && Between(looks, from, horizon) && |looks| == Examinations(core.pollCount, polls)
    ensures |clocks| == polls && Between(clocks, from, horizon)
    ensures IdleRun(core, clocks).timers == Served(core.timers, looks)
    decreases polls
  {
    if polls == 0 {
      clocks := [];
    } else {
      var looked := CountAfter(core.pollCount, polls) % CONTROL_POLL_INTERVAL == 0;
      var before := LooksCanHappen(core, polls - 1, if looked then looks[..|looks| - 1] else looks, from, horizon);
      clocks := before + [if looked then looks[|looks| - 1] else horizon];
      assert clocks[..polls - 1] == before;
      IdleRunCounts(core, clocks);
    }
  }

  /** Any number of idle polls, at whatever count they start: the timers due at the start have
      always fired by then if and only if the looks among these polls always serve them. */
  lemma AlwaysDrainsIff(core: Core, polls: nat, from: u64, horizon: u64)
    requires from <= horizon
    ensures AlwaysDrains(core, polls, from, horizon)
       <==> AlwaysServed(core.timers, from, horizon, Examinations(core.pollCount, polls))
  {
    var n := Examinations(core.pollCount, polls);
    if AlwaysServed(core.timers, from, horizon, n) {
      forall clocks: seq<u64> | |clocks| == polls && Between(clocks, from, horizon)
        ensures NoneDue(IdleRun(core, clocks).timers, from)
      {
        var looks := IdleRunServes(core, clocks, from, horizon);
        LooksServe(core.timers, looks, n, from, horizon);
        ServedIsServedFrom(core.timers, looks);
      }
    } else {
      var looks := SomeLooksMiss(core.timers, n, from, horizon);
      var clocks := LooksCanHappen(core, polls, looks, from, horizon);
      ServedIsServedFrom(core.timers, looks);
      assert !NoneDue(IdleRun(core, clocks).timers, from);
    }
  }

  // ---------------------------------------------------------------------------
  // What the polls report

  /** The core after polls of the given offers, the timers they fired, the ids they reported. */
  datatype Run = Run(core: Core, fired: seq<TimerEntry>, reported: seq<u64>)

  function ReportedBy(event: Option<Event>): seq<u64> {
    if event.Some? && event.value.Timer? then [event.value.timerId] else []
  }

  function IdsOf(entries: seq<TimerEntry>): seq<u64> {
    seq(|entries|, k requires 0 <= k < |entries| => entries[k].timerId)
  }

  function PollRun(core: Core, offers: seq<Offer>, clocks: seq<u64>): Run
    requires |offers| == |clocks|
  {
    if clocks == [] then Run(core, [], [])
    else
      var n := |clocks| - 1;
      var before := PollRun(core, offers[..n], clocks[..n]);
      var polled := PollStep(before.core, offers[n], clocks[n]);
      Run(polled.core, before.fired + Consumed(before.core, offers[n], clocks[n]),
          before.reported + ReportedBy(polled.event))
  }

  predicate AllIdle(offers: seq<Offer>) {
    forall k :: 0 <= k < |offers| ==> Idle(offers[k])
  }

  lemma PollReportsWhatItConsumes(core: Core, offer: Offer, now: u64)
    ensures ReportedBy(PollStep(core, offer, now).event) == IdsOf(Consumed(core, offer, now))
  {
    PollConsumesWhatItReports(core, offer, now);
    var consumed := Consumed(core, offer, now);
    if consumed != [] {
      assert PollStep(core, offer, now).event == Some(Timer(consumed[0].timerId));
    }
  }

  /** A run reports exactly the timers that left. */
  lemma {:induction false} RunReportsFired(core: Core, offers: seq<Offer>, clocks: seq<u64>)
    requires |offers| == |clocks|
    ensures PollRun(core, offers, clocks).reported == IdsOf(PollRun(core, offers, clocks).fired)
  {
    if clocks != [] {
      var n := |clocks| - 1;
      var before := PollRun(core, offers[..n], clocks[..n]);
      RunReportsFired(core, offers[..n], clocks[..n]);
      PollReportsWhatItConsumes(before.core, offers[n], clocks[n]);
      var consumed := Consumed(before.core, offers[n], clocks[n]);
      assert IdsOf(before.fired + consumed) == IdsOf(before.fired) + IdsOf(consumed);
    }
  }

  lemma {:induction false} RunConsumesFired(core: Core, offers: seq<Offer>, clocks: seq<u64>)
    requires |offers| == |clocks|
    ensures var run := PollRun(core, offers, clocks);
            multiset(core.timers) == multiset(run.core.timers) + multiset(run.fired)
  {
    if clocks != [] {
      var n := |clocks| - 1;
      RunConsumesFired(core, offers[..n], clocks[..n]);
      PollConsumesWhatItReports(PollRun(core, offers[..n], clocks[..n]).core, offers[n], clocks[n]);
    }
  }

  /** Polls that find nothing else to do are idle polls. */
  lemma {:induction false} IdleOffersRunIdle(core: Core, offers: seq<Offer>, clocks: seq<u64>)
    requires |offers| == |clocks| && AllIdle(offers)
    ensures PollRun(core, offers, clocks).core == IdleRun(core, clocks)
  {
    if clocks != [] {
      var n := |clocks| - 1;
      IdleOffersRunIdle(core, offers[..n], clocks[..n]);
      IdlePollIsPoll(PollRun(core, offers[..n], clocks[..n]).core, offers[n], clocks[n]);
    }
  }

  /** Each timer due by then has been fired, as often as it was there. */
  ghost predicate AllFired(timers: seq<TimerEntry>, fired: seq<TimerEntry>, from: u64) {
    forall entry: TimerEntry :: entry.dueNs <= from ==> multiset(fired)[entry] == multiset(timers)[entry]
  }

  lemma AllFiredIff(timers: seq<TimerEntry>, left: seq<TimerEntry>, fired: seq<TimerEntry>, from: u64)
    requires multiset(timers) == multiset(left) + multiset(fired)
    ensures AllFired(timers, fired, from) <==> NoneDue(left, from)
  {
    if AllFired(timers, fired, from) {
      forall k | 0 <= k < |left|
        ensures left[k].dueNs > from
      {
        assert left[k] in multiset(left);
      }
    }
    if NoneDue(left, from) {
      forall entry: TimerEntry | entry.dueNs <= from
        ensures multiset(fired)[entry] == multiset(timers)[entry]
      {
        assert entry !in multiset(left);
      }
    }
  }

  /** All timers due at the start are among those fired and reported after 1000 polls with
      nothing else to do for each timer that falls due before the last of them. */
  lemma DueTimersFire(core: Core, offers: seq<Offer>, clocks: seq<u64>, from: u64, horizon: u64)
    requires |offers| == |clocks| && AllIdle(offers) && Between(clocks, from, horizon) && from <= horizon
    requires |clocks| >= 1000 * DueCount(core.timers, horizon)
    ensures var run := PollRun(core, offers, clocks);
            AllFired(core.timers, run.fired, from) && run.reported == IdsOf(run.fired)
  {
    var run := PollRun(core, offers, clocks);
    IdleOffersRunIdle(core, offers, clocks);
    RunReportsFired(core, offers, clocks);
    RunConsumesFired(core, offers, clocks);
    DueTimersDrain(core, clocks, from, horizon);
    AllFiredIff(core.timers, run.core.timers, run.fired, from);
  }

  /** However the clock runs, so many polls with nothing else to do fire all timers due. */
  ghost predicate AlwaysFires(core: Core, polls: nat, from: u64, horizon: u64) {
    forall offers: seq<Offer>, clocks: seq<u64> ::
      |offers| == |clocks| == polls && AllIdle(offers) && Between(clocks, from, horizon) ==>
        AllFired(core.timers, PollRun(core, offers, clocks).fired, from)
  }

  const QUIET: Offer := Offer(false, [], false, false, true, false)

  lemma FiresIffDrains(core: Core, polls: nat, from: u64, horizon: u64)
    ensures AlwaysFires(core, polls, from, horizon) <==> AlwaysDrains(core, polls, from, horizon)
  {
    forall offers: seq<Offer>, clocks: seq<u64> | |offers| == |clocks| == polls && AllIdle(offers)
      ensures AllFired(core.timers, PollRun(core, offers, clocks).fired, from)
         <==> NoneDue(IdleRun(core, clocks).timers, from)
    {
      IdleOffersRunIdle(core, offers, clocks);
      RunConsumesFired(core, offers, clocks);
      AllFiredIff(core.timers, IdleRun(core, clocks).timers, PollRun(core, offers, clocks).fired, from);
    }
    var quiet := seq(polls, _ => QUIET);
    if AlwaysFires(core, polls, from, horizon) {
      forall clocks: seq<u64> | |clocks| == polls && Between(clocks, from, horizon)
        ensures NoneDue(IdleRun(core, clocks).timers, from)
      {
        assert AllIdle(quiet);
        assert AllFired(core.timers, PollRun(core, quiet, clocks).fired, from);
      }
    }
  }

  /** So many polls always fire the timers due at the start if and only if the looks among them
      always serve them, at whatever value the poll counter starts. */
  lemma AlwaysFiresIff(core: Core, polls: nat, from: u64, horizon: u64)
    requires from <= horizon
    ensures AlwaysFires(core, polls, from, horizon)
       <==> AlwaysServed(core.timers, from, horizon, Examinations(core.pollCount, polls))
  {
    FiresIffDrains(core, polls, from, horizon);
    AlwaysDrainsIff(core, polls, from, horizon);
  }

  /** Short of a wrap, the n timers due at the start fire within 1000 * n polls if and only if
      they are served in turn. */
  lemma FiresInTimeIff(core: Core, from: u64, horizon: u64, n: nat)
    requires from <= horizon && n == DueCount(core.timers, from)
    requires core.pollCount + 1000 * n <= U64_MAX
    ensures AlwaysFires(core, 1000 * n, from, horizon) <==> ServedInTurn(core.timers, from, horizon, n)
  {
    NoWrapNoLookMore(core.pollCount, n);
    DrainsInTimeIff(core, from, horizon, n);
    FiresIffDrains(core, 1000 * n, from, horizon);
  }
}
