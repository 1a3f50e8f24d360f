/** What readers are given of the log, and what they see of it. */
module RingDelivery {
  import opened RingLog
  import opened RingProtocol
  import opened RingSafety
  import opened Specs

  /** What a reader received, what it skipped and what it still has to read make up all that
      was written since it connected. */
  lemma DeliveredSkippedLag<T>(s: Ring<T>, r: nat)
    requires Valid(s) && r in s.readers && s.readers[r].Live?
    ensures var log := s.readers[r].log;
            && |log.got| + log.skipped + Behind(s.writeSeq, s.cursors[s.readers[r].slot]) == s.writeSeq - log.start
            && (forall j, k :: 0 <= j < k < |log.got| ==> log.got[j] < log.got[k])
            && (forall k :: 0 <= k < |log.got| ==> log.start <= log.got[k] < s.writeSeq)
  {
    assert ReaderFits(s, s.readers[r]);
  }

  /** The indices delivered are start, start + 1, and so on to just before the cursor. */
  ghost predicate Consecutive<T>(log: Log<T>, cursor: nat) {
    && log.start + |log.got| == cursor
    && forall k :: 0 <= k < |log.got| ==> log.got[k] == log.start + k
  }

  /** Nothing skipped, exactly if the indices delivered are the consecutive ones. */
  lemma NothingSkippedIff<T>(s: Ring<T>, r: nat)
    requires Valid(s) && r in s.readers && s.readers[r].Live?
    ensures s.readers[r].log.skipped == 0 <==> Consecutive(s.readers[r].log, s.cursors[s.readers[r].slot])
  {
    assert ReaderFits(s, s.readers[r]);
  }

  /** The reader is never further behind than the ring holds. */
  ghost predicate KeepsUp<T>(s: Ring<T>, steps: seq<Step<T>>, r: nat)
    requires Shape(s)
    decreases |steps|
  {
    && (r in s.readers && s.readers[r].Live? ==> s.writeSeq <= s.cursors[s.readers[r].slot] + |s.data|)
    && (steps != [] ==> KeepsUp(Next(s, steps[0]), steps[1..], r))
  }

  lemma MoveSkipsNothing<T>(s: Ring<T>, pc: Pc, log: Log<T>, cursor: nat, move: Move)
    requires |s.data| > 0 && PcFits(pc, cursor, s.writeSeq, log.got)
    requires s.writeSeq <= cursor + |s.data|
    ensures var (_, log', _) := Moved(s, pc, log, cursor, move);
            log'.skipped == log.skipped
  {
  }

  /** No step makes a reader skip that is at most one lap behind. */
  lemma StepSkipsNothing<T>(s: Ring<T>, step: Step<T>, r: nat)
    requires Valid(s) && KeepsUp(s, [], r)
    ensures LogOf(Next(s, step), r).skipped == LogOf(s, r).skipped
  {
    if step.Read? && step.r == r && r in s.readers && s.readers[r].Live? {
      var reader := s.readers[r];
      assert ReaderFits(s, reader);
      MoveSkipsNothing(s, reader.pc, reader.log, s.cursors[reader.slot], step.move);
    }
  }

  /** A reader that keeps up misses nothing, in any interleaving. */
  lemma {:induction false} KeepingUpSkipsNothing<T>(s: Ring<T>, steps: seq<Step<T>>, r: nat)
    requires Valid(s) && Run(s, steps).writeSeq < FREE
    requires KeepsUp(s, steps, r)
    ensures LogOf(Run(s, steps), r).skipped == LogOf(s, r).skipped
    decreases |steps|
  {
    if steps != [] {
      LogOnlyGrows(s, steps);
      StepSkipsNothing(s, steps[0], r);
      NextKeeps(s, steps[0]);
      KeepingUpSkipsNothing(Next(s, steps[0]), steps[1..], r);
    }
  }

  /** From connecting on, a reader that never falls more than a lap behind is given every
      index, in order. */
  lemma KeepingUpDeliversAll<T>(capacity: nat, maxReaders: nat, zero: T, steps: seq<Step<T>>, r: nat)
    requires capacity > 0
    requires var s := Created(capacity, maxReaders, zero);
             && Run(s, steps).writeSeq < FREE && KeepsUp(s, steps, r)
             && r in Run(s, steps).readers && Run(s, steps).readers[r].Live?
    ensures var t := Run(Created(capacity, maxReaders, zero), steps);
            Consecutive(t.readers[r].log, t.cursors[t.readers[r].slot])
  {
    var s := Created(capacity, maxReaders, zero);
    EveryRunIsValid(capacity, maxReaders, zero, steps);
    KeepingUpSkipsNothing(s, steps, r);
    NothingSkippedIff(Run(s, steps), r);
  }

  // ---------------------------------------------------------------------------
  // What is seen

  ghost predicate LooksInTime<T>(log: Log<T>, capacity: nat) {
    forall k :: 0 <= k < |log.seen| ==> log.seen[k].reached <= log.seen[k].index + capacity
  }

  /** Every look showed the message it was for. */
  ghost predicate LooksRight<T>(log: Log<T>, history: seq<T>) {
    forall k :: 0 <= k < |log.seen| ==>
      log.seen[k].index < |history| && log.seen[k].value == history[log.seen[k].index]
  }

  /** While the reader holds a reference the writer has not written a lap ahead of it, drafts
      included. */
  ghost predicate HoldsInTime<T>(s: Ring<T>, steps: seq<Step<T>>, r: nat)
    requires Shape(s)
    decreases |steps|
  {
    && (r in s.readers && s.readers[r].Live? && s.readers[r].pc.Holding? ==>
          Reached(s) < s.cursors[s.readers[r].slot] + |s.data|)
    && (steps != [] ==> HoldsInTime(Next(s, steps[0]), steps[1..], r))
  }

  lemma MoveLooksInTime<T>(s: Ring<T>, pc: Pc, log: Log<T>, cursor: nat, move: Move)
    requires |s.data| > 0 && PcFits(pc, cursor, s.writeSeq, log.got)
    requires pc.Holding? ==> Reached(s) < cursor + |s.data|
    requires LooksInTime(log, |s.data|)
    ensures var (_, log', _) := Moved(s, pc, log, cursor, move);
            LooksInTime(log', |s.data|)
  {
  }

  lemma StepLooksInTime<T>(s: Ring<T>, step: Step<T>, r: nat)
    requires Valid(s) && HoldsInTime(s, [], r) && LooksInTime(LogOf(s, r), |s.data|)
    ensures LooksInTime(LogOf(Next(s, step), r), |s.data|)
  {
    if step.Read? && step.r == r && r in s.readers && s.readers[r].Live? {
      var reader := s.readers[r];
      assert ReaderFits(s, reader);
      MoveLooksInTime(s, reader.pc, reader.log, s.cursors[reader.slot], step.move);
    }
  }

  lemma {:induction false} HoldingInTimeLooksInTime<T>(s: Ring<T>, steps: seq<Step<T>>, r: nat)
    requires Valid(s) && Run(s, steps).writeSeq < FREE
    requires HoldsInTime(s, steps, r) && LooksInTime(LogOf(s, r), |s.data|)
    ensures LooksInTime(LogOf(Run(s, steps), r), |s.data|)
    decreases |steps|
  {
    if steps != [] {
      LogOnlyGrows(s, steps);
      StepLooksInTime(s, steps[0], r);
      NextKeeps(s, steps[0]);
      HoldingInTimeLooksInTime(Next(s, steps[0]), steps[1..], r);
    }
  }

  /** The values seen, look by look. */
  function Values<T>(seen: seq<Observation<T>>): seq<T> {
    seq(|seen|, k requires 0 <= k < |seen| => seen[k].value)
  }

  /** The reader looked once at each message it was given. */
  ghost predicate LookedOnce<T>(log: Log<T>) {
    |log.seen| == |log.got| && forall k :: 0 <= k < |log.got| ==> log.seen[k].index == log.got[k]
  }

  lemma OneLookEachShowsTheLog<T>(log: Log<T>, cursor: nat, history: seq<T>)
    requires Consecutive(log, cursor) && LookedOnce(log) && LooksRight(log, history) && cursor <= |history|
    ensures Values(log.seen) == history[log.start..cursor]
  {
    forall k | 0 <= k < |log.seen|
      ensures Values(log.seen)[k] == history[log.start..cursor][k]
    {
      assert log.seen[k].index == log.start + k;
    }
  }

  /** A reader that never falls more than a lap behind, and is never lapped while it holds a
      reference, sees the log: each look shows its message, the looks go forward through the
      messages since it connected, and one look at each shows exactly history[start..cursor]. */
  lemma KeepingUpShowsTheLog<T>(capacity: nat, maxReaders: nat, zero: T, steps: seq<Step<T>>, r: nat)
    requires capacity > 0
    requires var s := Created(capacity, maxReaders, zero);
             && Run(s, steps).writeSeq < FREE && KeepsUp(s, steps, r) && HoldsInTime(s, steps, r)
             && r in Run(s, steps).readers && Run(s, steps).readers[r].Live?
    ensures var t := Run(Created(capacity, maxReaders, zero), steps);
            var log := t.readers[r].log;
            var cursor := t.cursors[t.readers[r].slot];
            && LooksRight(log, t.history) && LooksInOrder(log) && Consecutive(log, cursor)
            && cursor <= |t.history|
            && (LookedOnce(log) ==> Values(log.seen) == t.history[log.start..cursor])
  {
    var s := Created(capacity, maxReaders, zero);
    var t := Run(s, steps);
    EveryRunIsValid(capacity, maxReaders, zero, steps);
    KeepingUpDeliversAll(capacity, maxReaders, zero, steps, r);
    HoldingInTimeLooksInTime(s, steps, r);
    assert ReaderFits(t, t.readers[r]);
    var log := t.readers[r].log;
    assert LooksRight(log, t.history);
    if LookedOnce(log) {
      OneLookEachShowsTheLog(log, t.cursors[t.readers[r].slot], t.history);
    }
  }

  // ---------------------------------------------------------------------------
  // Late looks

  ghost predicate SeenExactly<T>(seen: seq<Observation<T>>, history: seq<T>, capacity: nat) {
    forall k :: 0 <= k < |seen| ==>
      && seen[k].index < |history|
      && (seen[k].value == history[seen[k].index] <==> seen[k].reached <= seen[k].index + capacity)
  }

  /** The reader, if it holds a reference, would look at distinct messages. */
  ghost predicate DistinctFor<T>(s: Ring<T>, r: nat)
    requires Shape(s)
  {
    r in s.readers && s.readers[r].Live? && s.readers[r].pc.Holding? ==> DistinctAt(s, s.readers[r].pc.index)
  }

  /** Whenever the reader looks, all messages differ, a draft included. */
  ghost predicate LooksAtDistinct<T>(s: Ring<T>, steps: seq<Step<T>>, r: nat)
    requires Shape(s)
    decreases |steps|
  {
    steps != [] ==>
      && (steps[0] == Read(r, Deref) ==> DistinctFor(s, r))
      && LooksAtDistinct(Next(s, steps[0]), steps[1..], r)
  }

  lemma SeenStaysExact<T>(seen: seq<Observation<T>>, history: seq<T>, more: seq<T>, capacity: nat)
    requires SeenExactly(seen, history, capacity) && history <= more
    ensures SeenExactly(seen, more, capacity)
  {
  }

  lemma MoveSeesExactly<T>(s: Ring<T>, pc: Pc, log: Log<T>, cursor: nat, move: Move)
    requires Valid(s) && PcFits(pc, cursor, s.writeSeq, log.got)
    requires move == Deref && pc.Holding? ==> DistinctAt(s, pc.index)
    requires SeenExactly(log.seen, s.history, |s.data|)
    ensures var (_, log', _) := Moved(s, pc, log, cursor, move);
            SeenExactly(log'.seen, s.history, |s.data|)
  {
    if move == Deref && pc.Holding? {
      ReferenceIsRightIff(s, pc.index);
    }
  }

  lemma StepSeesExactly<T>(s: Ring<T>, step: Step<T>, r: nat)
    requires Valid(s) && (step == Read(r, Deref) ==> DistinctFor(s, r))
    requires SeenExactly(LogOf(s, r).seen, s.history, |s.data|)
    ensures SeenExactly(LogOf(Next(s, step), r).seen, Next(s, step).history, |s.data|)
  {
    if step.Read? && step.r == r && r in s.readers && s.readers[r].Live? {
      var reader := s.readers[r];
      assert ReaderFits(s, reader);
      MoveSeesExactly(s, reader.pc, reader.log, s.cursors[reader.slot], step.move);
    } else {
      SeenStaysExact(LogOf(s, r).seen, s.history, Next(s, step).history, |s.data|);
    }
  }

  lemma {:induction false} RunSeesExactly<T>(s: Ring<T>, steps: seq<Step<T>>, r: nat)
    requires Valid(s) && Run(s, steps).writeSeq < FREE
    requires LooksAtDistinct(s, steps, r) && SeenExactly(LogOf(s, r).seen, s.history, |s.data|)
    ensures SeenExactly(LogOf(Run(s, steps), r).seen, Run(s, steps).history, |s.data|)
    decreases |steps|
  {
    if steps != [] {
      LogOnlyGrows(s, steps);
      StepSeesExactly(s, steps[0], r);
      NextKeeps(s, steps[0]);
      RunSeesExactly(Next(s, steps[0]), steps[1..], r);
    }
  }

  /** Over any run on distinct messages, what a reader saw is right exactly if every look came
      before its slot was written to again. */
  lemma LooksAreRightIffInTime<T>(capacity: nat, maxReaders: nat, zero: T, steps: seq<Step<T>>, r: nat)
    requires capacity > 0
    requires var s := Created(capacity, maxReaders, zero);
             Run(s, steps).writeSeq < FREE && LooksAtDistinct(s, steps, r)
    ensures var t := Run(Created(capacity, maxReaders, zero), steps);
            LooksRight(LogOf(t, r), t.history) <==> LooksInTime(LogOf(t, r), capacity)
  {
    RunSeesExactly(Created(capacity, maxReaders, zero), steps, r);
  }

  /** Keeping up is not enough: in any state in which a reader holds the oldest retained message,
      the writer can show it a draft, while the lag stays within the capacity. */
  lemma HolderCanSeeDraft<T>(s: Ring<T>, r: nat, draft: T)
    requires Valid(s) && s.pending.None? && r in s.readers && s.readers[r].Live? && s.readers[r].pc.Holding?
    requires s.writeSeq == s.readers[r].pc.index + |s.data|
    ensures var index := s.readers[r].pc.index;
            var prepared := Next(s, Prepare);
            var filled := Next(prepared, Fill(draft));
            var looked := Next(filled, Read(r, Deref));
            && KeepsUp(s, [], r) && KeepsUp(prepared, [], r) && KeepsUp(filled, [], r) && KeepsUp(looked, [], r)
            && looked.history == s.history
            && LogOf(looked, r).seen == LogOf(s, r).seen + [Observation(index, draft, s.writeSeq + 1, s.writeSeq + 1)]
  {
    assert ReaderFits(s, s.readers[r]);
    LapsLater(s.readers[r].pc.index, 1, |s.data|);
  }

  lemma KeepsUpFirst<T>(s: Ring<T>, step: Step<T>, rest: seq<Step<T>>, r: nat)
    requires Shape(s) && KeepsUp(s, [], r) && KeepsUp(Next(s, step), rest, r)
    ensures KeepsUp(s, [step] + rest, r) && Run(s, [step] + rest) == Run(Next(s, step), rest)
  {
    assert ([step] + rest)[1..] == rest;
  }

  /** One slot, one reader, one message committed; data lies in the slot. */
  function Small(data: int, pending: Option<nat>, written: nat, pc: Pc, log: Log<int>, cursor: nat): (s: Ring<int>)
    ensures Shape(s)
  {
    Ring([data], [cursor], 1, pending, written, [7], [Some(0)], map[0 := Live(0, pc, log)])
  }

  lemma SmallReads(data: int, pending: Option<nat>, written: nat, pc: Pc, log: Log<int>, cursor: nat, move: Move,
                   rest: seq<Step<int>>)
    requires var s := Small(data, pending, written, pc, log, cursor);
             var (pc', log', cursor') := Moved(s, pc, log, cursor, move);
             KeepsUp(Small(data, pending, written, pc', log', cursor'), rest, 0)
    ensures var s := Small(data, pending, written, pc, log, cursor);
            var (pc', log', cursor') := Moved(s, pc, log, cursor, move);
            var t := Small(data, pending, written, pc', log', cursor');
            && KeepsUp(s, [Read(0, move)] + rest, 0)
            && Run(s, [Read(0, move)] + rest) == Run(t, rest)
  {
    var s := Small(data, pending, written, pc, log, cursor);
    var (pc', log', cursor') := Moved(s, pc, log, cursor, move);
    assert Next(s, Read(0, move)) == Small(data, pending, written, pc', log', cursor');
    KeepsUpFirst(s, Read(0, move), rest, 0);
  }

  lemma SmallIsReached(rest: seq<Step<int>>) returns (steps: seq<Step<int>>)
    requires KeepsUp(Small(7, None, 1, Ready, Log(0, [], 0, []), 0), rest, 0)
    ensures KeepsUp(Created(1, 1, 0), steps, 0)
    ensures Run(Created(1, 1, 0), steps) == Run(Small(7, None, 1, Ready, Log(0, [], 0, []), 0), rest)
  {
    var live := map[0 := Live(0, Ready, Log(0, [], 0, []))];
    var s0 := Created(1, 1, 0);
    var s1 := Next(s0, Connect(0));
    var s2 := Ring([0], [0], 0, None, 0, [], [Some(0)], live);
    assert Next(s1, Claim(0)) == s2;
    var s3 := Ring([0], [0], 0, Some(0), 0, [], [Some(0)], live);
    assert Next(s2, Prepare) == s3;
    var s4 := Ring([7], [0], 0, Some(0), 1, [], [Some(0)], live);
    assert Next(s3, Fill(7)) == s4;
    assert Next(s4, Commit) == Small(7, None, 1, Ready, Log(0, [], 0, []), 0);
    KeepsUpFirst(s4, Commit, rest, 0);
    steps := [Commit] + rest;
    KeepsUpFirst(s3, Fill(7), steps, 0);
    steps := [Fill(7)] + steps;
    KeepsUpFirst(s2, Prepare, steps, 0);
    steps := [Prepare] + steps;
    KeepsUpFirst(s1, Claim(0), steps, 0);
    steps := [Claim(0)] + steps;
    KeepsUpFirst(s0, Connect(0), steps, 0);
    steps := [Connect(0)] + steps;
  }

  lemma SmallIsChosen(rest: seq<Step<int>>) returns (steps: seq<Step<int>>)
    requires KeepsUp(Small(7, None, 1, Chosen(0), Log(0, [], 0, []), 0), rest, 0)
    ensures var ready := Small(7, None, 1, Ready, Log(0, [], 0, []), 0);
            && KeepsUp(ready, steps, 0)
            && Run(ready, steps) == Run(Small(7, None, 1, Chosen(0), Log(0, [], 0, []), 0), rest)
  {
    var log: Log<int> := Log(0, [], 0, []);
    SmallReads(7, None, 1, LoadedCursor(1, 0), log, 0, Choose(false), rest);
    steps := [Read(0, Choose(false))] + rest;
    SmallReads(7, None, 1, LoadedWrite(1), log, 0, LoadCursor, steps);
    steps := [Read(0, LoadCursor)] + steps;
    SmallReads(7, None, 1, Ready, log, 0, LoadWrite, steps);
    steps := [Read(0, LoadWrite)] + steps;
  }

  lemma SmallIsHeld(rest: seq<Step<int>>) returns (steps: seq<Step<int>>)
    requires KeepsUp(Small(7, None, 1, Holding(0), Log(0, [0], 0, []), 1), rest, 0)
    ensures var chosen := Small(7, None, 1, Chosen(0), Log(0, [], 0, []), 0);
            && KeepsUp(chosen, steps, 0)
            && Run(chosen, steps) == Run(Small(7, None, 1, Holding(0), Log(0, [0], 0, []), 1), rest)
  {
    var log: Log<int> := Log(0, [], 0, []);
    assert log.got + [0] == [0];
    assert Moved(Small(7, None, 1, RefTaken(0), log, 0), RefTaken(0), log, 0, StoreCursor)
        == (Holding(0), Log(0, [0], 0, []), 1);
    SmallReads(7, None, 1, RefTaken(0), log, 0, StoreCursor, rest);
    steps := [Read(0, StoreCursor)] + rest;
    SmallReads(7, None, 1, Chosen(0), log, 0, TakeRef, steps);
    steps := [Read(0, TakeRef)] + steps;
  }

  lemma HeldSeesDraft() returns (steps: seq<Step<int>>)
    ensures var held := Small(7, None, 1, Holding(0), Log(0, [0], 0, []), 1);
            && KeepsUp(held, steps, 0) && Run(held, steps).history == [7]
            && LogOf(Run(held, steps), 0).seen == [Observation(0, 8, 2, 2)]
  {
    var log: Log<int> := Log(0, [0], 0, []);
    var held := Small(7, None, 1, Holding(0), log, 1);
    var prepared := Small(7, Some(1), 1, Holding(0), log, 1);
    var drafted := Small(8, Some(1), 2, Holding(0), log, 1);
    assert Next(held, Prepare) == prepared && Next(prepared, Fill(8)) == drafted;
    SmallReads(8, Some(1), 2, Holding(0), log, 1, Deref, []);
    steps := [Read(0, Deref)] + [];
    KeepsUpFirst(prepared, Fill(8), steps, 0);
    steps := [Fill(8)] + steps;
    KeepsUpFirst(held, Prepare, steps, 0);
    steps := [Prepare] + steps;
  }

  /** The smallest such run: the reader keeps up throughout, and sees 8, which is never
      committed, where the log has 7. */
  lemma KeepingUpIsNotEnough() returns (steps: seq<Step<int>>)
    ensures var s := Created(1, 1, 0);
            && KeepsUp(s, steps, 0) && Run(s, steps).history == [7]
            && LogOf(Run(s, steps), 0).seen == [Observation(0, 8, 2, 2)]
  {
    var last := HeldSeesDraft();
    var held := SmallIsHeld(last);
    var chosen := SmallIsChosen(held);
    steps := SmallIsReached(chosen);
  }
}
