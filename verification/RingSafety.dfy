/** What every interleaving of the ring's steps guarantees. */
module RingSafety {
  import opened RingLog
  import opened RingProtocol
  import opened Specs

  // ---------------------------------------------------------------------------
  // Runs

  ghost predicate PendingIsNext<T>(s: Ring<T>) {
    s.pending.Some? ==> s.pending.value == s.writeSeq
  }

  /** The log of committed messages is only ever appended to. */
  lemma {:induction false} LogOnlyGrows<T>(s: Ring<T>, steps: seq<Step<T>>)
    requires Shape(s) && PendingIsNext(s)
    ensures s.writeSeq <= Run(s, steps).writeSeq && s.history <= Run(s, steps).history
    decreases |steps|
  {
    if steps != [] {
      LogOnlyGrows(Next(s, steps[0]), steps[1..]);
    }
  }

  lemma {:induction false} RunKeeps<T>(s: Ring<T>, steps: seq<Step<T>>)
    requires Valid(s) && Run(s, steps).writeSeq < FREE
    ensures Valid(Run(s, steps))
    decreases |steps|
  {
    if steps != [] {
      LogOnlyGrows(s, steps);
      NextKeeps(s, steps[0]);
      RunKeeps(Next(s, steps[0]), steps[1..]);
    }
  }

  /** Every state of every run satisfies the invariant, as long as the write sequence stays
      below the free marker. */
  lemma EveryRunIsValid<T>(capacity: nat, maxReaders: nat, zero: T, steps: seq<Step<T>>)
    requires capacity > 0
    requires Run(Created(capacity, maxReaders, zero), steps).writeSeq < U64_MAX
    ensures Valid(Run(Created(capacity, maxReaders, zero), steps))
  {
    RunKeeps(Created(capacity, maxReaders, zero), steps);
  }

  /** prepare, a write through the reference, commit: one message more in the log. */
  lemma WriteAppends<T>(s: Ring<T>, value: T)
    requires Valid(s)
    ensures var t := Run(s, [Prepare, Fill(value), Commit]);
            t.history == s.history + [value] && t.writeSeq == s.writeSeq + 1 && t.pending == None
  {
    var p := Next(s, Prepare);
    var f := Next(p, Fill(value));
    assert Run(f, [Commit]) == Next(f, Commit) by {
      assert Run(Next(f, Commit), []) == Next(f, Commit);
    }
    assert [Prepare, Fill(value), Commit][1..] == [Fill(value), Commit];
    assert [Fill(value), Commit][1..] == [Commit];
    assert Run(p, [Fill(value), Commit]) == Run(f, [Commit]);
  }

  // ---------------------------------------------------------------------------
  // References

  /** A reader's log, which outlives its connection. */
  function LogOf<T>(s: Ring<T>, r: nat): Log<T> {
    if r !in s.readers then Log(0, [], 0, [])
    else match s.readers[r]
      case Live(_, _, log) => log
      case Gone(_, log) => log
      case _ => Log(0, [], 0, [])
  }

  /** A look is in time if nothing had been written through a prepare that handed out the slot
      again; all the more so if there was no such prepare. */
  lemma EveryLookInTimeIsRight<T>(capacity: nat, maxReaders: nat, zero: T, steps: seq<Step<T>>, r: nat, k: nat)
    requires capacity > 0
    requires var s := Run(Created(capacity, maxReaders, zero), steps);
             s.writeSeq < FREE && k < |LogOf(s, r).seen|
    ensures var s := Run(Created(capacity, maxReaders, zero), steps);
            var look := LogOf(s, r).seen[k];
            && look.index < |s.history|
            && look.reached <= look.handedOut
            && (look.reached <= look.index + capacity ==> look.value == s.history[look.index])
  {
    EveryRunIsValid(capacity, maxReaders, zero, steps);
    var s := Run(Created(capacity, maxReaders, zero), steps);
    assert ReaderFits(s, s.readers[r]);
  }

  /** The last committed index that shares the slot of i. */
  function Newest(writeSeq: nat, i: nat, capacity: nat): nat
    requires i < writeSeq && capacity > 0
  {
    var behind := (writeSeq - 1 - i) % capacity;
    if behind <= writeSeq - 1 then writeSeq - 1 - behind else 0
  }

  lemma NewestSharesSlot(writeSeq: nat, i: nat, capacity: nat)
    requires i < writeSeq && capacity > 0
    ensures var n := Newest(writeSeq, i, capacity);
            i <= n < writeSeq <= n + capacity && n % capacity == i % capacity
  {
    var d := writeSeq - 1 - i;
    var q, r := d / capacity, d % capacity;
    assert d == q * capacity + r && r <= d;
    LapsLater(i, q, capacity);
    assert Newest(writeSeq, i, capacity) == i + q * capacity;
  }

  /** A draft lies in the slot of i: written, not committed. */
  ghost predicate HoldsDraft<T>(s: Ring<T>, i: nat)
    requires Shape(s)
  {
    s.written > s.writeSeq && s.writeSeq % |s.data| == i % |s.data|
  }

  /** A slot without a draft shows the newest message committed to it. */
  lemma SlotShowsNewest<T>(s: Ring<T>, i: nat)
    requires Valid(s) && i < s.writeSeq && !HoldsDraft(s, i)
    ensures s.data[i % |s.data|] == s.history[Newest(s.writeSeq, i, |s.data|)]
  {
    var n := Newest(s.writeSeq, i, |s.data|);
    NewestSharesSlot(s.writeSeq, i, |s.data|);
    LapsLater(n, 1, |s.data|);
    assert Reached(s) <= n + |s.data|;
    assert InSlot(s.data, s.history, n);
  }

  /** No message was committed twice, and a draft in the slot of i is none of them. */
  ghost predicate DistinctAt<T>(s: Ring<T>, i: nat)
    requires Shape(s)
  {
    && (forall j, k :: 0 <= j < k < |s.history| ==> s.history[j] != s.history[k])
    && (HoldsDraft(s, i) ==> s.data[i % |s.data|] !in s.history)
  }

  /** With distinct messages, a reference to message i shows message i exactly until sequence
      number i + capacity has been written to. */
  lemma ReferenceIsRightIff<T>(s: Ring<T>, i: nat)
    requires Valid(s) && i < s.writeSeq && DistinctAt(s, i)
    ensures s.data[i % |s.data|] == s.history[i] <==> Reached(s) <= i + |s.data|
  {
    if Reached(s) <= i + |s.data| {
      assert InSlot(s.data, s.history, i);
    } else if HoldsDraft(s, i) {
      assert s.data[i % |s.data|] !in s.history;
    } else {
      NewestSharesSlot(s.writeSeq, i, |s.data|);
      SlotShowsNewest(s, i);
      LapsLater(i, 1, |s.data|);
      assert Newest(s.writeSeq, i, |s.data|) > i;
    }
  }

  /** A prepare that nothing was written through yet has spoilt no reference. */
  lemma PrepareAloneSpoilsNothing<T>(s: Ring<T>, i: nat)
    requires Valid(s) && s.pending.None? && i < s.writeSeq && DistinctAt(s, i)
    ensures Next(s, Prepare).data[i % |s.data|] == s.history[i] <==> s.writeSeq <= i + |s.data|
  {
    ReferenceIsRightIff(s, i);
  }

  /** The next prepare overwrites a retained message exactly if it has no slack left. */
  lemma PrepareHitsOldestOnly<T>(s: Ring<T>, i: nat, value: T)
    requires Valid(s) && s.pending.None? && i < s.writeSeq <= i + |s.data|
    ensures Next(Next(s, Prepare), Fill(value)).data[i % |s.data|]
         == if s.writeSeq == i + |s.data| then value else s.history[i]
  {
    var p := Next(s, Prepare);
    assert InSlot(s.data, s.history, i);
    if s.writeSeq == i + |s.data| {
      LapsLater(i, 1, |s.data|);
    } else {
      ModDiffers(i, s.writeSeq, |s.data|);
    }
  }

  // ---------------------------------------------------------------------------
  // Choosing

  /** try_read's test for inequality is as good as read's test for order, and the chosen index
      has a slack of capacity less the lag, none for a reader a full lap or more behind. */
  lemma ChoiceSlack<T>(s: Ring<T>, r: nat, strict: bool)
    requires Valid(s) && r in s.readers && s.readers[r].Live? && s.readers[r].pc.LoadedCursor?
    ensures Next(s, Read(r, Choose(true))) == Next(s, Read(r, Choose(false)))
    ensures var before := s.readers[r];
            var t := Next(s, Read(r, Choose(strict)));
            var after := t.readers[r];
            var lag := before.pc.ws - before.pc.rs;
            && after.Live? && after.slot == before.slot && after.log.got == before.log.got
            && after.log.skipped == before.log.skipped + Behind(lag, |s.data|)
            && t.cursors[after.slot] == s.cursors[before.slot] + Behind(lag, |s.data|)
            && (lag == 0 ==> after.pc == Ready)
            && (lag > 0 ==> after.pc == Chosen(t.cursors[after.slot])
                            && t.cursors[after.slot] + |s.data| - before.pc.ws == Behind(|s.data|, lag))
  {
    assert ReaderFits(s, s.readers[r]);
  }

  /** s with reader r elsewhere in a read. */
  function Placed<T>(s: Ring<T>, r: nat, pc: Pc, log: Log<T>, cursor: nat): (t: Ring<T>)
    requires Shape(s) && r in s.readers && s.readers[r].Live?
    ensures Shape(t) && r in t.readers && t.readers[r].Live?
  {
    var slot := s.readers[r].slot;
    s.(cursors := s.cursors[slot := cursor], readers := s.readers[r := Live(slot, pc, log)])
  }

  lemma PlacedMoves<T>(s: Ring<T>, r: nat, pc: Pc, log: Log<T>, cursor: nat, move: Move)
    requires Shape(s) && r in s.readers && s.readers[r].Live?
    ensures var (pc', log', cursor') := Moved(s, pc, log, cursor, move);
            Next(Placed(s, r, pc, log, cursor), Read(r, move)) == Placed(s, r, pc', log', cursor')
  {
    var t := Placed(s, r, pc, log, cursor);
    assert Moved(t, pc, log, cursor, move) == Moved(s, pc, log, cursor, move);
    var slot := s.readers[r].slot;
    var (pc', log', cursor') := Moved(s, pc, log, cursor, move);
    assert t.cursors[slot := cursor'] == s.cursors[slot := cursor'];
    assert t.readers[r := Live(slot, pc', log')] == s.readers[r := Live(slot, pc', log')];
  }

  /** Several moves of one reader with no other step in between. */
  datatype Moves = Done | Then(move: Move, rest: Moves)

  function MovedBy<T>(s: Ring<T>, pc: Pc, log: Log<T>, cursor: nat, moves: Moves): (Pc, Log<T>, nat)
    requires |s.data| > 0
    decreases moves
  {
    match moves
    case Done => (pc, log, cursor)
    case Then(move, rest) =>
      var (pc', log', cursor') := Moved(s, pc, log, cursor, move);
      MovedBy(s, pc', log', cursor', rest)
  }

  function Reads<T>(r: nat, moves: Moves): seq<Step<T>> {
    match moves
    case Done => []
    case Then(move, rest) => [Read(r, move)] + Reads(r, rest)
  }

  lemma {:induction false} RunOfMoves<T>(s: Ring<T>, r: nat, pc: Pc, log: Log<T>, cursor: nat, moves: Moves)
    requires Shape(s) && r in s.readers && s.readers[r].Live?
    ensures var (pc', log', cursor') := MovedBy(s, pc, log, cursor, moves);
            Run(Placed(s, r, pc, log, cursor), Reads(r, moves)) == Placed(s, r, pc', log', cursor')
    decreases moves
  {
    if moves.Then? {
      var steps := Reads<T>(r, moves);
      var (pc', log', cursor') := Moved(s, pc, log, cursor, moves.move);
      PlacedMoves(s, r, pc, log, cursor, moves.move);
      assert steps[0] == Read(r, moves.move) && steps[1..] == Reads(r, moves.rest);
      RunOfMoves(s, r, pc', log', cursor', moves.rest);
    }
  }

  /** The moves of one whole read: which test it uses, and whether the reference is taken
      before the cursor is stored. */
  function WholeRead(strict: bool, refFirst: bool): Moves {
    Then(LoadWrite, Then(LoadCursor, Then(Choose(strict), Delivery(refFirst))))
  }

  function Delivery(refFirst: bool): Moves {
    var look := Then(Deref, Then(Release, Done));
    if refFirst then Then(TakeRef, Then(StoreCursor, look)) else Then(StoreCursor, Then(TakeRef, look))
  }

  /** The log with one more message delivered and looked at. */
  function Extended<T>(s: Ring<T>, log: Log<T>, index: nat): Log<T>
    requires |s.data| > 0
  {
    var look := Observation(index, s.data[index % |s.data|], HandedOut(s), Reached(s));
    log.(got := log.got + [index], seen := log.seen + [look])
  }

  lemma HeldIsLookedAt<T>(s: Ring<T>, index: nat, log: Log<T>)
    requires |s.data| > 0
    ensures var look := Observation(index, s.data[index % |s.data|], HandedOut(s), Reached(s));
            MovedBy(s, Holding(index), log, index + 1, Then(Deref, Then(Release, Done))) ==
            (Ready, log.(seen := log.seen + [look]), index + 1)
  {
    var look := Observation(index, s.data[index % |s.data|], HandedOut(s), Reached(s));
    var seen := log.(seen := log.seen + [look]);
    assert MovedBy(s, Holding(index), seen, index + 1, Then(Release, Done))
        == MovedBy(s, Ready, seen, index + 1, Done);
  }

  lemma DeliveryDelivers<T>(s: Ring<T>, index: nat, log: Log<T>, refFirst: bool)
    requires |s.data| > 0
    ensures MovedBy(s, Chosen(index), log, index, Delivery(refFirst)) == (Ready, Extended(s, log, index), index + 1)
  {
    var got := log.(got := log.got + [index]);
    var look := Then(Deref, Then(Release, Done));
    HeldIsLookedAt(s, index, got);
    assert MovedBy(s, RefTaken(index), log, index, Then(StoreCursor, look))
        == MovedBy(s, Holding(index), got, index + 1, look);
    assert MovedBy(s, Stored(index), got, index + 1, Then(TakeRef, look))
        == MovedBy(s, Holding(index), got, index + 1, look);
  }

  lemma WholeReadMoves<T>(s: Ring<T>, log: Log<T>, cursor: nat, strict: bool, refFirst: bool)
    requires |s.data| > 0 && cursor < s.writeSeq
    ensures var index := Pick(s.writeSeq, cursor, |s.data|);
            MovedBy(s, Ready, log, cursor, WholeRead(strict, refFirst)) ==
            (Ready, Extended(s, log.(skipped := log.skipped + (index - cursor)), index), index + 1)
  {
    var index := Pick(s.writeSeq, cursor, |s.data|);
    var rest := Delivery(refFirst);
    DeliveryDelivers(s, index, log.(skipped := log.skipped + (index - cursor)), refFirst);
    assert MovedBy(s, LoadedCursor(s.writeSeq, cursor), log, cursor, Then(Choose(strict), rest))
        == MovedBy(s, Chosen(index), log.(skipped := log.skipped + (index - cursor)), index, rest);
    assert MovedBy(s, LoadedWrite(s.writeSeq), log, cursor, Then(LoadCursor, Then(Choose(strict), rest)))
        == MovedBy(s, LoadedCursor(s.writeSeq, cursor), log, cursor, Then(Choose(strict), rest));
  }

  lemma RunOfReads<T>(s: Ring<T>, r: nat, moves: Moves)
    requires Shape(s) && r in s.readers && s.readers[r].Live?
    ensures var reader := s.readers[r];
            var (pc, log, cursor) := MovedBy(s, reader.pc, reader.log, s.cursors[reader.slot], moves);
            Run(s, Reads(r, moves)) == Placed(s, r, pc, log, cursor)
  {
    var reader := s.readers[r];
    RunOfMoves(s, r, reader.pc, reader.log, s.cursors[reader.slot], moves);
    assert s.cursors[reader.slot := s.cursors[reader.slot]] == s.cursors;
    assert s.readers[r := Live(reader.slot, reader.pc, reader.log)] == s.readers;
  }

  /** try_read, read and read_timeout, run without interruption, deliver the same message and
      leave the same ring: the index picked, the cursor one past it, what lies between skipped. */
  lemma WholeReadDelivers<T>(s: Ring<T>, r: nat, strict: bool, refFirst: bool)
    requires Shape(s) && r in s.readers && s.readers[r].Live? && s.readers[r].pc.Ready?
    requires s.cursors[s.readers[r].slot] < s.writeSeq
    ensures var log := s.readers[r].log;
            var cursor := s.cursors[s.readers[r].slot];
            var index := Pick(s.writeSeq, cursor, |s.data|);
            Run(s, Reads(r, WholeRead(strict, refFirst))) ==
            Placed(s, r, Ready, Extended(s, log.(skipped := log.skipped + (index - cursor)), index), index + 1)
  {
    RunOfReads(s, r, WholeRead(strict, refFirst));
    WholeReadMoves(s, s.readers[r].log, s.cursors[s.readers[r].slot], strict, refFirst);
  }

  // ---------------------------------------------------------------------------
  // Ownership

  lemma OwnersDiffer<T>(s: Ring<T>, p: nat, q: nat)
    requires Valid(s) && p in s.readers && q in s.readers && p != q
    requires s.readers[p].Live? && s.readers[q].Live?
    ensures s.readers[p].slot != s.readers[q].slot
    ensures s.cursors[s.readers[p].slot] != FREE
  {
  }

  /** A live reader, and its cursor, change only by its own steps. */
  lemma CursorIsPrivate<T>(s: Ring<T>, step: Step<T>, r: nat)
    requires Valid(s) && r in s.readers && s.readers[r].Live?
    requires !(step.Read? && step.r == r) && !(step.Drop? && step.r == r)
    ensures r in Next(s, step).readers && Next(s, step).readers[r] == s.readers[r]
    ensures Next(s, step).cursors[s.readers[r].slot] == s.cursors[s.readers[r].slot]
  {
  }
}
