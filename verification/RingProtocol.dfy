/** The broadcast ring as an interleaving of single steps: one writer, any number of readers,
    each step at most one access to shared memory. */
module RingProtocol {
  import opened RingLog
  import opened Specs

  /** The cursor of a slot nobody owns. */
  const FREE: nat := U64_MAX

  /** Where a connected reader stands inside a read. */
  datatype Pc =
    | Ready
    | LoadedWrite(ws: nat)
    | LoadedCursor(ws: nat, rs: nat)
    | Chosen(index: nat)
    | RefTaken(index: nat)
    | Stored(index: nat)
    | Holding(index: nat)

  /** One look through a reference: which message it was taken for, what it showed, and by then
      how many sequence numbers had been handed out and how many of them written to. */
  datatype Observation<T> = Observation(index: nat, value: T, handedOut: nat, reached: nat)

  /** What a reader was given since it connected: indices delivered, the number of messages
      jumped over, looks taken. */
  datatype Log<T> = Log(start: nat, got: seq<nat>, skipped: nat, seen: seq<Observation<T>>)

  datatype Reader<T> =
    | Scanning(ws: nat, next: nat)
    | Refused
    | Live(slot: nat, pc: Pc, log: Log<T>)
    | Gone(end: nat, last: Log<T>)

  /** Beside the shared memory: one past the last sequence number written through, every message
      committed, who claimed which cursor, the readers. */
  datatype Ring<T> = Ring(
    data: seq<T>,
    cursors: seq<nat>,
    writeSeq: nat,
    pending: Option<nat>,
    written: nat,
    history: seq<T>,
    owner: seq<Option<nat>>,
    readers: map<nat, Reader<T>>)

  datatype Move = LoadWrite | LoadCursor | Choose(strict: bool) | TakeRef | StoreCursor | Deref | Release

  datatype Step<T> =
    | Prepare
    | Fill(value: T)
    | Commit
    | Connect(r: nat)
    | Claim(r: nat)
    | Read(r: nat, move: Move)
    | Drop(r: nat)

  ghost predicate Shape<T>(s: Ring<T>) {
    && |s.data| > 0 && |s.owner| == |s.cursors|
    && forall r :: r in s.readers && s.readers[r].Live? ==> s.readers[r].slot < |s.cursors|
  }

  function Created<T>(capacity: nat, maxReaders: nat, zero: T): (s: Ring<T>)
    requires capacity > 0
  {
    Ring(seq(capacity, _ => zero), seq(maxReaders, _ => FREE), 0, None, 0, [], seq(maxReaders, _ => None), map[])
  }

  /** How many sequence numbers prepare has handed out. */
  function HandedOut<T>(s: Ring<T>): nat {
    if s.pending.Some? then s.pending.value + 1 else s.writeSeq
  }

  /** How many of them were written to, or committed as they were. */
  function Reached<T>(s: Ring<T>): nat {
    if s.written > s.writeSeq then s.written else s.writeSeq
  }

  // ---------------------------------------------------------------------------
  // Steps

  /** One compare_exchange of the connect scan. */
  function Claimed<T>(s: Ring<T>, r: nat): (t: Ring<T>)
    requires Shape(s) && r in s.readers && s.readers[r].Scanning?
  {
    var scan := s.readers[r];
    if scan.next >= |s.cursors| then s.(readers := s.readers[r := Refused])
    else if s.cursors[scan.next] == FREE then
      s.(cursors := s.cursors[scan.next := scan.ws],
         owner := s.owner[scan.next := Some(r)],
         readers := s.readers[r := Live(scan.next, Ready, Log(scan.ws, [], 0, []))])
    else s.(readers := s.readers[r := Scanning(scan.ws, scan.next + 1)])
  }

  /** One step of a read, by the owner of the cursor. */
  function Moved<T>(s: Ring<T>, pc: Pc, log: Log<T>, cursor: nat, move: Move): (Pc, Log<T>, nat)
    requires |s.data| > 0
  {
    match (move, pc)
    case (LoadWrite, Ready) => (LoadedWrite(s.writeSeq), log, cursor)
    case (LoadCursor, LoadedWrite(ws)) => (LoadedCursor(ws, cursor), log, cursor)
    case (Choose(strict), LoadedCursor(ws, rs)) =>
      (match Decide(strict, ws, rs, |s.data|)
       case None => (Ready, log, cursor)
       case Some(index) =>
         (Chosen(index), log.(skipped := log.skipped + Behind(index, rs)),
          if Behind(ws, rs) > |s.data| then index else cursor))
    case (TakeRef, Chosen(index)) => (RefTaken(index), log, cursor)
    case (TakeRef, Stored(index)) => (Holding(index), log, cursor)
    case (StoreCursor, Chosen(index)) => (Stored(index), log.(got := log.got + [index]), index + 1)
    case (StoreCursor, RefTaken(index)) => (Holding(index), log.(got := log.got + [index]), index + 1)
    case (Deref, Holding(index)) =>
      (pc, log.(seen := log.seen + [Observation(index, s.data[index % |s.data|], HandedOut(s), Reached(s))]), cursor)
    case (Release, Holding(index)) => (Ready, log, cursor)
    case _ => (pc, log, cursor)
  }

  function Next<T>(s: Ring<T>, step: Step<T>): (t: Ring<T>)
    requires Shape(s)
    ensures Shape(t) && |t.data| == |s.data| && |t.cursors| == |s.cursors|
    ensures t.writeSeq == s.writeSeq || step.Commit?
  {
    match step
    case Prepare => s.(pending := Some(s.writeSeq))
    case Fill(value) =>
      if s.pending.None? then s
      else s.(data := s.data[s.pending.value % |s.data| := value], written := s.pending.value + 1)
    case Commit =>
      if s.pending.None? then s
      else s.(writeSeq := s.pending.value + 1, pending := None,
              history := s.history + [s.data[s.pending.value % |s.data|]])
    case Connect(r) =>
      if r in s.readers then s else s.(readers := s.readers[r := Scanning(s.writeSeq, 0)])
    case Claim(r) =>
      if r in s.readers && s.readers[r].Scanning? then Claimed(s, r) else s
    case Read(r, move) =>
      if r in s.readers && s.readers[r].Live? then
        var slot := s.readers[r].slot;
        var (pc, log, cursor) := Moved(s, s.readers[r].pc, s.readers[r].log, s.cursors[slot], move);
        s.(readers := s.readers[r := Live(slot, pc, log)], cursors := s.cursors[slot := cursor])
      else s
    case Drop(r) =>
      if r in s.readers && s.readers[r].Live? && s.readers[r].pc.Ready? then
        var reader := s.readers[r];
        s.(readers := s.readers[r := Gone(s.cursors[reader.slot], reader.log)],
           cursors := s.cursors[reader.slot := FREE],
           owner := s.owner[reader.slot := None])
      else s
  }

  function Run<T>(s: Ring<T>, steps: seq<Step<T>>): (t: Ring<T>)
    requires Shape(s)
    ensures Shape(t) && |t.data| == |s.data| && |t.cursors| == |s.cursors|
    decreases |steps|
  {
    if steps == [] then s else Run(Next(s, steps[0]), steps[1..])
  }

  // ---------------------------------------------------------------------------
  // The invariant

  /** The data slots hold what has not been written over. */
  ghost predicate Retained<T>(s: Ring<T>)
    requires Shape(s)
  {
    && |s.history| == s.writeSeq && (s.pending.Some? ==> s.pending.value == s.writeSeq)
    && s.written <= HandedOut(s)
    && Retains(s.data, s.history, Reached(s))
  }

  /** A cursor is taken exactly if a live reader owns it, and then one reader only. */
  ghost predicate SlotsOwned<T>(s: Ring<T>)
    requires Shape(s)
  {
    && (forall k :: 0 <= k < |s.cursors| ==> (s.cursors[k] == FREE <==> s.owner[k].None?))
    && (forall k :: 0 <= k < |s.owner| && s.owner[k].Some? ==>
          && s.owner[k].value in s.readers
          && s.readers[s.owner[k].value].Live?
          && s.readers[s.owner[k].value].slot == k)
    && (forall r :: r in s.readers && s.readers[r].Live? ==> s.owner[s.readers[r].slot] == Some(r))
  }

  /** Looks are taken at messages delivered, and never go back. */
  ghost predicate LooksInOrder<T>(log: Log<T>) {
    && (forall k :: 0 <= k < |log.seen| ==> log.seen[k].index in log.got)
    && (forall j, k :: 0 <= j < k < |log.seen| ==> log.seen[j].index <= log.seen[k].index)
  }

  /** The indices delivered between start and cursor strictly increase, and run ahead of the
      consecutive ones by no more than what was skipped. */
  ghost predicate Delivered<T>(log: Log<T>, cursor: nat) {
    && log.start + |log.got| + log.skipped == cursor
    && (forall k :: 0 <= k < |log.got| ==>
          log.start + k <= log.got[k] <= log.start + k + log.skipped && log.got[k] < cursor)
    && (forall j, k :: 0 <= j < k < |log.got| ==> log.got[j] < log.got[k])
  }

  ghost predicate PcFits(pc: Pc, cursor: nat, writeSeq: nat, got: seq<nat>) {
    && cursor <= writeSeq
    && match pc
       case Ready => true
       case LoadedWrite(ws) => cursor <= ws <= writeSeq
       case LoadedCursor(ws, rs) => rs == cursor <= ws <= writeSeq
       case Chosen(index) => index == cursor < writeSeq
       case RefTaken(index) => index == cursor < writeSeq
       case Stored(index) => index + 1 == cursor && got != [] && got[|got| - 1] == index
       case Holding(index) => index + 1 == cursor && got != [] && got[|got| - 1] == index
  }

  /** A look taken before the slot was written to again shows the message it was for. */
  ghost predicate SeenRight<T>(seen: seq<Observation<T>>, history: seq<T>, capacity: nat) {
    forall k :: 0 <= k < |seen| ==>
      && seen[k].index < |history|
      && seen[k].reached <= seen[k].handedOut
      && (seen[k].reached <= seen[k].index + capacity ==> seen[k].value == history[seen[k].index])
  }

  ghost predicate ReaderFits<T>(s: Ring<T>, reader: Reader<T>)
    requires reader.Live? ==> reader.slot < |s.cursors|
  {
    match reader
    case Scanning(ws, next) => ws <= s.writeSeq
    case Refused => true
    case Live(slot, pc, log) =>
      && Delivered(log, s.cursors[slot]) && LooksInOrder(log)
      && PcFits(pc, s.cursors[slot], s.writeSeq, log.got)
      && SeenRight(log.seen, s.history, |s.data|)
    case Gone(end, log) =>
      && Delivered(log, end) && LooksInOrder(log) && end <= s.writeSeq
      && SeenRight(log.seen, s.history, |s.data|)
  }

  ghost predicate ReadersFit<T>(s: Ring<T>)
    requires Shape(s)
  {
    forall r :: r in s.readers ==> ReaderFits(s, s.readers[r])
  }

  ghost predicate Valid<T>(s: Ring<T>) {
    Shape(s) && Retained(s) && SlotsOwned(s) && ReadersFit(s)
  }

  // ---------------------------------------------------------------------------
  // The writer's steps

  lemma WriterRetains<T>(s: Ring<T>, step: Step<T>)
    requires Shape(s) && Retained(s) && (step.Prepare? || step.Fill? || step.Commit?)
    ensures Retained(Next(s, step))
  {
    match step
    case Prepare =>
    case Fill(value) =>
      if s.pending.Some? {
        HandingOutRetains(s.data, s.history, Reached(s), s.writeSeq + 1);
        FillRetains(s.data, s.history, value);
      }
    case Commit =>
      if s.pending.Some? {
        HandingOutRetains(s.data, s.history, Reached(s), s.writeSeq + 1);
        CommitRetains(s.data, s.history);
      }
    case _ =>
  }

  lemma SeenStaysRight<T>(seen: seq<Observation<T>>, history: seq<T>, more: seq<T>, capacity: nat)
    requires SeenRight(seen, history, capacity)
    ensures SeenRight(seen, history + more, capacity)
  {
  }

  /** Whatever the writer does, the readers still fit: the log only grows. */
  lemma ReaderStillFits<T>(s: Ring<T>, t: Ring<T>, reader: Reader<T>)
    requires reader.Live? ==> reader.slot < |s.cursors|
    requires ReaderFits(s, reader)
    requires t.cursors == s.cursors && t.writeSeq >= s.writeSeq && |t.data| == |s.data|
    requires s.history <= t.history
    ensures ReaderFits(t, reader)
  {
    var more := t.history[|s.history|..];
    assert t.history == s.history + more;
    match reader
    case Live(_, _, log) => SeenStaysRight(log.seen, s.history, more, |s.data|);
    case Gone(_, log) => SeenStaysRight(log.seen, s.history, more, |s.data|);
    case _ =>
  }

  lemma WriterKeepsReaders<T>(s: Ring<T>, step: Step<T>)
    requires Valid(s) && (step.Prepare? || step.Fill? || step.Commit?)
    ensures SlotsOwned(Next(s, step)) && ReadersFit(Next(s, step))
  {
    var t := Next(s, step);
    forall r | r in t.readers
      ensures ReaderFits(t, t.readers[r])
    {
      ReaderStillFits(s, t, s.readers[r]);
    }
  }

  // ---------------------------------------------------------------------------
  // The readers' steps

  /** A reader's own move keeps what holds of its place, of its deliveries, of its looks. */
  lemma MoveFitsPc<T>(s: Ring<T>, pc: Pc, log: Log<T>, cursor: nat, move: Move)
    requires |s.data| > 0
    requires PcFits(pc, cursor, s.writeSeq, log.got)
    ensures var (pc', log', cursor') := Moved(s, pc, log, cursor, move);
            PcFits(pc', cursor', s.writeSeq, log'.got)
  {
  }

  lemma StoringDelivers<T>(log: Log<T>, cursor: nat)
    requires Delivered(log, cursor)
    ensures Delivered(log.(got := log.got + [cursor]), cursor + 1)
  {
    var got' := log.got + [cursor];
    assert got'[..|log.got|] == log.got;
  }

  lemma MoveDelivers<T>(s: Ring<T>, pc: Pc, log: Log<T>, cursor: nat, move: Move)
    requires |s.data| > 0
    requires Delivered(log, cursor) && PcFits(pc, cursor, s.writeSeq, log.got)
    ensures var (_, log', cursor') := Moved(s, pc, log, cursor, move);
            Delivered(log', cursor')
  {
    if move == StoreCursor && (pc.Chosen? || pc.RefTaken?) {
      StoringDelivers(log, cursor);
    }
  }

  lemma LastIsLargest(got: seq<nat>, index: nat)
    requires got != [] && index in got
    requires forall j, k :: 0 <= j < k < |got| ==> got[j] < got[k]
    ensures index <= got[|got| - 1]
  {
    var k :| 0 <= k < |got| && got[k] == index;
  }

  lemma MoveLooksInOrder<T>(s: Ring<T>, pc: Pc, log: Log<T>, cursor: nat, move: Move)
    requires |s.data| > 0
    requires Delivered(log, cursor) && LooksInOrder(log) && PcFits(pc, cursor, s.writeSeq, log.got)
    ensures var (_, log', _) := Moved(s, pc, log, cursor, move);
            LooksInOrder(log')
  {
    if move == Deref && pc.Holding? {
      forall k | 0 <= k < |log.seen|
        ensures log.seen[k].index <= pc.index
      {
        LastIsLargest(log.got, log.seen[k].index);
      }
    }
  }

  lemma MoveSeesRight<T>(s: Ring<T>, pc: Pc, log: Log<T>, cursor: nat, move: Move)
    requires Shape(s) && Retained(s)
    requires PcFits(pc, cursor, s.writeSeq, log.got) && SeenRight(log.seen, s.history, |s.data|)
    ensures var (_, log', _) := Moved(s, pc, log, cursor, move);
            SeenRight(log'.seen, s.history, |s.data|)
  {
    if move == Deref && pc.Holding? && Reached(s) <= pc.index + |s.data| {
      assert InSlot(s.data, s.history, pc.index);
    }
  }

  /** A step that leaves the writer's fields, the other readers and their cursors alone. */
  lemma OthersStillFit<T>(s: Ring<T>, t: Ring<T>, r: nat)
    requires Valid(s) && Shape(t) && r in t.readers
    requires t.data == s.data && t.writeSeq == s.writeSeq && t.pending == s.pending && t.written == s.written && t.history == s.history
    requires |t.cursors| == |s.cursors| && t.readers == s.readers[r := t.readers[r]]
    requires forall q :: q in s.readers && q != r && s.readers[q].Live? ==>
               t.cursors[s.readers[q].slot] == s.cursors[s.readers[q].slot]
    requires ReaderFits(t, t.readers[r])
    ensures Retained(t) && ReadersFit(t)
  {
    forall q | q in t.readers
      ensures ReaderFits(t, t.readers[q])
    {
      if q != r {
        assert ReaderFits(s, s.readers[q]);
      }
    }
  }

  lemma ReadKeeps<T>(s: Ring<T>, r: nat, move: Move)
    requires Valid(s) && s.writeSeq < FREE
    ensures Valid(Next(s, Read(r, move)))
  {
    var t := Next(s, Read(r, move));
    if r in s.readers && s.readers[r].Live? {
      var reader := s.readers[r];
      MoveFitsPc(s, reader.pc, reader.log, s.cursors[reader.slot], move);
      MoveDelivers(s, reader.pc, reader.log, s.cursors[reader.slot], move);
      MoveLooksInOrder(s, reader.pc, reader.log, s.cursors[reader.slot], move);
      MoveSeesRight(s, reader.pc, reader.log, s.cursors[reader.slot], move);
      OthersStillFit(s, t, r);
    }
  }

  lemma ConnectKeeps<T>(s: Ring<T>, r: nat)
    requires Valid(s)
    ensures Valid(Next(s, Connect(r)))
  {
    if r !in s.readers {
      OthersStillFit(s, Next(s, Connect(r)), r);
    }
  }

  /** The compare_exchange takes a free cursor only, so ownership stays one to one. */
  lemma ClaimKeepsOwners<T>(s: Ring<T>, r: nat)
    requires Valid(s) && s.writeSeq < FREE && r in s.readers && s.readers[r].Scanning?
    ensures SlotsOwned(Claimed(s, r))
  {
    assert ReaderFits(s, s.readers[r]);
  }

  lemma ClaimKeeps<T>(s: Ring<T>, r: nat)
    requires Valid(s) && s.writeSeq < FREE
    ensures Valid(Next(s, Claim(r)))
  {
    if r in s.readers && s.readers[r].Scanning? {
      assert ReaderFits(s, s.readers[r]);
      ClaimKeepsOwners(s, r);
      OthersStillFit(s, Next(s, Claim(r)), r);
    }
  }

  lemma DropKeeps<T>(s: Ring<T>, r: nat)
    requires Valid(s)
    ensures Valid(Next(s, Drop(r)))
  {
    if r in s.readers && s.readers[r].Live? && s.readers[r].pc.Ready? {
      assert ReaderFits(s, s.readers[r]);
      OthersStillFit(s, Next(s, Drop(r)), r);
    }
  }

  lemma NextKeeps<T>(s: Ring<T>, step: Step<T>)
    requires Valid(s) && s.writeSeq < FREE
    ensures Valid(Next(s, step)) && Next(s, step).writeSeq >= s.writeSeq
  {
    match step
    case Connect(r) => ConnectKeeps(s, r);
    case Claim(r) => ClaimKeeps(s, r);
    case Read(r, move) => ReadKeeps(s, r, move);
    case Drop(r) => DropKeeps(s, r);
    case _ => WriterRetains(s, step); WriterKeepsReaders(s, step);
  }
}
