/** The broadcast ring as objects over shared memory, each call run to its end before the next. */
module Rings {
  import opened RingLayout
  import opened RingLog
  import opened RingProtocol
  import opened Specs

  /** The mapping: write sequence, reader cursors, data slots.  The log of committed messages
      and the count of sequence numbers handed out are kept for the proofs. */
  class Mapping<T> {
    const cursors: array<nat>
    const data: array<T>
    var writeSeq: nat
    ghost var history: seq<T>
    ghost var handedOut: nat

    ghost predicate Valid()
      reads this, data
    {
      && (cursors as object) != (data as object)
      && data.Length > 0 && |history| == writeSeq <= handedOut <= writeSeq + 1
      && Retains(data[..], history, handedOut)
    }

    /** Header written, cursors freed one by one, data zeroed. */
    constructor (capacity: nat, maxReaders: nat, zero: T)
      requires capacity > 0
      ensures Valid() && fresh(cursors) && fresh(data)
      ensures data.Length == capacity && cursors.Length == maxReaders
      ensures writeSeq == 0 && history == [] && handedOut == 0
      ensures forall k :: 0 <= k < maxReaders ==> cursors[k] == FREE
      ensures forall k :: 0 <= k < capacity ==> data[k] == zero
    {
      cursors := new nat[maxReaders];
      data := new T[capacity](_ => zero);
      writeSeq := 0;
      history := [];
      handedOut := 0;
      new;
      for i := 0 to maxReaders
        invariant forall k :: 0 <= k < i ==> cursors[k] == FREE
        invariant writeSeq == 0 && history == [] && handedOut == 0
        invariant forall k :: 0 <= k < capacity ==> data[k] == zero
        modifies cursors
      {
        cursors[i] := FREE;
      }
    }
  }

  class Writer<T> {
    const ring: Mapping<T>
    var pendingSeq: nat
    var hasPending: bool

    ghost predicate Valid()
      reads this, ring, ring.data
    {
      && ring.Valid()
      && ring.handedOut == ring.writeSeq + (if hasPending then 1 else 0)
      && (hasPending ==> pendingSeq == ring.writeSeq)
    }

    constructor (ring: Mapping<T>)
      requires ring.Valid() && ring.handedOut == ring.writeSeq
      ensures Valid() && this.ring == ring && !hasPending
    {
      this.ring := ring;
      pendingSeq := 0;
      hasPending := false;
    }

    /** The slot of the next message; preparing twice gives the same one. */
    method Prepare() returns (slot: nat)
      requires Valid()
      modifies this, ring`handedOut
      ensures Valid() && hasPending
      ensures slot < ring.data.Length && slot == |ring.history| % ring.data.Length
    {
      pendingSeq := ring.writeSeq;
      hasPending := true;
      slot := ring.writeSeq % ring.data.Length;
      HandingOutRetains(ring.data[..], ring.history, ring.handedOut, ring.writeSeq + 1);
      ring.handedOut := ring.writeSeq + 1;
    }

    /** A write through the reference that prepare returned. */
    method Fill(value: T)
      requires Valid() && hasPending
      modifies ring.data
      ensures Valid() && ring.data[..] == old(ring.data[..])[pendingSeq % ring.data.Length := value]
    {
      FillRetains(ring.data[..], ring.history, value);
      ring.data[pendingSeq % ring.data.Length] := value;
      assert ring.data[..] == old(ring.data[..])[pendingSeq % ring.data.Length := value];
    }

    /** Publishes the prepared slot; without one, nothing happens. */
    method Commit()
      requires Valid()
      modifies this, ring
      ensures Valid() && !hasPending
      ensures ring.history == if old(hasPending)
                              then old(ring.history) + [ring.data[old(ring.writeSeq) % ring.data.Length]]
                              else old(ring.history)
      ensures ring.writeSeq == old(ring.writeSeq) + (if old(hasPending) then 1 else 0)
    {
      if !hasPending {
        return;
      }
      CommitRetains(ring.data[..], ring.history);
      ring.history := ring.history + [ring.data[pendingSeq % ring.data.Length]];
      ring.writeSeq := pendingSeq + 1;
      hasPending := false;
    }

    method Write(value: T)
      requires Valid()
      modifies this, ring, ring.data
      ensures Valid() && !hasPending
      ensures ring.history == old(ring.history) + [value]
    {
      var slot := Prepare();
      Fill(value);
      Commit();
    }
  }

  /** Writer::create_with_readers as far as the memory goes: refused when there is no layout. */
  method CreateWithReaders<T>(size: u64, align: u64, capacity: u64, maxReaders: u64, zero: T)
    returns (writer: Option<Writer<T>>)
    requires align > 0
    ensures writer.None? <==> LayoutFor(size, align, capacity, maxReaders).None?
    ensures writer.Some? ==>
              && fresh(writer.value) && fresh(writer.value.ring)
              && writer.value.Valid() && writer.value.ring.history == []
              && writer.value.ring.data.Length == capacity && writer.value.ring.cursors.Length == maxReaders
              && forall k :: 0 <= k < maxReaders ==> writer.value.ring.cursors[k] == FREE
  {
    if LayoutFor(size, align, capacity, maxReaders).None? {
      return None;
    }
    var ring := new Mapping<T>(capacity, maxReaders, zero);
    var w := new Writer<T>(ring);
    writer := Some(w);
  }

  /** The loop of a blocking read, given what its loads of the write sequence and its looks at
      the clock return: None when the time is up first, or when the loads run out. */
  function Awaited(loads: seq<nat>, expired: seq<bool>, readSeq: nat, capacity: nat): Option<nat>
    requires |loads| == |expired|
  {
    if loads == [] then None
    else if loads[0] > readSeq then Some(Pick(loads[0], readSeq, capacity))
    else if expired[0] then None
    else Awaited(loads[1..], expired[1..], readSeq, capacity)
  }

  /** The first load that finds a message, or |loads| if none does. */
  function FirstAbove(loads: seq<nat>, readSeq: nat): (k: nat)
    ensures k <= |loads|
    ensures k < |loads| ==> loads[k] > readSeq
    ensures forall j :: 0 <= j < k ==> loads[j] <= readSeq
  {
    if loads == [] || loads[0] > readSeq then 0 else 1 + FirstAbove(loads[1..], readSeq)
  }

  class Reader<T> {
    const ring: Mapping<T>
    const slot: nat
    ghost var log: Log<T>

    ghost predicate Valid()
      reads this, ring, ring.data, ring.cursors
    {
      && ring.Valid() && slot < ring.cursors.Length
      && ring.cursors[slot] <= ring.writeSeq < FREE
      && Delivered(log, ring.cursors[slot])
    }

    constructor (ring: Mapping<T>, slot: nat)
      requires ring.Valid() && slot < ring.cursors.Length && ring.cursors[slot] == ring.writeSeq < FREE
      ensures Valid() && this.ring == ring && this.slot == slot && log == Log(ring.writeSeq, [], 0, [])
    {
      this.ring := ring;
      this.slot := slot;
      log := Log(ring.writeSeq, [], 0, []);
    }

    /** Takes the message at index: the cursor moves behind it, all before it is skipped. */
    method Take(index: nat) returns (value: T)
      requires Valid() && ring.cursors[slot] <= index < ring.writeSeq
      modifies this`log, ring.cursors
      ensures Valid()
      ensures value == ring.data[index % ring.data.Length]
      ensures ring.cursors[..] == old(ring.cursors[..])[slot := index + 1]
      ensures log == old(log).(got := old(log).got + [index], skipped := old(log).skipped + (index - old(ring.cursors[slot])))
    {
      ghost var before, cursor := log, ring.cursors[slot];
      value := ring.data[index % ring.data.Length];
      log := log.(got := log.got + [index], skipped := log.skipped + (index - cursor));
      ring.cursors[slot] := index + 1;
      assert log.got[..|before.got|] == before.got;
    }

    /** A message if there is one, the oldest retained one if the reader was overrun. */
    method TryRead() returns (value: Option<T>)
      requires Valid()
      modifies this`log, ring.cursors
      ensures Valid()
      ensures value.None? <==> old(ring.cursors[slot]) == ring.writeSeq
      ensures value.None? ==> log == old(log) && ring.cursors[..] == old(ring.cursors[..])
      ensures value.Some? ==>
                var cursor := old(ring.cursors[slot]);
                var index := Pick(ring.writeSeq, cursor, ring.data.Length);
                && log == old(log).(got := old(log).got + [index], skipped := old(log).skipped + (index - cursor))
                && index - cursor == Behind(ring.writeSeq - cursor, ring.data.Length)
                && ring.cursors[..] == old(ring.cursors[..])[slot := index + 1]
                && value.value == ring.data[index % ring.data.Length]
                && (ring.handedOut <= index + ring.data.Length ==> value.value == ring.history[index])
    {
      var writeSeq := ring.writeSeq;
      var readSeq := ring.cursors[slot];
      if writeSeq == readSeq {
        return None;
      }
      PickIsRetained(writeSeq, readSeq, ring.data.Length);
      var index := Pick(writeSeq, readSeq, ring.data.Length);
      assert ring.handedOut <= index + ring.data.Length ==> InSlot(ring.data[..], ring.history, index);
      var v := Take(index);
      value := Some(v);
    }

    /** read_timeout, from the loads and clock readings it makes; the ring may have moved on
        since a load, never back. */
    method ReadTimeout(loads: seq<nat>, expired: seq<bool>) returns (value: Option<T>)
      requires Valid() && |loads| == |expired|
      requires forall k :: 0 <= k < |loads| ==> loads[k] <= ring.writeSeq
      modifies this`log, ring.cursors
      ensures Valid()
      ensures var cursor := old(ring.cursors[slot]);
              var k := FirstAbove(loads, cursor);
              if k < |loads| && (forall j :: 0 <= j < k ==> !expired[j]) then
                var index := Pick(loads[k], cursor, ring.data.Length);
                && cursor <= index < ring.writeSeq
                && log == old(log).(got := old(log).got + [index], skipped := old(log).skipped + (index - cursor))
                && ring.cursors[..] == old(ring.cursors[..])[slot := index + 1]
                && value == Some(ring.data[index % ring.data.Length])
                && (ring.handedOut <= index + ring.data.Length ==> value == Some(ring.history[index]))
              else value == None && log == old(log) && ring.cursors[..] == old(ring.cursors[..])
    {
      var readSeq := ring.cursors[slot];
      var i := 0;
      while i < |loads|
        invariant 0 <= i <= FirstAbove(loads, readSeq)
        invariant forall j :: 0 <= j < i ==> !expired[j]
      {
        if loads[i] > readSeq {
          PickIsRetained(loads[i], readSeq, ring.data.Length);
          var index := Pick(loads[i], readSeq, ring.data.Length);
          assert ring.handedOut <= index + ring.data.Length ==> InSlot(ring.data[..], ring.history, index);
          var v := Take(index);
          return Some(v);
        }
        if expired[i] {
          return None;
        }
        i := i + 1;
      }
      value := None;
    }

    /** read spins until a load finds a message; one of the given loads must. */
    method Read(loads: seq<nat>) returns (value: T)
      requires Valid() && FirstAbove(loads, ring.cursors[slot]) < |loads|
      requires forall k :: 0 <= k < |loads| ==> loads[k] <= ring.writeSeq
      modifies this`log, ring.cursors
      ensures Valid()
      ensures var cursor := old(ring.cursors[slot]);
              var index := Pick(loads[FirstAbove(loads, cursor)], cursor, ring.data.Length);
              && cursor <= index < ring.writeSeq
              && log == old(log).(got := old(log).got + [index], skipped := old(log).skipped + (index - cursor))
              && ring.cursors[..] == old(ring.cursors[..])[slot := index + 1]
              && value == ring.data[index % ring.data.Length]
              && (ring.handedOut <= index + ring.data.Length ==> value == ring.history[index])
    {
      var readSeq := ring.cursors[slot];
      var i := 0;
      while loads[i] <= readSeq
        invariant 0 <= i <= FirstAbove(loads, readSeq)
        decreases |loads| - i
      {
        i := i + 1;
      }
      PickIsRetained(loads[i], readSeq, ring.data.Length);
      var index := Pick(loads[i], readSeq, ring.data.Length);
      assert ring.handedOut <= index + ring.data.Length ==> InSlot(ring.data[..], ring.history, index);
      value := Take(index);
    }

    method Lag() returns (lag: nat)
      requires Valid()
      ensures lag == Behind(ring.writeSeq, ring.cursors[slot])
      ensures |log.got| + log.skipped + lag == ring.writeSeq - log.start
    {
      lag := Behind(ring.writeSeq, ring.cursors[slot]);
    }

    /** Drop: the slot is free for the next reader. */
    method Drop()
      requires Valid()
      modifies ring.cursors
      ensures ring.cursors[..] == old(ring.cursors[..])[slot := FREE]
    {
      ring.cursors[slot] := FREE;
    }
  }

  /** Takes the first free cursor, from now on; None stands for ReaderSlotsFull. */
  method Connect<T>(ring: Mapping<T>) returns (reader: Option<Reader<T>>)
    requires ring.Valid() && ring.writeSeq < FREE
    modifies ring.cursors
    ensures reader.None? <==> forall k :: 0 <= k < ring.cursors.Length ==> old(ring.cursors[k]) != FREE
    ensures reader.None? ==> ring.cursors[..] == old(ring.cursors[..])
    ensures reader.Some? ==>
              && fresh(reader.value) && reader.value.Valid() && reader.value.ring == ring
              && reader.value.log == Log(ring.writeSeq, [], 0, [])
              && old(ring.cursors[..])[reader.value.slot] == FREE
              && (forall k :: 0 <= k < reader.value.slot ==> old(ring.cursors[..])[k] != FREE)
              && ring.cursors[..] == old(ring.cursors[..])[reader.value.slot := ring.writeSeq]
  {
    var writeSeq := ring.writeSeq;
    for i := 0 to ring.cursors.Length
      invariant ring.cursors[..] == old(ring.cursors[..])
      invariant forall k :: 0 <= k < i ==> old(ring.cursors[..])[k] != FREE
    {
      if ring.cursors[i] == FREE {
        ring.cursors[i] := writeSeq;
        var r := new Reader<T>(ring, i);
        return Some(r);
      }
    }
    reader := None;
  }

  // ---------------------------------------------------------------------------
  // The three reads are one

  /** Waiting ends with the first load that finds a message, unless the time was up at an
      earlier one: each load counts before the clock that is read after it. */
  lemma {:induction false} AwaitedIff(loads: seq<nat>, expired: seq<bool>, readSeq: nat, capacity: nat)
    requires |loads| == |expired|
    ensures var k := FirstAbove(loads, readSeq);
            Awaited(loads, expired, readSeq, capacity)
            == if k < |loads| && (forall j :: 0 <= j < k ==> !expired[j]) then Some(Pick(loads[k], readSeq, capacity))
               else None
  {
    if loads != [] && loads[0] <= readSeq {
      AwaitedIff(loads[1..], expired[1..], readSeq, capacity);
      assert forall j :: 0 < j < |expired| ==> expired[j] == expired[1..][j - 1];
    }
  }

  /** Loads that find nothing and a clock that has not run out only delay the read. */
  lemma {:induction false} WaitingOnlyDelays(waits: seq<nat>, loads: seq<nat>, expired: seq<bool>, readSeq: nat, capacity: nat)
    requires |loads| == |expired|
    requires forall k :: 0 <= k < |waits| ==> waits[k] <= readSeq
    ensures Awaited(waits + loads, seq(|waits|, _ => false) + expired, readSeq, capacity)
         == Awaited(loads, expired, readSeq, capacity)
  {
    var all, marks := waits + loads, seq(|waits|, _ => false) + expired;
    if waits == [] {
      assert all == loads && marks == expired;
    } else {
      WaitingOnlyDelays(waits[1..], loads, expired, readSeq, capacity);
      assert all[1..] == waits[1..] + loads;
      assert marks[1..] == seq(|waits[1..]|, _ => false) + expired;
    }
  }

  /** read, which looks at no clock, returns exactly if some load finds a message, and then
      what try_read would have chosen from the first such load. */
  lemma {:induction false} ReadReturnsIff(loads: seq<nat>, readSeq: nat, capacity: nat)
    ensures Awaited(loads, seq(|loads|, _ => false), readSeq, capacity) ==
            var k := FirstAbove(loads, readSeq);
            if k < |loads| then Decide(false, loads[k], readSeq, capacity) else None
  {
    if loads != [] && loads[0] <= readSeq {
      ReadReturnsIff(loads[1..], readSeq, capacity);
      assert seq(|loads|, _ => false)[1..] == seq(|loads[1..]|, _ => false);
    }
  }
}
