/** What the ring retains of all that was written to it, and what a reader picks from that. */
module RingLog {
  import opened Digits
  import opened Specs

  // ---------------------------------------------------------------------------
  // Retaining

  ghost predicate InSlot<T>(data: seq<T>, history: seq<T>, j: nat)
    requires |data| > 0 && j < |history|
  {
    data[j % |data|] == history[j]
  }

  /** Every message whose slot has not been handed out again still lies in it. */
  ghost predicate Retains<T>(data: seq<T>, history: seq<T>, handedOut: nat)
    requires |data| > 0
  {
    forall j: nat :: j < |history| && handedOut <= j + |data| ==> InSlot(data, history, j)
  }

  lemma ModDiffers(a: nat, b: nat, m: nat)
    requires a < b < a + m
    ensures a % m != b % m
  {
    var q, r := a / m, a % m + (b - a);
    assert a == q * m + a % m;
    if r < m {
      ModUnique(b, q, m, r);
    } else {
      Distribute(q, 1, m);
      ModUnique(b, q + 1, m, r - m);
    }
  }

  lemma LapsLater(i: nat, laps: nat, capacity: nat)
    requires capacity > 0
    ensures (i + laps * capacity) % capacity == i % capacity
  {
    var p := i / capacity;
    assert i == p * capacity + i % capacity;
    Distribute(p, laps, capacity);
    ModUnique(i + laps * capacity, p + laps, capacity, i % capacity);
  }

  lemma HandingOutRetains<T>(data: seq<T>, history: seq<T>, handedOut: nat, more: nat)
    requires |data| > 0 && Retains(data, history, handedOut) && handedOut <= more
    ensures Retains(data, history, more)
  {
    forall j: nat | j < |history| && more <= j + |data|
      ensures InSlot(data, history, j)
    {
      assert InSlot(data, history, j);
    }
  }

  lemma FillRetains<T>(data: seq<T>, history: seq<T>, value: T)
    requires |data| > 0 && Retains(data, history, |history| + 1)
    ensures Retains(data[|history| % |data| := value], history, |history| + 1)
  {
    var filled := data[|history| % |data| := value];
    forall j: nat | j < |history| && |history| + 1 <= j + |data|
      ensures InSlot(filled, history, j)
    {
      assert InSlot(data, history, j);
      ModDiffers(j, |history|, |data|);
    }
  }

  lemma CommitRetains<T>(data: seq<T>, history: seq<T>)
    requires |data| > 0 && Retains(data, history, |history| + 1)
    ensures Retains(data, history + [data[|history| % |data|]], |history| + 1)
  {
    var longer := history + [data[|history| % |data|]];
    forall j: nat | j < |longer| && |history| + 1 <= j + |data|
      ensures InSlot(data, longer, j)
    {
      if j < |history| {
        assert InSlot(data, history, j);
      }
    }
  }

  // ---------------------------------------------------------------------------
  // Reading

  /** saturating_sub; also the number of messages a reader is behind. */
  function Behind(writeSeq: nat, readSeq: nat): nat {
    if writeSeq < readSeq then 0 else writeSeq - readSeq
  }

  /** The index read next: the cursor, or the oldest retained message if the reader was
      overrun by more than the capacity. */
  function Pick(writeSeq: nat, readSeq: nat, capacity: nat): (index: nat)
    ensures readSeq <= writeSeq ==> index == readSeq + Behind(Behind(writeSeq, readSeq), capacity)
  {
    if Behind(writeSeq, readSeq) > capacity then Behind(writeSeq, capacity) else readSeq
  }

  /** try_read looks for inequality, read and read_timeout for a larger write sequence. */
  function Decide(strict: bool, writeSeq: nat, readSeq: nat, capacity: nat): Option<nat> {
    if (if strict then writeSeq <= readSeq else writeSeq == readSeq) then None
    else Some(Pick(writeSeq, readSeq, capacity))
  }

  /** The three reads choose alike exactly when the cursor has not passed the write sequence. */
  lemma ReadsAgreeIff(writeSeq: nat, readSeq: nat, capacity: nat)
    ensures Decide(true, writeSeq, readSeq, capacity) == Decide(false, writeSeq, readSeq, capacity)
       <==> readSeq <= writeSeq
  {
  }

  /** What is read is unread, published and retained; only messages beyond the capacity are skipped. */
  lemma PickIsRetained(writeSeq: nat, readSeq: nat, capacity: nat)
    requires readSeq < writeSeq && capacity > 0
    ensures var index := Pick(writeSeq, readSeq, capacity);
            && readSeq <= index < writeSeq <= index + capacity
            && (writeSeq == index + capacity <==> writeSeq - readSeq >= capacity)
            && (index == readSeq <==> writeSeq - readSeq <= capacity)
  {
  }
}
