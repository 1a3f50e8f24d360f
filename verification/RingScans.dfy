/** Connecting: how many readers live, and when a scan for a free slot is refused. */
module RingScans {
  import opened RingProtocol
  import opened Specs

  function LiveBelow<T>(s: Ring<T>, k: nat): set<nat> {
    set r | r in s.readers && s.readers[r].Live? && s.readers[r].slot < k
  }

  function LiveReaders<T>(s: Ring<T>): set<nat> {
    set r | r in s.readers && s.readers[r].Live?
  }

  function Taken(cursors: seq<nat>, k: nat): nat
    requires k <= |cursors|
  {
    if k == 0 then 0 else Taken(cursors, k - 1) + (if cursors[k - 1] != FREE then 1 else 0)
  }

  lemma LiveBelowFree<T>(s: Ring<T>, k: nat)
    requires Valid(s) && k < |s.cursors| && s.cursors[k] == FREE
    ensures LiveBelow(s, k + 1) == LiveBelow(s, k)
  {
    assert s.owner[k].None?;
    forall r | r in LiveBelow(s, k + 1)
      ensures r in LiveBelow(s, k)
    {
      assert s.owner[s.readers[r].slot] == Some(r);
    }
  }

  lemma LiveBelowTaken<T>(s: Ring<T>, k: nat)
    requires Shape(s) && SlotsOwned(s) && k < |s.cursors| && s.cursors[k] != FREE
    ensures |LiveBelow(s, k + 1)| == |LiveBelow(s, k)| + 1
  {
    assert s.owner[k].Some?;
    var r := s.owner[k].value;
    assert r !in LiveBelow(s, k);
    forall q | q in LiveBelow(s, k + 1)
      ensures q in LiveBelow(s, k) + {r}
    {
      assert s.owner[s.readers[q].slot] == Some(q);
    }
    assert LiveBelow(s, k + 1) == LiveBelow(s, k) + {r};
  }

  lemma {:induction false} LiveBelowCounts<T>(s: Ring<T>, k: nat)
    requires Valid(s) && k <= |s.cursors|
    ensures |LiveBelow(s, k)| == Taken(s.cursors, k)
  {
    if k == 0 {
      assert LiveBelow(s, 0) == {};
    } else {
      LiveBelowCounts(s, k - 1);
      if s.cursors[k - 1] == FREE {
        LiveBelowFree(s, k - 1);
      } else {
        LiveBelowTaken(s, k - 1);
      }
    }
  }

  lemma {:induction false} TakenIsAllIff(cursors: seq<nat>, k: nat)
    requires k <= |cursors|
    ensures Taken(cursors, k) <= k
    ensures Taken(cursors, k) == k <==> forall j :: 0 <= j < k ==> cursors[j] != FREE
  {
    if k > 0 {
      TakenIsAllIff(cursors, k - 1);
    }
  }

  /** As many readers live as cursors are taken: never more than the ring has. */
  lemma LiveReadersCount<T>(s: Ring<T>)
    requires Valid(s)
    ensures |LiveReaders(s)| == Taken(s.cursors, |s.cursors|) <= |s.cursors|
    ensures |LiveReaders(s)| == |s.cursors| <==> forall k :: 0 <= k < |s.cursors| ==> s.cursors[k] != FREE
  {
    LiveBelowCounts(s, |s.cursors|);
    assert LiveReaders(s) == LiveBelow(s, |s.cursors|);
    TakenIsAllIff(s.cursors, |s.cursors|);
  }

  /** The connect scan of r with no other step in between. */
  function Scan<T>(r: nat, n: nat): seq<Step<T>> {
    if n == 0 then [] else [Claim(r)] + Scan(r, n - 1)
  }

  lemma {:induction false} ScanIsDone<T>(s: Ring<T>, r: nat, n: nat)
    requires Shape(s) && r in s.readers && !s.readers[r].Scanning?
    ensures Run(s, Scan(r, n)) == s
  {
    if n > 0 {
      var steps := Scan<T>(r, n);
      assert steps[1..] == Scan(r, n - 1);
      ScanIsDone(s, r, n - 1);
    }
  }

  lemma {:induction false} ScanFindsFirstFree<T>(s: Ring<T>, r: nat, n: nat)
    requires Shape(s) && r in s.readers && s.readers[r].Scanning?
    requires s.readers[r].next <= |s.cursors| && n == |s.cursors| - s.readers[r].next + 1
    ensures var t := Run(s, Scan(r, n));
            && r in t.readers
            && (t.readers[r].Refused? <==> forall k :: s.readers[r].next <= k < |s.cursors| ==> s.cursors[k] != FREE)
            && (!t.readers[r].Refused? ==> t.readers[r].Live? && t.readers[r].log.start == s.readers[r].ws)
    decreases n
  {
    var steps := Scan<T>(r, n);
    var t := Next(s, Claim(r));
    assert steps[1..] == Scan(r, n - 1);
    if t.readers[r].Scanning? {
      ScanFindsFirstFree(t, r, n - 1);
    } else {
      ScanIsDone(t, r, n - 1);
    }
  }

  /** A connect that nothing interrupts is refused exactly if every slot has a live reader. */
  lemma AtomicConnectRefusedIff<T>(s: Ring<T>, r: nat)
    requires Valid(s) && r !in s.readers
    ensures var t := Run(Next(s, Connect(r)), Scan(r, |s.cursors| + 1));
            && r in t.readers
            && (t.readers[r].Refused? <==> |LiveReaders(s)| == |s.cursors|)
            && (t.readers[r].Live? <==> |LiveReaders(s)| < |s.cursors|)
            && (t.readers[r].Live? ==> t.readers[r].log.start == s.writeSeq)
  {
    LiveReadersCount(s);
    ScanFindsFirstFree(Next(s, Connect(r)), r, |s.cursors| + 1);
  }

  // ---------------------------------------------------------------------------
  // A scan that other readers interrupt

  ghost predicate ScansAt<T>(s: Ring<T>, r: nat, next: nat) {
    r in s.readers && s.readers[r].Scanning? && s.readers[r].next == next
  }

  ghost predicate IsRefused<T>(s: Ring<T>, r: nat) {
    r in s.readers && s.readers[r].Refused?
  }

  /** How many compare-and-exchange attempts of r a run contains. */
  function Attempts<T>(steps: seq<Step<T>>, r: nat): nat {
    if steps == [] then 0
    else (if steps[0].Claim? && steps[0].r == r then 1 else 0) + Attempts(steps[1..], r)
  }

  /** The ring as attempt m of r finds it. */
  function AtAttempt<T>(s: Ring<T>, steps: seq<Step<T>>, r: nat, m: nat): (t: Ring<T>)
    requires Shape(s) && m < Attempts(steps, r)
    ensures Shape(t) && |t.cursors| == |s.cursors|
    decreases |steps|
  {
    if steps[0].Claim? && steps[0].r == r then
      if m == 0 then s else AtAttempt(Next(s, steps[0]), steps[1..], r, m - 1)
    else AtAttempt(Next(s, steps[0]), steps[1..], r, m)
  }

  /** Attempt m, which is at slot next + m, finds its slot taken. */
  ghost predicate TakenAt<T>(s: Ring<T>, steps: seq<Step<T>>, r: nat, next: nat, m: nat)
    requires Shape(s) && m < Attempts(steps, r) && next + m < |s.cursors|
  {
    AtAttempt(s, steps, r, m).cursors[next + m] != FREE
  }

  /** Each slot from next on is taken at the very attempt that tries it. */
  ghost predicate TakenWhenTried<T>(s: Ring<T>, steps: seq<Step<T>>, r: nat, next: nat)
    requires Shape(s) && next <= |s.cursors| && |s.cursors| - next < Attempts(steps, r)
  {
    forall m :: 0 <= m < |s.cursors| - next ==> TakenAt(s, steps, r, next, m)
  }

  lemma {:induction false} RefusalIsFinal<T>(s: Ring<T>, steps: seq<Step<T>>, r: nat)
    requires Shape(s) && r in s.readers && !s.readers[r].Scanning?
    ensures IsRefused(Run(s, steps), r) <==> IsRefused(s, r)
    decreases |steps|
  {
    if steps != [] {
      RefusalIsFinal(Next(s, steps[0]), steps[1..], r);
    }
  }

  lemma ScanGoesOn<T>(s: Ring<T>, steps: seq<Step<T>>, r: nat, next: nat)
    requires Shape(s) && next < |s.cursors| && s.cursors[next] != FREE
    requires steps != [] && steps[0] == Claim(r) && ScansAt(s, r, next)
    requires |s.cursors| - next < Attempts(steps, r)
    ensures ScansAt(Next(s, steps[0]), r, next + 1)
    ensures TakenWhenTried(s, steps, r, next) <==> TakenWhenTried(Next(s, steps[0]), steps[1..], r, next + 1)
  {
    var t, rest, after := Next(s, steps[0]), steps[1..], next + 1;
    assert TakenAt(s, steps, r, next, 0);
    if TakenWhenTried(s, steps, r, next) {
      forall m | 0 <= m < |t.cursors| - after
        ensures TakenAt(t, rest, r, after, m)
      {
        assert TakenAt(s, steps, r, next, m + 1);
      }
    }
    if TakenWhenTried(t, rest, r, after) {
      forall m | 0 <= m < |s.cursors| - next
        ensures TakenAt(s, steps, r, next, m)
      {
        if m > 0 {
          assert TakenAt(t, rest, r, after, m - 1);
        }
      }
    }
  }

  lemma OthersStepBetween<T>(s: Ring<T>, steps: seq<Step<T>>, r: nat, next: nat)
    requires Shape(s) && next <= |s.cursors| && steps != [] && steps[0] != Claim(r) && ScansAt(s, r, next)
    requires |s.cursors| - next < Attempts(steps, r)
    ensures ScansAt(Next(s, steps[0]), r, next)
    ensures TakenWhenTried(s, steps, r, next) <==> TakenWhenTried(Next(s, steps[0]), steps[1..], r, next)
  {
    var t, rest := Next(s, steps[0]), steps[1..];
    forall m | 0 <= m < |s.cursors| - next
      ensures TakenAt(s, steps, r, next, m) <==> TakenAt(t, rest, r, next, m)
    {
    }
  }

  lemma {:induction false} ShortScanIsNotRefused<T>(s: Ring<T>, steps: seq<Step<T>>, r: nat, next: nat)
    requires Shape(s) && next <= |s.cursors| && ScansAt(s, r, next)
    requires Attempts(steps, r) <= |s.cursors| - next
    ensures !IsRefused(Run(s, steps), r)
    decreases |steps|
  {
    if steps != [] {
      var t := Next(s, steps[0]);
      if steps[0] == Claim(r) && s.cursors[next] == FREE {
        RefusalIsFinal(t, steps[1..], r);
      } else {
        ShortScanIsNotRefused(t, steps[1..], r, if steps[0] == Claim(r) then next + 1 else next);
      }
    }
  }

  /** However other steps interrupt it, a scan that has had an attempt for every slot and one
      more is refused exactly if each slot was taken at its own attempt. */
  lemma {:induction false} ScanIsRefusedIff<T>(s: Ring<T>, steps: seq<Step<T>>, r: nat, next: nat)
    requires Shape(s) && next <= |s.cursors| && ScansAt(s, r, next)
    requires |s.cursors| - next < Attempts(steps, r)
    ensures IsRefused(Run(s, steps), r) <==> TakenWhenTried(s, steps, r, next)
    decreases |steps|
  {
    var t, rest := Next(s, steps[0]), steps[1..];
    if steps[0] != Claim(r) {
      OthersStepBetween(s, steps, r, next);
      ScanIsRefusedIff(t, rest, r, next);
    } else if next == |s.cursors| {
      RefusalIsFinal(t, rest, r);
    } else if s.cursors[next] == FREE {
      RefusalIsFinal(t, rest, r);
      assert !TakenAt(s, steps, r, next, 0);
    } else {
      ScanGoesOn(s, steps, r, next);
      ScanIsRefusedIff(t, rest, r, next + 1);
    }
  }

  /** Slot k is free in every state of the run. */
  ghost predicate StaysFree<T>(s: Ring<T>, steps: seq<Step<T>>, k: nat)
    requires Shape(s) && k < |s.cursors|
    decreases |steps|
  {
    s.cursors[k] == FREE && (steps != [] ==> StaysFree(Next(s, steps[0]), steps[1..], k))
  }

  lemma {:induction false} FreeAtAttempt<T>(s: Ring<T>, steps: seq<Step<T>>, r: nat, m: nat, k: nat)
    requires Shape(s) && k < |s.cursors| && StaysFree(s, steps, k) && m < Attempts(steps, r)
    ensures AtAttempt(s, steps, r, m).cursors[k] == FREE
    decreases |steps|
  {
    if !(steps[0] == Claim(r) && m == 0) {
      FreeAtAttempt(Next(s, steps[0]), steps[1..], r, if steps[0] == Claim(r) then m - 1 else m, k);
    }
  }

  /** A scan with a slot still ahead of it that stays free is never refused. */
  lemma StayingFreeIsFound<T>(s: Ring<T>, steps: seq<Step<T>>, r: nat, next: nat, k: nat)
    requires Shape(s) && ScansAt(s, r, next) && next <= k < |s.cursors| && StaysFree(s, steps, k)
    ensures !IsRefused(Run(s, steps), r)
  {
    if Attempts(steps, r) <= |s.cursors| - next {
      ShortScanIsNotRefused(s, steps, r, next);
    } else {
      ScanIsRefusedIff(s, steps, r, next);
      FreeAtAttempt(s, steps, r, k - next, k);
      assert !TakenAt(s, steps, r, next, k - next);
    }
  }

  ghost predicate SlotFree<T>(s: Ring<T>) {
    exists k :: 0 <= k < |s.cursors| && s.cursors[k] == FREE
  }

  ghost predicate Is<T>(s: Ring<T>, r: nat, reader: Reader<T>) {
    r in s.readers && s.readers[r] == reader
  }

  /** Two slots; reader 1 holds the first, and the scan of reader 2 has just passed it. */
  function TwoSlots(): (s: Ring<int>)
    ensures Shape(s) && |s.cursors| == 2
    ensures s.cursors[0] == 0 && s.cursors[1] == FREE
    ensures Is(s, 1, Live(0, Ready, Log(0, [], 0, []))) && Is(s, 2, Scanning(0, 1)) && Is(s, 3, Scanning(0, 0))
  {
    var s0 := Created(1, 2, 0);
    var s1 := Next(Next(s0, Connect(1)), Claim(1));
    var s2 := Next(Next(s1, Connect(2)), Claim(2));
    Next(s2, Connect(3))
  }

  /** Now the scan of reader 3 has passed the first slot too. */
  function BothPassed(): (s: Ring<int>)
    ensures Shape(s) && |s.cursors| == 2
    ensures s.cursors[0] == 0 && s.cursors[1] == FREE
    ensures Is(s, 1, Live(0, Ready, Log(0, [], 0, []))) && Is(s, 2, Scanning(0, 1)) && Is(s, 3, Scanning(0, 1))
  {
    Next(TwoSlots(), Claim(3))
  }

  function Interrupted(): (s: Ring<int>)
    ensures Shape(s) && |s.cursors| == 2
    ensures s.cursors[0] == FREE && s.cursors[1] == FREE
    ensures Is(s, 2, Scanning(0, 1)) && Is(s, 3, Scanning(0, 1))
  {
    Next(BothPassed(), Drop(1))
  }

  /** The scan is not atomic: reader 3 is refused although a slot was free at every moment
      between its start and its end. */
  lemma ScanCanMissFreeSlots()
    ensures var s0 := TwoSlots();
            var s1 := Next(s0, Claim(3));
            var s2 := Next(s1, Drop(1));
            var s3 := Next(s2, Claim(2));
            var s4 := Next(s3, Claim(3));
            var s5 := Next(s4, Claim(3));
            && Is(s0, 3, Scanning(0, 0)) && Is(s5, 3, Refused)
            && SlotFree(s0) && SlotFree(s1) && SlotFree(s2) && SlotFree(s3) && SlotFree(s4) && SlotFree(s5)
  {
    var s0 := TwoSlots();
    var s1 := BothPassed();
    assert s1 == Next(s0, Claim(3));
    assert s0.cursors[1] == FREE && s1.cursors[1] == FREE;
    var s2 := Interrupted();
    assert s2 == Next(s1, Drop(1));
    var s3 := Next(s2, Claim(2));
    assert s3.cursors[0] == FREE && s3.cursors[1] == 0 && Is(s3, 3, Scanning(0, 1));
    var s4 := Next(s3, Claim(3));
    assert s4.cursors[0] == FREE && Is(s4, 3, Scanning(0, 2));
    var s5 := Next(s4, Claim(3));
    assert s5.cursors[0] == FREE;
  }
}
