/** The bounded memory of trade ids that makes a replayed trade harmless. */
module Fills {
  import opened Specs

  /** The last n elements of s, or all of s when it is shorter. */
  function LastN<T>(s: seq<T>, n: nat): seq<T> {
    if |s| <= n then s else s[|s| - n..]
  }

  ghost predicate NoDuplicates<T(!new)>(s: seq<T>) {
    forall i, j :: 0 <= i < j < |s| ==> s[i] != s[j]
  }

  /** One CheckAndInsert on the queue of remembered ids. */
  function Remember(window: seq<u64>, maxSize: nat, tradeId: u64): seq<u64> {
    if tradeId in window then window else LastN(window + [tradeId], maxSize)
  }

  /** The ids accepted, in order, when the given ids are offered one after another. */
  function Accepted(ids: seq<u64>, maxSize: nat): (accepted: seq<u64>) {
    if ids == [] then []
    else
      var before := Accepted(ids[..|ids| - 1], maxSize);
      var id := ids[|ids| - 1];
      if id in LastN(before, maxSize) then before else before + [id]
  }

  function WindowAfter(ids: seq<u64>, maxSize: nat): seq<u64> {
    if ids == [] then []
    else Remember(WindowAfter(ids[..|ids| - 1], maxSize), maxSize, ids[|ids| - 1])
  }

  class FillLedger {
    const maxSize: nat
    var deque: seq<u64>
    var seen: set<u64>

    ghost predicate Valid()
      reads this
    {
      && |deque| <= maxSize
      && NoDuplicates(deque)
      && seen == set id | id in deque
    }

    constructor (maxSize: nat)
      ensures Valid() && deque == [] && this.maxSize == maxSize
    {
      this.maxSize := maxSize;
      deque := [];
      seen := {};
    }

    method CheckAndInsert(tradeId: u64) returns (isNew: bool)
      requires Valid()
      modifies this
      ensures Valid()
      ensures isNew <==> tradeId !in old(deque)
      ensures deque == Remember(old(deque), maxSize, tradeId)
    {
      if tradeId in seen {
        return false;
      }
      seen := seen + {tradeId};
      deque := deque + [tradeId];
      if |deque| > maxSize {
        var evicted := deque[0];
        assert forall id :: id in deque <==> id == evicted || id in deque[1..];
        deque := deque[1..];
        seen := seen - {evicted};
      }
      return true;
    }
  }

  lemma LastNOfLastN<T>(s: seq<T>, x: T, n: nat)
    ensures LastN(LastN(s, n) + [x], n) == LastN(s + [x], n)
  {
  }

  lemma LastNKeepsDistinct(s: seq<u64>, x: u64, n: nat)
    requires NoDuplicates(s) && x !in s
    ensures NoDuplicates(LastN(s + [x], n))
  {
  }

  lemma RememberAddsOnly(window: seq<u64>, maxSize: nat, tradeId: u64)
    ensures forall id :: id in Remember(window, maxSize, tradeId) ==> id in window || id == tradeId
  {
    var extended := window + [tradeId];
    forall id | id in LastN(extended, maxSize)
      ensures id in window || id == tradeId
    {
      assert id in extended;
    }
  }

  /** Whatever ids arrive, the memory is exactly the last maxSize accepted ids, without
      repetition; so an id is turned away iff it is one of those. */
  lemma {:induction false} WindowIsLastAccepted(ids: seq<u64>, maxSize: nat)
    ensures WindowAfter(ids, maxSize) == LastN(Accepted(ids, maxSize), maxSize)
    ensures NoDuplicates(WindowAfter(ids, maxSize))
  {
    if ids != [] {
      var before := ids[..|ids| - 1];
      WindowIsLastAccepted(before, maxSize);
      var window := WindowAfter(before, maxSize);
      LastNOfLastN(Accepted(before, maxSize), ids[|ids| - 1], maxSize);
      if ids[|ids| - 1] !in window {
        LastNKeepsDistinct(window, ids[|ids| - 1], maxSize);
      }
    }
  }

  ghost predicate AmongLast<T>(s: seq<T>, n: nat, x: T) {
    exists k :: 0 <= k < |s| && |s| - n <= k && s[k] == x
  }

  lemma LastNMembers<T>(s: seq<T>, n: nat, x: T)
    ensures x in LastN(s, n) <==> AmongLast(s, n, x)
  {
    var cut := if |s| <= n then 0 else |s| - n;
    assert LastN(s, n) == s[cut..];
    forall k | 0 <= k < |s| && |s| - n <= k && s[k] == x
      ensures x in s[cut..]
    {
      assert s[cut..][k - cut] == x;
    }
  }

  /** After any stream of ids, the next one is turned away iff it is one of the last
      maxSize accepted; otherwise it is accepted in its turn. */
  lemma TurnedAwayIffRecent(ids: seq<u64>, maxSize: nat, id: u64)
    ensures id in WindowAfter(ids, maxSize) <==> AmongLast(Accepted(ids, maxSize), maxSize, id)
    ensures Accepted(ids + [id], maxSize)
         == if AmongLast(Accepted(ids, maxSize), maxSize, id) then Accepted(ids, maxSize)
            else Accepted(ids, maxSize) + [id]
  {
    WindowIsLastAccepted(ids, maxSize);
    LastNMembers(Accepted(ids, maxSize), maxSize, id);
    assert (ids + [id])[..|ids|] == ids;
  }
}
