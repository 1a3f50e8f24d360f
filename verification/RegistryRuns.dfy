/** What the registry's tables say, told from the requests that were answered with success:
    the index, the lists and the health flags are each decided by the history of requests. */
module RegistryRuns {
  import opened Specs
  import opened Registry
  import opened MasterServer

  // ---------------------------------------------------------------------------
  // One request

  /** A registration succeeds exactly if each of its addresses is free or listed by the actor
      itself up to now. */
  lemma RegisterSucceedsIff(t: Tables, actor: ActorRegistration)
    ensures Answers(t, Register(actor), Done)
       <==> forall k :: 0 <= k < |actor.queues| && actor.queues[k].addr in t.queues ==>
              actor.queues[k].addr in ListedAddresses(QueuesOf(t, actor.actorId))
  {
    var index := IndexWithout(t, actor.actorId);
    if k :| 0 <= k < |actor.queues| && actor.queues[k].addr in index {
      assert FirstTaken(actor.queues, index) < |actor.queues|;
    }
  }

  /** A rejection names the first address on the list that another actor is found under, and
      that actor, which really lists it. */
  lemma RejectionNamesOwner(t: Tables, actor: ActorRegistration, response: Response)
    requires Backed(t) && Answers(t, Register(actor), response) && response != Done
    ensures response.Failed? && response.error.QueueAlreadyRegistered?
    ensures var addr, owner := response.error.takenAddr, response.error.owner;
            && addr in t.queues && t.queues[addr].owner == owner != actor.actorId
            && Lists(t, owner, QueueInfo(addr, t.queues[addr].queueType))
            && exists k :: 0 <= k < |actor.queues| && actor.queues[k].addr == addr
                        && forall j :: 0 <= j < k ==> actor.queues[j].addr !in IndexWithout(t, actor.actorId)
  {
    TakingOutKeepsBacked(t, actor.actorId);
    var k := FirstTaken(actor.queues, IndexWithout(t, actor.actorId));
    assert actor.queues[k].addr == response.error.takenAddr;
  }

  /** The list speaks of the address, and speaks last of it as a queue of this type. */
  ghost predicate ListsLast(queues: seq<QueueInfo>, addr: string, queueType: string) {
    exists k :: 0 <= k < |queues| && queues[k] == QueueInfo(addr, queueType)
             && forall j :: k < j < |queues| ==> queues[j].addr != addr
  }

  lemma ListsLastOfLast(queues: seq<QueueInfo>, addr: string, queueType: string)
    requires queues != []
    ensures var init, last := queues[..|queues| - 1], queues[|queues| - 1];
            ListsLast(queues, addr, queueType)
            <==> last == QueueInfo(addr, queueType) || (last.addr != addr && ListsLast(init, addr, queueType))
  {
    var init, last := queues[..|queues| - 1], queues[|queues| - 1];
    if last.addr != addr && ListsLast(init, addr, queueType) {
      var k :| 0 <= k < |init| && init[k] == QueueInfo(addr, queueType)
            && forall j :: k < j < |init| ==> init[j].addr != addr;
      assert queues[k] == QueueInfo(addr, queueType);
      assert forall j :: k < j < |queues| ==> queues[j].addr != addr;
    }
    if last == QueueInfo(addr, queueType) {
      assert queues[|queues| - 1] == QueueInfo(addr, queueType);
    }
    if ListsLast(queues, addr, queueType) && last != QueueInfo(addr, queueType) {
      var k :| 0 <= k < |queues| && queues[k] == QueueInfo(addr, queueType)
            && forall j :: k < j < |queues| ==> queues[j].addr != addr;
      assert init[k] == QueueInfo(addr, queueType);
      assert forall j :: k < j < |init| ==> init[j].addr != addr;
    }
  }

  lemma {:induction false} InsertedIff(index: map<string, QueueOwner>, queues: seq<QueueInfo>, owner: string,
                                       addr: string, entry: QueueOwner)
    ensures addr in Inserted(index, queues, owner) && Inserted(index, queues, owner)[addr] == entry
       <==> (entry.owner == owner && ListsLast(queues, addr, entry.queueType))
            || (addr !in ListedAddresses(queues) && addr in index && index[addr] == entry)
  {
    if queues != [] {
      var init, last := queues[..|queues| - 1], queues[|queues| - 1];
      InsertedIff(index, init, owner, addr, entry);
      ListsLastOfLast(queues, addr, entry.queueType);
      assert queues == init + [last];
      AddressesOf(queues, addr);
      AddressesOf(init, addr);
    }
  }

  /** The request succeeds and gives the address to this owner with this type. */
  ghost predicate Enters(t: Tables, request: Request, addr: string, entry: QueueOwner) {
    Answers(t, request, Done)
    && match request
       case Register(actor) => actor.actorId == entry.owner && ListsLast(actor.queues, addr, entry.queueType)
       case RegisterQueue(actorId, queue) => actorId == entry.owner && queue == QueueInfo(addr, entry.queueType)
       case _ => false
  }

  /** An actor that lists the address registers again, in vain or not, or leaves. */
  predicate TakesOut(t: Tables, request: Request, addr: string) {
    match request
    case Register(actor) => addr in ListedAddresses(QueuesOf(t, actor.actorId))
    case Unregister(actorId) => addr in ListedAddresses(QueuesOf(t, actorId))
    case _ => false
  }

  predicate IsIndexed(t: Tables, addr: string, entry: QueueOwner) {
    addr in t.queues && t.queues[addr] == entry
  }

  lemma RegisterIndexes(t: Tables, actor: ActorRegistration, now: u64, addr: string, entry: QueueOwner)
    ensures IsIndexed(AfterRegister(t, actor, now), addr, entry)
       <==> Enters(t, Register(actor), addr, entry)
            || (IsIndexed(t, addr, entry) && !TakesOut(t, Register(actor), addr))
  {
    var index := IndexWithout(t, actor.actorId);
    if !Rejects(t, actor) {
      InsertedIff(index, actor.queues, actor.actorId, addr, entry);
      if addr in ListedAddresses(actor.queues) {
        var k :| 0 <= k < |actor.queues| && actor.queues[k].addr == addr;
        assert actor.queues[k].addr !in index;
      }
    }
  }

  /** After any request an address is indexed under an owner exactly if the request gave it to
      that owner, or it was so before and the request did not take it out. */
  lemma RequestIndexes(t: Tables, request: Request, now: u64, addr: string, entry: QueueOwner)
    ensures IsIndexed(AfterRequest(t, request, now), addr, entry)
       <==> Enters(t, request, addr, entry) || (IsIndexed(t, addr, entry) && !TakesOut(t, request, addr))
  {
    match request {
      case Register(actor) => RegisterIndexes(t, actor, now, addr, entry);
      case RegisterQueue(actorId, queue) =>
      case Unregister(actorId) =>
      case _ =>
    }
  }

  /** A queue registered with success is one entry and one listing more; every other entry,
      list and field stays. */
  lemma RegisterQueueAddsOne(t: Tables, actorId: string, queue: QueueInfo, now: u64)
    requires Answers(t, RegisterQueue(actorId, queue), Done)
    ensures var after := AfterRequest(t, RegisterQueue(actorId, queue), now);
            && after.queues.Keys == t.queues.Keys + {queue.addr} && queue.addr !in t.queues
            && after.queues[queue.addr] == QueueOwner(actorId, queue.queueType)
            && (forall addr :: addr in t.queues ==> after.queues[addr] == t.queues[addr])
            && after.actors.Keys == t.actors.Keys
            && QueuesOf(after, actorId) == QueuesOf(t, actorId) + [queue]
            && (forall id :: id in t.actors && id != actorId ==> after.actors[id] == t.actors[id])
            && after.actors[actorId].registration.actorType == t.actors[actorId].registration.actorType
            && after.actors[actorId].registration.actorId == t.actors[actorId].registration.actorId
            && after.actors[actorId].lastHeartbeatNs == t.actors[actorId].lastHeartbeatNs
            && after.actors[actorId].status == t.actors[actorId].status
  {
  }

  ghost predicate Registers(t: Tables, request: Request, id: string) {
    request.Register? && request.actor.actorId == id && Answers(t, request, Done)
  }

  ghost predicate Adds(t: Tables, request: Request, id: string) {
    request.RegisterQueue? && request.actorId == id && Answers(t, request, Done)
  }

  /** The actor is heard of: it registers or sends a heartbeat, with success. */
  ghost predicate IsHeard(t: Tables, request: Request, id: string) {
    Registers(t, request, id) || (request == Heartbeat(id) && Answers(t, request, Done))
  }

  lemma RequestRecords(t: Tables, request: Request, now: u64, id: string)
    ensures var after := AfterRequest(t, request, now);
            && (id in after.actors <==> Registers(t, request, id) || (id in t.actors && request != Unregister(id)))
            && (Registers(t, request, id) ==> after.actors[id].registration == request.actor)
            && (id in after.actors && !Registers(t, request, id) ==>
                  after.actors[id].registration
                  == t.actors[id].registration.(queues := t.actors[id].registration.queues
                                                          + if Adds(t, request, id) then [request.queue] else []))
  {
    match request {
      case RegisterQueue(_, _) =>
      case _ =>
        if id in t.actors {
          assert t.actors[id].registration.queues + [] == t.actors[id].registration.queues;
        }
    }
  }

  lemma RequestStamps(t: Tables, request: Request, now: u64, id: string)
    requires id in AfterRequest(t, request, now).actors
    ensures var after := AfterRequest(t, request, now);
            if IsHeard(t, request, id) then after.actors[id].lastHeartbeatNs == now && after.actors[id].status == Healthy
            else id in t.actors && after.actors[id].lastHeartbeatNs == t.actors[id].lastHeartbeatNs
                 && after.actors[id].status == t.actors[id].status
  {
  }

  // ---------------------------------------------------------------------------
  // Whole runs

  /** The tables as message k finds them, health flags refreshed. */
  function Found(arrivals: seq<Arrival>, timeout: u64, k: nat): Tables
    requires k < |arrivals|
  {
    AfterUpdateHealth(TablesAfter(arrivals[..k], timeout), arrivals[k].now, timeout)
  }

  predicate Parses(arrivals: seq<Arrival>, k: nat)
    requires k < |arrivals|
  {
    arrivals[k].message.Some?
  }

  lemma FoundBefore(arrivals: seq<Arrival>, timeout: u64, k: nat)
    requires k < |arrivals| - 1
    ensures arrivals[..|arrivals| - 1][k] == arrivals[k]
    ensures Found(arrivals[..|arrivals| - 1], timeout, k) == Found(arrivals, timeout, k)
  {
    assert arrivals[..|arrivals| - 1][..k] == arrivals[..k];
  }

  ghost predicate EntersAt(arrivals: seq<Arrival>, timeout: u64, k: nat, addr: string, entry: QueueOwner)
    requires k < |arrivals|
  {
    Parses(arrivals, k) && Enters(Found(arrivals, timeout, k), arrivals[k].message.value, addr, entry)
  }

  predicate TakesOutAt(arrivals: seq<Arrival>, timeout: u64, k: nat, addr: string)
    requires k < |arrivals|
  {
    Parses(arrivals, k) && TakesOut(Found(arrivals, timeout, k), arrivals[k].message.value, addr)
  }

  /** Message k gave the address to this owner, and nothing has taken it out since. */
  ghost predicate StandsSince(arrivals: seq<Arrival>, timeout: u64, k: nat, addr: string, entry: QueueOwner)
    requires k < |arrivals|
  {
    EntersAt(arrivals, timeout, k, addr, entry)
    && forall j :: k < j < |arrivals| ==> !TakesOutAt(arrivals, timeout, j, addr)
  }

  lemma StandsOneLonger(arrivals: seq<Arrival>, timeout: u64, k: nat, addr: string, entry: QueueOwner)
    requires k < |arrivals| - 1
    ensures StandsSince(arrivals, timeout, k, addr, entry)
       <==> StandsSince(arrivals[..|arrivals| - 1], timeout, k, addr, entry)
            && !TakesOutAt(arrivals, timeout, |arrivals| - 1, addr)
  {
    var init := arrivals[..|arrivals| - 1];
    forall j | 0 <= j < |init|
      ensures EntersAt(init, timeout, j, addr, entry) <==> EntersAt(arrivals, timeout, j, addr, entry)
      ensures TakesOutAt(init, timeout, j, addr) <==> TakesOutAt(arrivals, timeout, j, addr)
    {
      FoundBefore(arrivals, timeout, j);
    }
  }

  lemma StandsIff(arrivals: seq<Arrival>, timeout: u64, addr: string, entry: QueueOwner)
    requires arrivals != []
    ensures var init, last := arrivals[..|arrivals| - 1], |arrivals| - 1;
            (exists k :: 0 <= k < |arrivals| && StandsSince(arrivals, timeout, k, addr, entry))
            <==> EntersAt(arrivals, timeout, last, addr, entry)
                 || ((exists k :: 0 <= k < |init| && StandsSince(init, timeout, k, addr, entry))
                     && !TakesOutAt(arrivals, timeout, last, addr))
  {
    var init, last := arrivals[..|arrivals| - 1], |arrivals| - 1;
    forall k | 0 <= k < |init|
      ensures StandsSince(arrivals, timeout, k, addr, entry)
         <==> StandsSince(init, timeout, k, addr, entry) && !TakesOutAt(arrivals, timeout, last, addr)
    {
      StandsOneLonger(arrivals, timeout, k, addr, entry);
    }
    if EntersAt(arrivals, timeout, last, addr, entry) {
      assert StandsSince(arrivals, timeout, last, addr, entry);
    }
  }

  /** Over any run, rejections and all: an address is indexed under an owner with a type exactly
      if some request that succeeded gave it to that owner as such, and since then no actor that
      listed it has registered again or left. */
  lemma {:induction false} IndexTellsHistory(arrivals: seq<Arrival>, timeout: u64, addr: string, entry: QueueOwner)
    ensures IsIndexed(TablesAfter(arrivals, timeout), addr, entry)
       <==> exists k :: 0 <= k < |arrivals| && StandsSince(arrivals, timeout, k, addr, entry)
  {
    if arrivals != [] {
      var init, last := arrivals[..|arrivals| - 1], |arrivals| - 1;
      IndexTellsHistory(init, timeout, addr, entry);
      StandsIff(arrivals, timeout, addr, entry);
      if Parses(arrivals, last) {
        RequestIndexes(Found(arrivals, timeout, last), arrivals[last].message.value, arrivals[last].now, addr, entry);
      }
    }
  }

  /** So lookup answers with the owner an address was last given to, as long as it stands. */
  lemma LookupTellsHistory(arrivals: seq<Arrival>, timeout: u64, addr: string, owner: string, queueType: string)
    ensures Answers(TablesAfter(arrivals, timeout), LookupQueue(addr), QueueFound(owner, queueType))
       <==> exists k :: 0 <= k < |arrivals| && StandsSince(arrivals, timeout, k, addr, QueueOwner(owner, queueType))
  {
    IndexTellsHistory(arrivals, timeout, addr, QueueOwner(owner, queueType));
  }

  // ---------------------------------------------------------------------------
  // Actors and their lists

  ghost predicate RegistersAt(arrivals: seq<Arrival>, timeout: u64, k: nat, id: string)
    requires k < |arrivals|
  {
    Parses(arrivals, k) && Registers(Found(arrivals, timeout, k), arrivals[k].message.value, id)
  }

  predicate LeavesAt(arrivals: seq<Arrival>, k: nat, id: string)
    requires k < |arrivals|
  {
    arrivals[k].message == Some(Unregister(id))
  }

  /** The actor's last successful registration, after which it has not left. */
  ghost predicate RegisteredSince(arrivals: seq<Arrival>, timeout: u64, k: nat, id: string)
    requires k < |arrivals|
  {
    RegistersAt(arrivals, timeout, k, id)
    && forall j :: k < j < |arrivals| ==> !RegistersAt(arrivals, timeout, j, id) && !LeavesAt(arrivals, j, id)
  }

  ghost predicate AddsAt(arrivals: seq<Arrival>, timeout: u64, k: nat, id: string)
    requires k < |arrivals|
  {
    Parses(arrivals, k) && Adds(Found(arrivals, timeout, k), arrivals[k].message.value, id)
  }

  /** The queues the actor registered with success one by one after message k, in order. */
  ghost function AddedSince(arrivals: seq<Arrival>, timeout: u64, k: nat, id: string): seq<QueueInfo> {
    if |arrivals| <= k + 1 then []
    else
      AddedSince(arrivals[..|arrivals| - 1], timeout, k, id)
      + if AddsAt(arrivals, timeout, |arrivals| - 1, id) then [arrivals[|arrivals| - 1].message.value.queue] else []
  }

  lemma RegisteredOneLonger(arrivals: seq<Arrival>, timeout: u64, k: nat, id: string)
    requires k < |arrivals| - 1
    ensures RegisteredSince(arrivals, timeout, k, id)
       <==> RegisteredSince(arrivals[..|arrivals| - 1], timeout, k, id)
            && !RegistersAt(arrivals, timeout, |arrivals| - 1, id) && !LeavesAt(arrivals, |arrivals| - 1, id)
  {
    var init := arrivals[..|arrivals| - 1];
    forall j | 0 <= j < |init|
      ensures RegistersAt(init, timeout, j, id) <==> RegistersAt(arrivals, timeout, j, id)
      ensures LeavesAt(init, j, id) <==> LeavesAt(arrivals, j, id)
    {
      FoundBefore(arrivals, timeout, j);
    }
  }

  lemma RegisteredIff(arrivals: seq<Arrival>, timeout: u64, id: string)
    requires arrivals != []
    ensures var init, last := arrivals[..|arrivals| - 1], |arrivals| - 1;
            (exists k :: 0 <= k < |arrivals| && RegisteredSince(arrivals, timeout, k, id))
            <==> RegistersAt(arrivals, timeout, last, id)
                 || ((exists k :: 0 <= k < |init| && RegisteredSince(init, timeout, k, id)) && !LeavesAt(arrivals, last, id))
  {
    var init, last := arrivals[..|arrivals| - 1], |arrivals| - 1;
    forall k | 0 <= k < |init|
      ensures RegisteredSince(arrivals, timeout, k, id)
         <==> RegisteredSince(init, timeout, k, id)
              && !RegistersAt(arrivals, timeout, last, id) && !LeavesAt(arrivals, last, id)
    {
      RegisteredOneLonger(arrivals, timeout, k, id);
    }
    if RegistersAt(arrivals, timeout, last, id) {
      assert RegisteredSince(arrivals, timeout, last, id);
    }
  }

  /** An actor is known exactly from a registration that succeeded until it leaves. */
  lemma {:induction false} KnownTellsHistory(arrivals: seq<Arrival>, timeout: u64, id: string)
    ensures id in TablesAfter(arrivals, timeout).actors
       <==> exists k :: 0 <= k < |arrivals| && RegisteredSince(arrivals, timeout, k, id)
  {
    if arrivals != [] {
      var last := |arrivals| - 1;
      KnownTellsHistory(arrivals[..last], timeout, id);
      RegisteredIff(arrivals, timeout, id);
      if Parses(arrivals, last) {
        RequestRecords(Found(arrivals, timeout, last), arrivals[last].message.value, arrivals[last].now, id);
      }
    }
  }

  lemma RecordGoesOn(arrivals: seq<Arrival>, timeout: u64, id: string)
    requires arrivals != [] && id in TablesAfter(arrivals[..|arrivals| - 1], timeout).actors
    requires !RegistersAt(arrivals, timeout, |arrivals| - 1, id) && !LeavesAt(arrivals, |arrivals| - 1, id)
    ensures id in TablesAfter(arrivals, timeout).actors
    ensures var last := |arrivals| - 1;
            var before := TablesAfter(arrivals[..last], timeout).actors[id].registration;
            TablesAfter(arrivals, timeout).actors[id].registration
            == before.(queues := before.queues + if AddsAt(arrivals, timeout, last, id) then [arrivals[last].message.value.queue]
                                                 else [])
  {
    var last := |arrivals| - 1;
    if Parses(arrivals, last) {
      RequestRecords(Found(arrivals, timeout, last), arrivals[last].message.value, arrivals[last].now, id);
    }
  }

  /** And is known as it registered last, with its list of then and the queues added since. */
  lemma {:induction false} RecordTellsHistory(arrivals: seq<Arrival>, timeout: u64, k: nat, id: string)
    requires k < |arrivals| && RegisteredSince(arrivals, timeout, k, id)
    ensures id in TablesAfter(arrivals, timeout).actors
    ensures TablesAfter(arrivals, timeout).actors[id].registration
         == ActorRegistration(id, arrivals[k].message.value.actor.actorType,
                              arrivals[k].message.value.actor.queues + AddedSince(arrivals, timeout, k, id))
    decreases |arrivals|
  {
    var last := |arrivals| - 1;
    if k < last {
      RegisteredOneLonger(arrivals, timeout, k, id);
      RecordTellsHistory(arrivals[..last], timeout, k, id);
      RecordGoesOn(arrivals, timeout, id);
    } else {
      RequestRecords(Found(arrivals, timeout, k), arrivals[k].message.value, arrivals[k].now, id);
    }
  }

  /** Message k gave the queue to this owner, who registered last with message j, as an actor of
      this type. */
  ghost predicate StandsWith(arrivals: seq<Arrival>, timeout: u64, j: nat, k: nat, actorType: string, queue: QueueInfo,
                             owner: string)
    requires j < |arrivals| && k < |arrivals|
  {
    && StandsSince(arrivals, timeout, k, queue.addr, QueueOwner(owner, queue.queueType))
    && RegisteredSince(arrivals, timeout, j, owner)
    && arrivals[j].message.value.actor.actorType == actorType
  }

  /** Asked for the queues of a type that actors of a type own, the master lists exactly the queues
      of that type that stand under an owner who registered last as an actor of that type. */
  lemma FindTellsHistory(arrivals: seq<Arrival>, timeout: u64, actorType: string, queueType: string,
                         response: Response, queue: QueueInfo)
    requires Answers(TablesAfter(arrivals, timeout), FindQueuesByActor(actorType, queueType), response)
    ensures response.QueueList?
    ensures queue in response.queues
       <==> queue.queueType == queueType
            && exists owner, j, k :: 0 <= j < |arrivals| && 0 <= k < |arrivals|
                                  && StandsWith(arrivals, timeout, j, k, actorType, queue, owner)
  {
    var t := TablesAfter(arrivals, timeout);
    if queue in response.queues {
      var entry := t.queues[queue.addr];
      IndexTellsHistory(arrivals, timeout, queue.addr, entry);
      KnownTellsHistory(arrivals, timeout, entry.owner);
      var k :| 0 <= k < |arrivals| && StandsSince(arrivals, timeout, k, queue.addr, entry);
      var j :| 0 <= j < |arrivals| && RegisteredSince(arrivals, timeout, j, entry.owner);
      RecordTellsHistory(arrivals, timeout, j, entry.owner);
      assert StandsWith(arrivals, timeout, j, k, actorType, queue, entry.owner);
    }
    if owner, j, k :| 0 <= j < |arrivals| && 0 <= k < |arrivals|
                      && StandsWith(arrivals, timeout, j, k, actorType, queue, owner) {
      IndexTellsHistory(arrivals, timeout, queue.addr, QueueOwner(owner, queue.queueType));
      RecordTellsHistory(arrivals, timeout, j, owner);
    }
  }

  // ---------------------------------------------------------------------------
  // Health

  ghost predicate HeardAt(arrivals: seq<Arrival>, timeout: u64, k: nat, id: string)
    requires k < |arrivals|
  {
    Parses(arrivals, k) && IsHeard(Found(arrivals, timeout, k), arrivals[k].message.value, id)
  }

  ghost predicate LastHeardAt(arrivals: seq<Arrival>, timeout: u64, k: nat, id: string)
    requires k < |arrivals|
  {
    HeardAt(arrivals, timeout, k, id) && forall j :: k < j < |arrivals| ==> !HeardAt(arrivals, timeout, j, id)
  }

  lemma HeardOneLonger(arrivals: seq<Arrival>, timeout: u64, k: nat, id: string)
    requires k < |arrivals| - 1
    ensures LastHeardAt(arrivals, timeout, k, id)
       <==> LastHeardAt(arrivals[..|arrivals| - 1], timeout, k, id) && !HeardAt(arrivals, timeout, |arrivals| - 1, id)
  {
    var init := arrivals[..|arrivals| - 1];
    forall j | 0 <= j < |init|
      ensures HeardAt(init, timeout, j, id) <==> HeardAt(arrivals, timeout, j, id)
    {
      FoundBefore(arrivals, timeout, j);
    }
  }

  /** A known actor has been heard of. */
  lemma {:induction false} KnownIsHeard(arrivals: seq<Arrival>, timeout: u64, id: string) returns (k: nat)
    requires id in TablesAfter(arrivals, timeout).actors
    ensures k < |arrivals| && LastHeardAt(arrivals, timeout, k, id)
  {
    k := |arrivals| - 1;
    if !HeardAt(arrivals, timeout, k, id) {
      k := KnownIsHeard(arrivals[..|arrivals| - 1], timeout, id);
      HeardOneLonger(arrivals, timeout, k, id);
    }
  }

  /** Some message that was handled after message k came more than the timeout later. */
  ghost predicate MissedSince(arrivals: seq<Arrival>, timeout: u64, k: nat)
    requires k < |arrivals|
  {
    exists j :: k < j < |arrivals| && Parses(arrivals, j) && arrivals[j].now - arrivals[k].now > timeout
  }

  lemma MissedOneLonger(arrivals: seq<Arrival>, timeout: u64, k: nat)
    requires k < |arrivals| - 1
    ensures var last := arrivals[|arrivals| - 1];
            MissedSince(arrivals, timeout, k)
            <==> MissedSince(arrivals[..|arrivals| - 1], timeout, k)
                 || (last.message.Some? && last.now - arrivals[k].now > timeout)
  {
    var init := arrivals[..|arrivals| - 1];
    assert forall j :: 0 <= j < |init| ==> init[j] == arrivals[j];
    if MissedSince(init, timeout, k) {
      var j :| k < j < |init| && Parses(init, j) && init[j].now - init[k].now > timeout;
      assert Parses(arrivals, j);
    }
    if MissedSince(arrivals, timeout, k) {
      var j :| k < j < |arrivals| && Parses(arrivals, j) && arrivals[j].now - arrivals[k].now > timeout;
      assert j < |init| ==> Parses(init, j);
    }
    if arrivals[|arrivals| - 1].message.Some? && arrivals[|arrivals| - 1].now - arrivals[k].now > timeout {
      assert Parses(arrivals, |arrivals| - 1);
    }
  }

  /** Under any clock, even one that goes back: a known actor is stamped with the time it was
      last heard of, and it is Unhealthy exactly if some message handled since then came more
      than the timeout later. */
  lemma {:induction false} HealthTellsHistory(arrivals: seq<Arrival>, timeout: u64, k: nat, id: string)
    requires id in TablesAfter(arrivals, timeout).actors
    requires k < |arrivals| && LastHeardAt(arrivals, timeout, k, id)
    ensures TablesAfter(arrivals, timeout).actors[id].lastHeartbeatNs == arrivals[k].now
    ensures TablesAfter(arrivals, timeout).actors[id].status == Unhealthy <==> MissedSince(arrivals, timeout, k)
    decreases |arrivals|
  {
    var last := |arrivals| - 1;
    if Parses(arrivals, last) {
      RequestStamps(Found(arrivals, timeout, last), arrivals[last].message.value, arrivals[last].now, id);
    }
    if k < last {
      HeardOneLonger(arrivals, timeout, k, id);
      HealthTellsHistory(arrivals[..last], timeout, k, id);
      MissedOneLonger(arrivals, timeout, k);
    }
  }

  /** Under a clock that does not go back, an actor is Unhealthy exactly if it was last heard of
      more than the timeout before the last message handled. */
  lemma UnhealthyIffSilent(arrivals: seq<Arrival>, timeout: u64, k: nat, id: string)
    requires Monotone(arrivals) && id in TablesAfter(arrivals, timeout).actors
    requires k < |arrivals| && LastHeardAt(arrivals, timeout, k, id)
    ensures TablesAfter(arrivals, timeout).actors[id].status == Unhealthy
       <==> HandledAt(arrivals) - arrivals[k].now > timeout
  {
    HealthRefinesClock(arrivals, timeout);
    HealthTellsHistory(arrivals, timeout, k, id);
  }
}
