/** The master's registry: actors with the queues they list, and an index from queue
    address to owner that has to agree with those lists. */
module Registry {
  import opened Specs

  datatype QueueInfo = QueueInfo(addr: string, queueType: string)

  datatype ActorRegistration = ActorRegistration(actorId: string, actorType: string, queues: seq<QueueInfo>)

  datatype HealthStatus = Healthy | Unhealthy

  datatype ActorRecord = ActorRecord(registration: ActorRegistration, lastHeartbeatNs: u64, status: HealthStatus)

  datatype QueueOwner = QueueOwner(owner: string, queueType: string)

  datatype RegistryError =
    | ActorNotFound(actorId: string)
    | QueueNotFound(queueAddr: string)
    | QueueAlreadyRegistered(takenAddr: string, owner: string)
    | ActorTypeNotFound(actorType: string)
    | QueueTypeNotFound(ownerId: string, queueType: string)

  datatype Result<+T> = Ok(value: T) | Err(error: RegistryError)

  datatype Tables = Tables(actors: map<string, ActorRecord>, queues: map<string, QueueOwner>)

  const NoActors := Tables(map[], map[])

  // ---------------------------------------------------------------------------
  // What the operations do to the two tables

  function ListedAddresses(queues: seq<QueueInfo>): set<string> {
    set k | 0 <= k < |queues| :: queues[k].addr
  }

  function QueuesOf(t: Tables, actorId: string): seq<QueueInfo> {
    if actorId in t.actors then t.actors[actorId].registration.queues else []
  }

  /** The index once everything the actor lists has been taken out. */
  function IndexWithout(t: Tables, actorId: string): map<string, QueueOwner> {
    t.queues - ListedAddresses(QueuesOf(t, actorId))
  }

  /** The position of the first listed address that is taken, or the length of the list. */
  function FirstTaken(queues: seq<QueueInfo>, index: map<string, QueueOwner>): (k: nat)
    ensures k <= |queues|
    ensures k < |queues| ==> queues[k].addr in index
    ensures forall j :: 0 <= j < k ==> queues[j].addr !in index
  {
    if queues == [] || queues[0].addr in index then 0 else 1 + FirstTaken(queues[1..], index)
  }

  function Inserted(index: map<string, QueueOwner>, queues: seq<QueueInfo>, owner: string): map<string, QueueOwner> {
    if queues == [] then index
    else
      var last := queues[|queues| - 1];
      Inserted(index, queues[..|queues| - 1], owner)[last.addr := QueueOwner(owner, last.queueType)]
  }

  predicate Rejects(t: Tables, actor: ActorRegistration) {
    FirstTaken(actor.queues, IndexWithout(t, actor.actorId)) < |actor.queues|
  }

  /** The error names the first listed address that is taken, and its owner. */
  function Rejection(t: Tables, actor: ActorRegistration): RegistryError
    requires Rejects(t, actor)
  {
    var index := IndexWithout(t, actor.actorId);
    var addr := actor.queues[FirstTaken(actor.queues, index)].addr;
    QueueAlreadyRegistered(addr, index[addr].owner)
  }

  /** A rejected registration has already taken out what the actor listed before. */
  function AfterRegister(t: Tables, actor: ActorRegistration, now: u64): Tables {
    var index := IndexWithout(t, actor.actorId);
    if Rejects(t, actor) then t.(queues := index)
    else Tables(t.actors[actor.actorId := ActorRecord(actor, now, Healthy)],
                Inserted(index, actor.queues, actor.actorId))
  }

  function AfterRegisterQueue(t: Tables, actorId: string, queue: QueueInfo): Tables {
    if actorId !in t.actors || queue.addr in t.queues then t
    else
      var record := t.actors[actorId];
      var registration := record.registration.(queues := record.registration.queues + [queue]);
      Tables(t.actors[actorId := record.(registration := registration)],
             t.queues[queue.addr := QueueOwner(actorId, queue.queueType)])
  }

  function AfterUnregister(t: Tables, actorId: string): Tables {
    if actorId !in t.actors then t
    else Tables(t.actors - {actorId}, IndexWithout(t, actorId))
  }

  function AfterHeartbeat(t: Tables, actorId: string, now: u64): Tables {
    if actorId !in t.actors then t
    else t.(actors := t.actors[actorId := t.actors[actorId].(lastHeartbeatNs := now, status := Healthy)])
  }

  function Overdue(record: ActorRecord, now: u64, timeout: u64): bool {
    SatSub(now, record.lastHeartbeatNs) > timeout
  }

  function Checked(record: ActorRecord, now: u64, timeout: u64): ActorRecord {
    if Overdue(record, now, timeout) then record.(status := Unhealthy) else record
  }

  function AfterUpdateHealth(t: Tables, now: u64, timeout: u64): Tables {
    t.(actors := map id | id in t.actors :: Checked(t.actors[id], now, timeout))
  }

  class ActorRegistry {
    var actors: map<string, ActorRecord>
    var queues: map<string, QueueOwner>

    ghost function View(): Tables
      reads this
    {
      Tables(actors, queues)
    }

    constructor ()
      ensures View() == NoActors
    {
      actors, queues := map[], map[];
    }

    method RemoveFromIndex(listed: seq<QueueInfo>)
      modifies this`queues
      ensures queues == old(queues) - ListedAddresses(listed)
    {
      for k := 0 to |listed|
        invariant queues == old(queues) - ListedAddresses(listed[..k])
      {
        queues := queues - {listed[k].addr};
        assert ListedAddresses(listed[..k + 1]) == ListedAddresses(listed[..k]) + {listed[k].addr} by {
          assert forall j :: 0 <= j < k ==> listed[..k + 1][j] == listed[..k][j];
          assert listed[..k + 1][k] == listed[k];
        }
      }
      assert listed[..|listed|] == listed;
    }

    method Register(actor: ActorRegistration, now: u64) returns (result: Result<()>)
      modifies this
      ensures View() == AfterRegister(old(View()), actor, now)
      ensures result == if Rejects(old(View()), actor) then Err(Rejection(old(View()), actor)) else Ok(())
    {
      var actorId := actor.actorId;
      if actorId in actors {
        RemoveFromIndex(actors[actorId].registration.queues);
      }
      for k := 0 to |actor.queues|
        invariant View() == Tables(old(actors), IndexWithout(old(View()), actorId))
        invariant forall j :: 0 <= j < k ==> actor.queues[j].addr !in queues
      {
        var addr := actor.queues[k].addr;
        if addr in queues {
          return Err(QueueAlreadyRegistered(addr, queues[addr].owner));
        }
      }
      for k := 0 to |actor.queues|
        invariant actors == old(actors)
        invariant queues == Inserted(IndexWithout(old(View()), actorId), actor.queues[..k], actorId)
      {
        assert actor.queues[..k + 1][..k] == actor.queues[..k];
        var queue := actor.queues[k];
        queues := queues[queue.addr := QueueOwner(actorId, queue.queueType)];
      }
      assert actor.queues[..|actor.queues|] == actor.queues;
      actors := actors[actorId := ActorRecord(actor, now, Healthy)];
      return Ok(());
    }

    method RegisterQueue(actorId: string, queue: QueueInfo) returns (result: Result<()>)
      modifies this
      ensures View() == AfterRegisterQueue(old(View()), actorId, queue)
      ensures result == if actorId !in old(actors) then Err(ActorNotFound(actorId))
                        else if queue.addr in old(queues) then
                          Err(QueueAlreadyRegistered(queue.addr, old(queues)[queue.addr].owner))
                        else Ok(())
    {
      if actorId !in actors {
        return Err(ActorNotFound(actorId));
      }
      if queue.addr in queues {
        return Err(QueueAlreadyRegistered(queue.addr, queues[queue.addr].owner));
      }
      queues := queues[queue.addr := QueueOwner(actorId, queue.queueType)];
      var record := actors[actorId];
      var registration := record.registration.(queues := record.registration.queues + [queue]);
      actors := actors[actorId := record.(registration := registration)];
      return Ok(());
    }

    method Unregister(actorId: string) returns (result: Result<()>)
      modifies this
      ensures View() == AfterUnregister(old(View()), actorId)
      ensures result == if actorId in old(actors) then Ok(()) else Err(ActorNotFound(actorId))
    {
      if actorId !in actors {
        return Err(ActorNotFound(actorId));
      }
      var record := actors[actorId];
      actors := actors - {actorId};
      RemoveFromIndex(record.registration.queues);
      return Ok(());
    }

    method RecordHeartbeat(actorId: string, now: u64) returns (result: Result<()>)
      modifies this
      ensures View() == AfterHeartbeat(old(View()), actorId, now)
      ensures result == if actorId in old(actors) then Ok(()) else Err(ActorNotFound(actorId))
    {
      if actorId !in actors {
        return Err(ActorNotFound(actorId));
      }
      actors := actors[actorId := actors[actorId].(lastHeartbeatNs := now, status := Healthy)];
      return Ok(());
    }

    /** Visits the records in whatever order the table yields them. */
    method UpdateHealth(now: u64, timeout: u64)
      modifies this
      ensures View() == AfterUpdateHealth(old(View()), now, timeout)
    {
      var rest := actors.Keys;
      while rest != {}
        invariant actors.Keys == old(actors).Keys && rest <= actors.Keys
        invariant queues == old(queues)
        invariant forall id :: id in actors ==>
          actors[id] == if id in rest then old(actors)[id] else Checked(old(actors)[id], now, timeout)
        decreases |rest|
      {
        var id :| id in rest;
        rest := rest - {id};
        if SatSub(now, actors[id].lastHeartbeatNs) > timeout {
          actors := actors[id := actors[id].(status := Unhealthy)];
        }
      }
      assert actors == AfterUpdateHealth(old(View()), now, timeout).actors;
    }

    method LookupQueue(queueAddr: string) returns (result: Result<QueueOwner>)
      ensures result == if queueAddr in queues then Ok(queues[queueAddr]) else Err(QueueNotFound(queueAddr))
    {
      if queueAddr in queues {
        return Ok(queues[queueAddr]);
      }
      return Err(QueueNotFound(queueAddr));
    }

    /** All queues of the type whose owner is an actor of the given type; any owner when
        no actor type is asked for. */
    method FindQueues(actorType: Option<string>, queueType: string) returns (found: seq<QueueInfo>)
      ensures forall queue :: queue in found <==> Offers(View(), actorType, queueType, queue)
      ensures forall j, k :: 0 <= j < k < |found| ==> found[j].addr != found[k].addr
    {
      found := [];
      var rest := queues.Keys;
      while rest != {}
        invariant rest <= queues.Keys
        invariant forall queue :: queue in found <==> queue.addr !in rest && Offers(View(), actorType, queueType, queue)
        invariant forall j, k :: 0 <= j < k < |found| ==> found[j].addr != found[k].addr
        decreases |rest|
      {
        var addr :| addr in rest;
        rest := rest - {addr};
        var owner := queues[addr];
        if owner.queueType == queueType
           && (actorType.None?
               || (owner.owner in actors && actors[owner.owner].registration.actorType == actorType.value)) {
          assert forall k :: 0 <= k < |found| ==> found[k] in found;
          found := found + [QueueInfo(addr, owner.queueType)];
        }
      }
    }

    method FindActorByType(actorType: string) returns (result: Result<string>)
      ensures result.Ok? ==>
        exists id :: id in actors && actors[id].registration.actorType == actorType
                  && actors[id].registration.actorId == result.value
      ensures result.Err? ==> result.error == ActorTypeNotFound(actorType)
      ensures result.Err? <==> forall id :: id in actors ==> actors[id].registration.actorType != actorType
    {
      var rest := actors.Keys;
      while rest != {}
        invariant forall id :: id in actors && id !in rest ==> actors[id].registration.actorType != actorType
        invariant rest <= actors.Keys
        decreases |rest|
      {
        var id :| id in rest;
        if actors[id].registration.actorType == actorType {
          return Ok(actors[id].registration.actorId);
        }
        rest := rest - {id};
      }
      return Err(ActorTypeNotFound(actorType));
    }

    method FindQueueByOwnerType(actorId: string, queueType: string) returns (result: Result<string>)
      ensures result.Ok? ==> result.value in queues && queues[result.value] == QueueOwner(actorId, queueType)
      ensures result.Err? ==> result.error == QueueTypeNotFound(actorId, queueType)
      ensures result.Err? <==> forall addr :: addr in queues ==> queues[addr] != QueueOwner(actorId, queueType)
    {
      var rest := queues.Keys;
      while rest != {}
        invariant forall addr :: addr in queues && addr !in rest ==> queues[addr] != QueueOwner(actorId, queueType)
        invariant rest <= queues.Keys
        decreases |rest|
      {
        var addr :| addr in rest;
        if queues[addr].owner == actorId && queues[addr].queueType == queueType {
          return Ok(addr);
        }
        rest := rest - {addr};
      }
      return Err(QueueTypeNotFound(actorId, queueType));
    }
  }

  predicate Offers(t: Tables, actorType: Option<string>, queueType: string, queue: QueueInfo) {
    && queue.addr in t.queues
    && t.queues[queue.addr].queueType == queueType == queue.queueType
    && (actorType.Some? ==>
          t.queues[queue.addr].owner in t.actors
          && t.actors[t.queues[queue.addr].owner].registration.actorType == actorType.value)
  }

  // ---------------------------------------------------------------------------
  // The index and the lists

  predicate Lists(t: Tables, actorId: string, queue: QueueInfo) {
    actorId in t.actors && queue in t.actors[actorId].registration.queues
  }

  /** Every index entry is backed by its owner's list. */
  ghost predicate Backed(t: Tables) {
    && (forall id :: id in t.actors ==> t.actors[id].registration.actorId == id)
    && forall addr :: addr in t.queues ==>
         Lists(t, t.queues[addr].owner, QueueInfo(addr, t.queues[addr].queueType))
  }

  /** Every listed address is in the index under the actor that lists it. */
  ghost predicate Listed(t: Tables) {
    forall id, queue :: Lists(t, id, queue) ==> queue.addr in t.queues && t.queues[queue.addr].owner == id
  }

  lemma AddressesOf(queues: seq<QueueInfo>, addr: string)
    ensures addr in ListedAddresses(queues) <==> exists queue :: queue in queues && queue.addr == addr
  {
    if addr in ListedAddresses(queues) {
      var k :| 0 <= k < |queues| && queues[k].addr == addr;
      assert queues[k] in queues;
    }
  }

  lemma {:induction false} InsertedHas(index: map<string, QueueOwner>, queues: seq<QueueInfo>, owner: string, addr: string)
    ensures addr in Inserted(index, queues, owner) <==> addr in index || addr in ListedAddresses(queues)
    ensures addr in ListedAddresses(queues) ==>
              var entry := Inserted(index, queues, owner)[addr];
              entry.owner == owner && QueueInfo(addr, entry.queueType) in queues
    ensures addr in index && addr !in ListedAddresses(queues) ==> Inserted(index, queues, owner)[addr] == index[addr]
  {
    if queues != [] {
      var init, last := queues[..|queues| - 1], queues[|queues| - 1];
      InsertedHas(index, init, owner, addr);
      assert queues == init + [last];
      AddressesOf(queues, addr);
      AddressesOf(init, addr);
    }
  }

  lemma TakingOutKeepsBacked(t: Tables, actorId: string)
    requires Backed(t)
    ensures Backed(t.(queues := IndexWithout(t, actorId)))
    ensures forall addr :: addr in IndexWithout(t, actorId) ==> t.queues[addr].owner != actorId
  {
    forall addr | addr in IndexWithout(t, actorId)
      ensures t.queues[addr].owner != actorId
    {
      AddressesOf(QueuesOf(t, actorId), addr);
      assert Lists(t, t.queues[addr].owner, QueueInfo(addr, t.queues[addr].queueType));
    }
  }

  /** Registering keeps the index backed, whether or not it is rejected. */
  lemma RegisterKeepsBacked(t: Tables, actor: ActorRegistration, now: u64)
    requires Backed(t)
    ensures Backed(AfterRegister(t, actor, now))
  {
    TakingOutKeepsBacked(t, actor.actorId);
    var after := AfterRegister(t, actor, now);
    if !Rejects(t, actor) {
      forall addr | addr in after.queues
        ensures Lists(after, after.queues[addr].owner, QueueInfo(addr, after.queues[addr].queueType))
      {
        InsertedHas(IndexWithout(t, actor.actorId), actor.queues, actor.actorId, addr);
        if addr !in ListedAddresses(actor.queues) {
          assert Lists(t, t.queues[addr].owner, QueueInfo(addr, t.queues[addr].queueType));
        }
      }
    }
  }

  lemma UnregisterKeepsBacked(t: Tables, actorId: string)
    requires Backed(t)
    ensures Backed(AfterUnregister(t, actorId))
  {
    TakingOutKeepsBacked(t, actorId);
    var after := AfterUnregister(t, actorId);
    forall addr | addr in after.queues
      ensures Lists(after, after.queues[addr].owner, QueueInfo(addr, after.queues[addr].queueType))
    {
      assert Lists(t, t.queues[addr].owner, QueueInfo(addr, t.queues[addr].queueType));
    }
  }

  lemma RegisterQueueKeepsBacked(t: Tables, actorId: string, queue: QueueInfo)
    requires Backed(t)
    ensures Backed(AfterRegisterQueue(t, actorId, queue))
  {
    var after := AfterRegisterQueue(t, actorId, queue);
    forall addr | addr in after.queues
      ensures Lists(after, after.queues[addr].owner, QueueInfo(addr, after.queues[addr].queueType))
    {
      if addr in t.queues {
        assert Lists(t, t.queues[addr].owner, QueueInfo(addr, t.queues[addr].queueType));
      }
    }
  }

  /** The registration is turned down although the actor already has queues listed. */
  predicate LosesItsIndex(t: Tables, actor: ActorRegistration) {
    Rejects(t, actor) && QueuesOf(t, actor.actorId) != []
  }

  lemma AcceptedRegisterKeepsListed(t: Tables, actor: ActorRegistration, now: u64)
    requires Backed(t) && Listed(t) && !Rejects(t, actor)
    ensures Listed(AfterRegister(t, actor, now))
  {
    var after := AfterRegister(t, actor, now);
    var index := IndexWithout(t, actor.actorId);
    forall id, queue | Lists(after, id, queue)
      ensures queue.addr in after.queues && after.queues[queue.addr].owner == id
    {
      InsertedHas(index, actor.queues, actor.actorId, queue.addr);
      AddressesOf(actor.queues, queue.addr);
      if id != actor.actorId {
        assert Lists(t, id, queue);
        AddressesOf(QueuesOf(t, actor.actorId), queue.addr);
        assert queue.addr !in ListedAddresses(QueuesOf(t, actor.actorId)) by {
          if other :| other in QueuesOf(t, actor.actorId) && other.addr == queue.addr {
            assert Lists(t, actor.actorId, other);
          }
        }
        if other :| other in actor.queues && other.addr == queue.addr {
          assert other.addr in index;
        }
      }
    }
  }

  /** A registration keeps index and lists in agreement exactly when it does not strip an
      actor of its index entries: accepted, or rejected with nothing listed before. */
  lemma RegisterKeepsListedIff(t: Tables, actor: ActorRegistration, now: u64)
    requires Backed(t) && Listed(t)
    ensures Listed(AfterRegister(t, actor, now)) <==> !LosesItsIndex(t, actor)
  {
    var after := AfterRegister(t, actor, now);
    var existing := QueuesOf(t, actor.actorId);
    if !Rejects(t, actor) {
      AcceptedRegisterKeepsListed(t, actor, now);
    } else if existing == [] {
      assert after == t;
    } else {
      assert Lists(after, actor.actorId, existing[0]);
      AddressesOf(existing, existing[0].addr);
    }
  }

  lemma UnregisterKeepsListed(t: Tables, actorId: string)
    requires Backed(t) && Listed(t)
    ensures Listed(AfterUnregister(t, actorId))
  {
    var after := AfterUnregister(t, actorId);
    forall id, queue | Lists(after, id, queue)
      ensures queue.addr in after.queues && after.queues[queue.addr].owner == id
    {
      assert Lists(t, id, queue);
      AddressesOf(QueuesOf(t, actorId), queue.addr);
      if actorId in t.actors {
        if other :| other in QueuesOf(t, actorId) && other.addr == queue.addr {
          assert Lists(t, actorId, other);
        }
      }
    }
  }

  lemma RegisterQueueKeepsListed(t: Tables, actorId: string, queue: QueueInfo)
    requires Backed(t) && Listed(t)
    ensures Listed(AfterRegisterQueue(t, actorId, queue))
  {
    var after := AfterRegisterQueue(t, actorId, queue);
    forall id, other | Lists(after, id, other)
      ensures other.addr in after.queues && after.queues[other.addr].owner == id
    {
      if actorId in t.actors && queue.addr !in t.queues && !Lists(t, id, other) {
        assert other == queue;
      } else {
        assert Lists(t, id, other);
      }
    }
  }

  /** Agreement in both directions: the index is exactly the union of the lists. */
  lemma IndexIsUnionOfLists(t: Tables, addr: string, id: string)
    requires Backed(t) && Listed(t)
    ensures addr in t.queues && t.queues[addr].owner == id <==> addr in ListedAddresses(QueuesOf(t, id))
  {
    AddressesOf(QueuesOf(t, id), addr);
    if addr in t.queues {
      assert Lists(t, t.queues[addr].owner, QueueInfo(addr, t.queues[addr].queueType));
    }
    if queue :| queue in QueuesOf(t, id) && queue.addr == addr {
      assert Lists(t, id, queue);
    }
  }

  /** A fresh actor that registers and then unregisters leaves both tables as they were,
      accepted or not. */
  lemma RegisterThenUnregister(t: Tables, actor: ActorRegistration, now: u64)
    requires actor.actorId !in t.actors
    ensures AfterUnregister(AfterRegister(t, actor, now), actor.actorId) == t
  {
    var after := AfterRegister(t, actor, now);
    assert ListedAddresses(QueuesOf(t, actor.actorId)) == {};
    assert IndexWithout(t, actor.actorId) == t.queues;
    if !Rejects(t, actor) {
      var gone := AfterUnregister(after, actor.actorId);
      assert gone.queues == Inserted(t.queues, actor.queues, actor.actorId) - ListedAddresses(actor.queues);
      assert forall j :: 0 <= j < |actor.queues| ==> actor.queues[j].addr !in t.queues;
      forall addr
        ensures addr in gone.queues <==> addr in t.queues
        ensures addr in t.queues ==> gone.queues[addr] == t.queues[addr]
      {
        InsertedHas(t.queues, actor.queues, actor.actorId, addr);
        AddressesOf(actor.queues, addr);
      }
      assert gone.queues == t.queues;
      assert gone.actors == t.actors;
    }
  }
}
