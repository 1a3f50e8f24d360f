/** The master's request loop: every well-formed message first refreshes the health flags,
    then is handled. */
module MasterServer {
  import opened Specs
  import opened Registry

  datatype Request =
    | Register(actor: ActorRegistration)
    | RegisterQueue(actorId: string, queue: QueueInfo)
    | Unregister(actorId: string)
    | Heartbeat(actorId: string)
    | LookupQueue(queueAddr: string)
    | FindQueues(queueType: string)
    | FindQueuesByActor(actorType: string, queueType: string)
    | ConnectTrade(targetType: string)

  datatype Response =
    | Done
    | Failed(error: RegistryError)
    | InvalidRequest
    | QueueFound(owner: string, queueType: string)
    | QueueList(queues: seq<QueueInfo>)
    | TradeQueues(gatewayId: string, orderEventQueue: string, tradeEventQueue: string)

  function AfterRequest(t: Tables, request: Request, now: u64): Tables {
    match request
    case Register(actor) => AfterRegister(t, actor, now)
    case RegisterQueue(actorId, queue) => AfterRegisterQueue(t, actorId, queue)
    case Unregister(actorId) => AfterUnregister(t, actorId)
    case Heartbeat(actorId) => AfterHeartbeat(t, actorId, now)
    case _ => t
  }

  /** A message that does not parse is answered without touching anything. */
  function AfterMessage(t: Tables, message: Option<Request>, now: u64, timeout: u64): Tables {
    match message
    case None => t
    case Some(request) => AfterRequest(AfterUpdateHealth(t, now, timeout), request, now)
  }

  ghost predicate IsActorOfType(t: Tables, actorType: string, actorId: string) {
    exists key :: key in t.actors && t.actors[key].registration.actorType == actorType
               && t.actors[key].registration.actorId == actorId
  }

  ghost predicate Owns(t: Tables, owner: string, queueType: string) {
    exists addr :: addr in t.queues && t.queues[addr] == QueueOwner(owner, queueType)
  }

  ghost predicate IsListOf(queues: seq<QueueInfo>, t: Tables, actorType: Option<string>, queueType: string) {
    && (forall queue :: queue in queues <==> Offers(t, actorType, queueType, queue))
    && (forall j, k :: 0 <= j < k < |queues| ==> queues[j].addr != queues[k].addr)
  }

  ghost predicate AnswersConnectTrade(t: Tables, targetType: string, response: Response) {
    match response
    case TradeQueues(gateway, orderQueue, tradeQueue) =>
      && IsActorOfType(t, targetType, gateway)
      && orderQueue in t.queues && t.queues[orderQueue] == QueueOwner(gateway, "order-event")
      && tradeQueue in t.queues && t.queues[tradeQueue] == QueueOwner(gateway, "trade-event")
    case Failed(ActorTypeNotFound(actorType)) =>
      actorType == targetType && forall id :: id in t.actors ==> t.actors[id].registration.actorType != targetType
    case Failed(QueueTypeNotFound(gateway, queueType)) =>
      && IsActorOfType(t, targetType, gateway)
      && !Owns(t, gateway, queueType)
      && (queueType == "order-event" || (queueType == "trade-event" && Owns(t, gateway, "order-event")))
    case _ => false
  }

  /** The answer a request may get from the tables it finds; where several actors or queues
      qualify, the table order decides which. */
  ghost predicate Answers(t: Tables, request: Request, response: Response) {
    match request
    case Register(actor) =>
      response == if Rejects(t, actor) then Failed(Rejection(t, actor)) else Done
    case RegisterQueue(actorId, queue) =>
      response == if actorId !in t.actors then Failed(ActorNotFound(actorId))
                  else if queue.addr in t.queues then
                    Failed(QueueAlreadyRegistered(queue.addr, t.queues[queue.addr].owner))
                  else Done
    case Unregister(actorId) => response == if actorId in t.actors then Done else Failed(ActorNotFound(actorId))
    case Heartbeat(actorId) => response == if actorId in t.actors then Done else Failed(ActorNotFound(actorId))
    case LookupQueue(addr) =>
      response == if addr in t.queues then QueueFound(t.queues[addr].owner, t.queues[addr].queueType)
                  else Failed(QueueNotFound(addr))
    case FindQueues(queueType) =>
      response.QueueList? && IsListOf(response.queues, t, None, queueType)
    case FindQueuesByActor(actorType, queueType) =>
      response.QueueList? && IsListOf(response.queues, t, Some(actorType), queueType)
    case ConnectTrade(targetType) => AnswersConnectTrade(t, targetType, response)
  }

  class MasterServer {
    const registry: ActorRegistry
    const heartbeatTimeoutNs: u64

    constructor (heartbeatTimeoutNs: u64)
      ensures registry.View() == NoActors && this.heartbeatTimeoutNs == heartbeatTimeoutNs && fresh(registry)
    {
      registry := new ActorRegistry();
      this.heartbeatTimeoutNs := heartbeatTimeoutNs;
    }

    method HandleMessage(message: Option<Request>, now: u64) returns (response: Response)
      modifies registry
      ensures registry.View() == AfterMessage(old(registry.View()), message, now, heartbeatTimeoutNs)
      ensures message.None? ==> response == InvalidRequest
      ensures message.Some? ==>
                Answers(AfterUpdateHealth(old(registry.View()), now, heartbeatTimeoutNs), message.value, response)
    {
      if message.None? {
        return InvalidRequest;
      }
      registry.UpdateHealth(now, heartbeatTimeoutNs);
      response := HandleRequest(message.value, now);
    }

    method HandleRequest(request: Request, now: u64) returns (response: Response)
      modifies registry
      ensures registry.View() == AfterRequest(old(registry.View()), request, now)
      ensures Answers(old(registry.View()), request, response)
    {
      match request {
        case Register(actor) =>
          var result := registry.Register(actor, now);
          response := if result.Ok? then Done else Failed(result.error);
        case RegisterQueue(actorId, queue) =>
          var result := registry.RegisterQueue(actorId, queue);
          response := if result.Ok? then Done else Failed(result.error);
        case Unregister(actorId) =>
          var result := registry.Unregister(actorId);
          response := if result.Ok? then Done else Failed(result.error);
        case Heartbeat(actorId) =>
          var result := registry.RecordHeartbeat(actorId, now);
          response := if result.Ok? then Done else Failed(result.error);
        case LookupQueue(addr) =>
          var result := registry.LookupQueue(addr);
          response := if result.Ok? then QueueFound(result.value.owner, result.value.queueType)
                      else Failed(result.error);
        case FindQueues(queueType) =>
          var found := registry.FindQueues(None, queueType);
          response := QueueList(found);
        case FindQueuesByActor(actorType, queueType) =>
          var found := registry.FindQueues(Some(actorType), queueType);
          response := QueueList(found);
        case ConnectTrade(targetType) =>
          response := HandleConnectTrade(targetType);
      }
    }

    method HandleConnectTrade(targetType: string) returns (response: Response)
      ensures Answers(registry.View(), ConnectTrade(targetType), response)
    {
      var gateway := registry.FindActorByType(targetType);
      if gateway.Err? {
        return Failed(gateway.error);
      }
      var orders := registry.FindQueueByOwnerType(gateway.value, "order-event");
      if orders.Err? {
        return Failed(orders.error);
      }
      var trades := registry.FindQueueByOwnerType(gateway.value, "trade-event");
      if trades.Err? {
        return Failed(trades.error);
      }
      return TradeQueues(gateway.value, orders.value, trades.value);
    }
  }

  // ---------------------------------------------------------------------------
  // Whole runs

  datatype Arrival = Arrival(message: Option<Request>, now: u64)

  function TablesAfter(arrivals: seq<Arrival>, timeout: u64): Tables {
    if arrivals == [] then NoActors
    else
      var last := arrivals[|arrivals| - 1];
      AfterMessage(TablesAfter(arrivals[..|arrivals| - 1], timeout), last.message, last.now, timeout)
  }

  lemma HealthKeepsIndex(t: Tables, now: u64, timeout: u64)
    ensures Backed(t) ==> Backed(AfterUpdateHealth(t, now, timeout))
    ensures Listed(t) ==> Listed(AfterUpdateHealth(t, now, timeout))
  {
    var after := AfterUpdateHealth(t, now, timeout);
    assert forall id, queue :: Lists(after, id, queue) <==> Lists(t, id, queue);
  }

  lemma HeartbeatKeepsIndex(t: Tables, actorId: string, now: u64)
    ensures Backed(t) ==> Backed(AfterHeartbeat(t, actorId, now))
    ensures Listed(t) ==> Listed(AfterHeartbeat(t, actorId, now))
  {
    var after := AfterHeartbeat(t, actorId, now);
    assert forall id, queue :: Lists(after, id, queue) <==> Lists(t, id, queue);
  }

  lemma RequestKeepsBacked(t: Tables, request: Request, now: u64)
    requires Backed(t)
    ensures Backed(AfterRequest(t, request, now))
  {
    match request {
      case Register(actor) => RegisterKeepsBacked(t, actor, now);
      case RegisterQueue(actorId, queue) => RegisterQueueKeepsBacked(t, actorId, queue);
      case Unregister(actorId) => UnregisterKeepsBacked(t, actorId);
      case Heartbeat(actorId) => HeartbeatKeepsIndex(t, actorId, now);
      case _ =>
    }
  }

  /** In every run, failed requests included, each indexed address points to a live actor
      whose registration lists that address with that type. */
  lemma {:induction false} EveryIndexIsBacked(arrivals: seq<Arrival>, timeout: u64)
    ensures Backed(TablesAfter(arrivals, timeout))
  {
    if arrivals != [] {
      var last := arrivals[|arrivals| - 1];
      var before := TablesAfter(arrivals[..|arrivals| - 1], timeout);
      EveryIndexIsBacked(arrivals[..|arrivals| - 1], timeout);
      if last.message.Some? {
        HealthKeepsIndex(before, last.now, timeout);
        RequestKeepsBacked(AfterUpdateHealth(before, last.now, timeout), last.message.value, last.now);
      }
    }
  }

  /** So the queues a trade connection is told of are listed by the very gateway named. */
  lemma TradeConnectionIsReal(arrivals: seq<Arrival>, timeout: u64, targetType: string, response: Response)
    requires Answers(TablesAfter(arrivals, timeout), ConnectTrade(targetType), response) && response.TradeQueues?
    ensures var t := TablesAfter(arrivals, timeout);
            && response.gatewayId in t.actors
            && t.actors[response.gatewayId].registration.actorType == targetType
            && Lists(t, response.gatewayId, QueueInfo(response.orderEventQueue, "order-event"))
            && Lists(t, response.gatewayId, QueueInfo(response.tradeEventQueue, "trade-event"))
  {
    EveryIndexIsBacked(arrivals, timeout);
  }

  /** No actor with queues listed has been turned down re-registering. */
  ghost predicate NoIndexLost(arrivals: seq<Arrival>, timeout: u64) {
    arrivals == []
    || (NoIndexLost(arrivals[..|arrivals| - 1], timeout)
        && var last := arrivals[|arrivals| - 1];
           last.message.Some? && last.message.value.Register? ==>
             !LosesItsIndex(AfterUpdateHealth(TablesAfter(arrivals[..|arrivals| - 1], timeout), last.now, timeout),
                            last.message.value.actor))
  }

  lemma RequestKeepsListed(t: Tables, request: Request, now: u64)
    requires Backed(t) && Listed(t)
    requires request.Register? ==> !LosesItsIndex(t, request.actor)
    ensures Listed(AfterRequest(t, request, now))
  {
    match request {
      case Register(actor) => RegisterKeepsListedIff(t, actor, now);
      case RegisterQueue(actorId, queue) => RegisterQueueKeepsListed(t, actorId, queue);
      case Unregister(actorId) => UnregisterKeepsListed(t, actorId);
      case Heartbeat(actorId) => HeartbeatKeepsIndex(t, actorId, now);
      case _ =>
    }
  }

  lemma {:induction false} EveryListIsIndexed(arrivals: seq<Arrival>, timeout: u64)
    requires NoIndexLost(arrivals, timeout)
    ensures Listed(TablesAfter(arrivals, timeout))
  {
    if arrivals != [] {
      var last := arrivals[|arrivals| - 1];
      var before := TablesAfter(arrivals[..|arrivals| - 1], timeout);
      EveryListIsIndexed(arrivals[..|arrivals| - 1], timeout);
      EveryIndexIsBacked(arrivals[..|arrivals| - 1], timeout);
      if last.message.Some? {
        HealthKeepsIndex(before, last.now, timeout);
        RequestKeepsListed(AfterUpdateHealth(before, last.now, timeout), last.message.value, last.now);
      }
    }
  }

  /** In runs without such a rejection the index is exactly the union of the lists. */
  lemma IndexEqualsLists(arrivals: seq<Arrival>, timeout: u64, addr: string, id: string)
    requires NoIndexLost(arrivals, timeout)
    ensures var t := TablesAfter(arrivals, timeout);
            addr in t.queues && t.queues[addr].owner == id <==> addr in ListedAddresses(QueuesOf(t, id))
  {
    EveryIndexIsBacked(arrivals, timeout);
    EveryListIsIndexed(arrivals, timeout);
    IndexIsUnionOfLists(TablesAfter(arrivals, timeout), addr, id);
  }

  ghost predicate ListedAfter(arrivals: seq<Arrival>, timeout: u64, k: nat)
    requires k <= |arrivals|
  {
    Listed(TablesAfter(arrivals[..k], timeout))
  }

  /** At every moment of the run each listed address is indexed under the actor that lists it. */
  ghost predicate AlwaysListed(arrivals: seq<Arrival>, timeout: u64) {
    forall k :: 0 <= k <= |arrivals| ==> ListedAfter(arrivals, timeout, k)
  }

  lemma AlwaysListedStep(arrivals: seq<Arrival>, timeout: u64)
    requires arrivals != []
    ensures AlwaysListed(arrivals, timeout)
       <==> AlwaysListed(arrivals[..|arrivals| - 1], timeout) && Listed(TablesAfter(arrivals, timeout))
  {
    var init := arrivals[..|arrivals| - 1];
    assert arrivals[..|arrivals|] == arrivals;
    forall k | 0 <= k < |arrivals|
      ensures ListedAfter(init, timeout, k) <==> ListedAfter(arrivals, timeout, k)
    {
      assert init[..k] == arrivals[..k];
    }
    if AlwaysListed(arrivals, timeout) {
      assert ListedAfter(arrivals, timeout, |arrivals|);
    }
  }

  /** Index and lists agree throughout a run exactly if no actor with queues listed is turned
      down re-registering. */
  lemma {:induction false} AlwaysListedIff(arrivals: seq<Arrival>, timeout: u64)
    ensures AlwaysListed(arrivals, timeout) <==> NoIndexLost(arrivals, timeout)
  {
    if arrivals == [] {
      assert arrivals[..0] == [];
    } else {
      var init, last := arrivals[..|arrivals| - 1], arrivals[|arrivals| - 1];
      AlwaysListedIff(init, timeout);
      AlwaysListedStep(arrivals, timeout);
      if NoIndexLost(arrivals, timeout) {
        EveryListIsIndexed(arrivals, timeout);
      } else if NoIndexLost(init, timeout) {
        EveryListIsIndexed(init, timeout);
        var checked := AfterUpdateHealth(TablesAfter(init, timeout), last.now, timeout);
        EveryIndexIsBacked(init, timeout);
        HealthKeepsIndex(TablesAfter(init, timeout), last.now, timeout);
        RegisterKeepsListedIff(checked, last.message.value.actor, last.now);
      }
    }
  }

  // The two ways in which a rejected re-registration shows: the actor lists an address that
  // nobody is found under, and it takes the address out again from under its next owner.

  function Listing(actorId: string, addr: string): Arrival {
    Arrival(Some(Register(ActorRegistration(actorId, "type", [QueueInfo(addr, "quote")]))), 0)
  }

  function Registered(actorId: string, addr: string): ActorRecord {
    ActorRecord(ActorRegistration(actorId, "type", [QueueInfo(addr, "quote")]), 0, Healthy)
  }

  lemma ArrivesLast(arrivals: seq<Arrival>, last: Arrival, timeout: u64)
    ensures TablesAfter(arrivals + [last], timeout)
         == AfterMessage(TablesAfter(arrivals, timeout), last.message, last.now, timeout)
  {
    assert (arrivals + [last])[..|arrivals|] == arrivals;
  }

  /** a lists q1, b lists q2, and a is turned down when it asks for q2. */
  function TurnedDown(): seq<Arrival> {
    [Listing("a", "q1")] + [Listing("b", "q2")] + [Listing("a", "q2")]
  }

  const STRIPPED := Tables(map["a" := Registered("a", "q1"), "b" := Registered("b", "q2")],
                           map["q2" := QueueOwner("b", "quote")])

  lemma HealthOfFresh(t: Tables, timeout: u64)
    requires forall id :: id in t.actors ==> t.actors[id].lastHeartbeatNs == 0
    ensures AfterUpdateHealth(t, 0, timeout) == t
  {
    assert AfterUpdateHealth(t, 0, timeout).actors == t.actors;
  }

  lemma OneAddress(addr: string)
    ensures ListedAddresses([QueueInfo(addr, "quote")]) == {addr}
  {
    var listed := [QueueInfo(addr, "quote")];
    assert listed[0].addr == addr;
  }

  lemma FreshListing(t: Tables, actorId: string, addr: string, timeout: u64)
    requires forall id :: id in t.actors ==> t.actors[id].lastHeartbeatNs == 0
    requires actorId !in t.actors && addr !in t.queues
    ensures AfterMessage(t, Listing(actorId, addr).message, 0, timeout)
         == Tables(t.actors[actorId := Registered(actorId, addr)], t.queues[addr := QueueOwner(actorId, "quote")])
  {
    HealthOfFresh(t, timeout);
    var listed := [QueueInfo(addr, "quote")];
    assert IndexWithout(t, actorId) == t.queues;
    assert listed[..0] == [] && listed[1..] == [];
    assert FirstTaken(listed, t.queues) == 1;
    assert Inserted(t.queues, listed[..0], actorId) == t.queues;
  }

  lemma RefusedListing(t: Tables, actorId: string, listed: string, addr: string, timeout: u64)
    requires forall id :: id in t.actors ==> t.actors[id].lastHeartbeatNs == 0
    requires actorId in t.actors && t.actors[actorId] == Registered(actorId, listed)
    requires addr != listed && addr in t.queues
    ensures AfterMessage(t, Listing(actorId, addr).message, 0, timeout) == t.(queues := t.queues - {listed})
  {
    HealthOfFresh(t, timeout);
    OneAddress(listed);
  }

  lemma TurnedDownStrips(timeout: u64)
    ensures TablesAfter(TurnedDown(), timeout) == STRIPPED
  {
    var one, two := [Listing("a", "q1")], [Listing("a", "q1")] + [Listing("b", "q2")];
    ArrivesLast([], Listing("a", "q1"), timeout);
    assert [] + one == one;
    FreshListing(NoActors, "a", "q1", timeout);
    ArrivesLast(one, Listing("b", "q2"), timeout);
    FreshListing(TablesAfter(one, timeout), "b", "q2", timeout);
    ArrivesLast(two, Listing("a", "q2"), timeout);
    RefusedListing(TablesAfter(two, timeout), "a", "q1", "q2", timeout);
    assert TablesAfter(two, timeout).queues - {"q1"} == STRIPPED.queues;
  }

  /** After three registrations actor a still lists q1, and the index does not have it. */
  lemma IndexCanLoseListed(timeout: u64)
    ensures var t := TablesAfter(TurnedDown(), timeout);
            Lists(t, "a", QueueInfo("q1", "quote")) && "q1" !in t.queues && !Listed(t)
  {
    TurnedDownStrips(timeout);
    assert Lists(STRIPPED, "a", QueueInfo("q1", "quote"));
  }

  /** c has registered the address that a still lists. */
  const SHARED := Tables(STRIPPED.actors["c" := Registered("c", "q1")],
                         STRIPPED.queues["q1" := QueueOwner("c", "quote")])

  lemma ThirdRegisters(timeout: u64)
    ensures TablesAfter(TurnedDown() + [Listing("c", "q1")], timeout) == SHARED
  {
    TurnedDownStrips(timeout);
    ArrivesLast(TurnedDown(), Listing("c", "q1"), timeout);
    FreshListing(STRIPPED, "c", "q1", timeout);
  }

  lemma StrippedActorLeaves(timeout: u64)
    ensures AfterMessage(SHARED, Some(Unregister("a")), 0, timeout)
         == Tables(SHARED.actors - {"a"}, SHARED.queues - {"q1"})
  {
    HealthOfFresh(SHARED, timeout);
    OneAddress("q1");
  }

  /** Unregistering does not look at owners: once c has registered q1, the stripped actor a
      takes it out of the index on leaving, and c lists it in vain. */
  lemma StrippedActorTakesOthersAddress(timeout: u64)
    ensures var t := TablesAfter(TurnedDown() + [Listing("c", "q1")], timeout);
            "q1" in t.queues && t.queues["q1"].owner == "c"
    ensures var t := TablesAfter(TurnedDown() + [Listing("c", "q1")] + [Arrival(Some(Unregister("a")), 0)], timeout);
            Lists(t, "c", QueueInfo("q1", "quote")) && "q1" !in t.queues
  {
    ThirdRegisters(timeout);
    ArrivesLast(TurnedDown() + [Listing("c", "q1")], Arrival(Some(Unregister("a")), 0), timeout);
    StrippedActorLeaves(timeout);
    assert Lists(SHARED, "c", QueueInfo("q1", "quote"));
  }

  // ---------------------------------------------------------------------------
  // Health

  /** When the last well-formed message was handled. */
  function HandledAt(arrivals: seq<Arrival>): u64 {
    if arrivals == [] then 0
    else if arrivals[|arrivals| - 1].message.Some? then arrivals[|arrivals| - 1].now
    else HandledAt(arrivals[..|arrivals| - 1])
  }

  ghost predicate Monotone(arrivals: seq<Arrival>) {
    arrivals == []
    || (Monotone(arrivals[..|arrivals| - 1])
        && (arrivals[|arrivals| - 1].message.Some? ==>
              HandledAt(arrivals[..|arrivals| - 1]) <= arrivals[|arrivals| - 1].now))
  }

  predicate FlagTellsTime(record: ActorRecord, now: u64, timeout: u64) {
    && record.lastHeartbeatNs <= now
    && (record.status == Unhealthy <==> now - record.lastHeartbeatNs > timeout)
  }

  ghost predicate FlagsTellTime(t: Tables, now: u64, timeout: u64) {
    forall id :: id in t.actors ==> FlagTellsTime(t.actors[id], now, timeout)
  }

  /** The flag refines the clock: under a clock that does not go back, after every
      well-formed message an actor is Unhealthy iff its last heartbeat is more than the
      timeout ago. */
  lemma {:induction false} HealthRefinesClock(arrivals: seq<Arrival>, timeout: u64)
    requires Monotone(arrivals)
    ensures FlagsTellTime(TablesAfter(arrivals, timeout), HandledAt(arrivals), timeout)
  {
    if arrivals != [] {
      var last := arrivals[|arrivals| - 1];
      var before := TablesAfter(arrivals[..|arrivals| - 1], timeout);
      HealthRefinesClock(arrivals[..|arrivals| - 1], timeout);
      if last.message.Some? {
        var checked := AfterUpdateHealth(before, last.now, timeout);
        assert forall id :: id in before.actors ==>
          FlagTellsTime(before.actors[id], HandledAt(arrivals[..|arrivals| - 1]), timeout);
        assert FlagsTellTime(checked, last.now, timeout);
        RequestKeepsFlags(checked, last.message.value, last.now, timeout);
      }
    }
  }

  lemma RequestKeepsFlags(t: Tables, request: Request, now: u64, timeout: u64)
    requires FlagsTellTime(t, now, timeout)
    ensures FlagsTellTime(AfterRequest(t, request, now), now, timeout)
  {
    var after := AfterRequest(t, request, now);
    forall id | id in after.actors
      ensures FlagTellsTime(after.actors[id], now, timeout)
    {
      if id in t.actors {
        assert FlagTellsTime(t.actors[id], now, timeout);
      }
    }
  }
}
