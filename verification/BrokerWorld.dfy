// Every interleaving of broker clients: producers, consumers that own deliveries and settle, renew
// or drop them, connection loss and fault scripts. Owned deliveries are known by a handle that is
// never used twice.
module BrokerWorld {
  import opened Prelude
  import opened FakeBroker

  // `acked` and `rejected` record the deliveries that left for good; no step reads them.
  datatype World = World(
    b: Broker,
    held: map<nat, Queued>,
    nextHandle: nat,
    acked: set<DeliveryId>,
    rejected: set<DeliveryId>)

  datatype Action =
    | Enqueue(message: Message, availableAt: int)
    | Duplicate(source: DeliveryId, now: int)
    | Publish(message: Message, now: int)
    | Dequeue(now: int)
    | Complete(handle: nat, event: AckEvent, now: int)
    | Renew(handle: nat)
    | Drop(handle: nat, now: int)
    | Connect(up: bool)
    | Script(faults: Faults)

  function EmptyWorld(limits: Limits): World {
    World(EmptyBroker(limits), map[], 0, {}, {})
  }

  predicate Possible(w: World, a: Action) {
    match a
    case Complete(h, event, _) => h in w.held && !event.Failed?
    case Renew(h) => h in w.held
    case Drop(h, _) => h in w.held
    case _ => true
  }

  function Completed(w: World, h: nat, event: AckEvent, now: int): World
    requires h in w.held
  {
    var q := w.held[h];
    var (b, result) := CompleteSection(w.b, q, event, now);
    World(b, w.held - {h}, w.nextHandle,
          if result.Ok? && event.Acked? then w.acked + {q.id} else w.acked,
          if result.Ok? && Terminal(event) then w.rejected + {q.id} else w.rejected)
  }

  function Dropped(w: World, h: nat, now: int): World
    requires h in w.held
  {
    w.(b := AbandonSection(w.b, w.held[h], now), held := w.held - {h})
  }

  function Taken(w: World, now: int): World {
    var (b, result) := DequeueSection(w.b, now);
    match result
    case Ok(Some(q)) => w.(b := b, held := w.held[w.nextHandle := q], nextHandle := w.nextHandle + 1)
    case _ => w.(b := b)
  }

  function Act(w: World, a: Action): World
    requires Possible(w, a)
  {
    match a
    case Enqueue(message, at) => w.(b := EnqueueSection(w.b, message, at).0)
    case Duplicate(source, now) => w.(b := DuplicateSection(w.b, source, now).0)
    case Publish(message, now) => w.(b := PublishSection(w.b, message, now).0)
    case Dequeue(now) => Taken(w, now)
    case Complete(h, event, now) => Completed(w, h, event, now)
    case Renew(h) => w.(b := HeartbeatSection(w.b, w.held[h]).0)
    case Drop(h, now) => Dropped(w, h, now)
    case Connect(up) => w.(b := w.b.(connected := up))
    case Script(faults) => w.(b := w.b.(faults := faults))
  }

  // ---------------------------------------------------------------- where a delivery is

  ghost function QueueIds(queue: seq<Queued>): set<DeliveryId> {
    set i | 0 <= i < |queue| :: queue[i].id
  }

  ghost function HeldIds(held: map<nat, Queued>): set<DeliveryId> {
    set h | h in held :: held[h].id
  }

  ghost predicate DistinctQueue(queue: seq<Queued>) {
    forall i, j :: 0 <= i < j < |queue| ==> queue[i].id != queue[j].id
  }

  ghost predicate DistinctHeld(held: map<nat, Queued>) {
    forall h, k :: h in held && k in held && h != k ==> held[h].id != held[k].id
  }

  // The identities handed out so far: a gap-free range, each in the catalog.
  ghost predicate IssuedInOrder(b: Broker) {
    forall id :: id in b.catalog <==> 1 <= id < b.nextId
  }

  // Every issued identity is in exactly one place.
  ghost predicate Partitioned(w: World) {
    && DistinctQueue(w.b.queue) && DistinctHeld(w.held)
    && QueueIds(w.b.queue) !! HeldIds(w.held) !! w.acked !! w.rejected
    && w.b.catalog.Keys == QueueIds(w.b.queue) + HeldIds(w.held) + w.acked + w.rejected
  }

  ghost predicate CatalogFits(catalog: map<DeliveryId, Message>, limits: Limits) {
    |catalog| <= limits.maxCatalog
  }

  ghost predicate Bounded(w: World) {
    && w.b.inFlight == |w.held| && |w.b.queue| + w.b.inFlight <= w.b.limits.maxPending
    && CatalogFits(w.b.catalog, w.b.limits)
    && 1 <= w.b.nextId < U64_LIMIT && (forall h <- w.held :: h < w.nextHandle)
  }

  ghost predicate DeliveryOk(b: Broker, q: Queued) {
    && q.id in b.catalog && b.catalog[q.id] == q.message && 1 <= q.attempt < U32_LIMIT
    && |q.message.payload| <= b.limits.maxMessageBytes
  }

  // A delivery carries the bytes it was enqueued with, whatever its attempt.
  ghost predicate Intact(w: World) {
    && IssuedInOrder(w.b)
    && (forall i :: 0 <= i < |w.b.queue| ==> DeliveryOk(w.b, w.b.queue[i]))
    && (forall h <- w.held :: DeliveryOk(w.b, w.held[h]))
  }

  ghost predicate Inv(w: World) {
    Partitioned(w) && Bounded(w) && Intact(w)
  }

  // ---------------------------------------------------------------- set arithmetic

  lemma QueueIdsOfAppend(queue: seq<Queued>, q: Queued)
    ensures QueueIds(queue + [q]) == QueueIds(queue) + {q.id}
    ensures DistinctQueue(queue) && q.id !in QueueIds(queue) ==> DistinctQueue(queue + [q])
  {
    var longer := queue + [q];
    forall id ensures id in QueueIds(longer) <==> id in QueueIds(queue) + {q.id} {
      if id in QueueIds(queue) {
        var i :| 0 <= i < |queue| && queue[i].id == id;
        assert longer[i].id == id;
      }
      assert longer[|queue|].id == q.id;
    }
  }

  lemma QueueIdsOfWithout(queue: seq<Queued>, i: nat)
    requires i < |queue| && DistinctQueue(queue)
    ensures QueueIds(Without(queue, i)) == QueueIds(queue) - {queue[i].id}
    ensures DistinctQueue(Without(queue, i))
  {
    var shorter := Without(queue, i);
    assert forall k :: 0 <= k < |shorter| ==> shorter[k] == queue[if k < i then k else k + 1];
    forall id ensures id in QueueIds(shorter) <==> id in QueueIds(queue) - {queue[i].id} {
      if id in QueueIds(queue) - {queue[i].id} {
        var k :| 0 <= k < |queue| && queue[k].id == id;
        assert shorter[if k < i then k else k - 1].id == id;
      }
    }
  }

  lemma HeldIdsOfTake(held: map<nat, Queued>, h: nat, q: Queued)
    requires h !in held
    ensures HeldIds(held[h := q]) == HeldIds(held) + {q.id} && |held[h := q]| == |held| + 1
    ensures DistinctHeld(held) && q.id !in HeldIds(held) ==> DistinctHeld(held[h := q])
  {
    var more := held[h := q];
    assert more[h].id == q.id;
    assert forall k <- held :: more[k].id == held[k].id;
    assert more.Keys == held.Keys + {h};
  }

  lemma HeldIdsOfRelease(held: map<nat, Queued>, h: nat)
    requires h in held && DistinctHeld(held)
    ensures HeldIds(held - {h}) == HeldIds(held) - {held[h].id} && |held - {h}| == |held| - 1
    ensures DistinctHeld(held - {h}) && held[h].id in HeldIds(held)
  {
    var less := held - {h};
    assert forall k <- less :: less[k].id == held[k].id;
    assert less.Keys == held.Keys - {h};
  }

  // ---------------------------------------------------------------- every action keeps the invariant

  // Only connection, scripts or histories change.
  lemma QuietKeeps(w: World, b: Broker)
    requires Inv(w)
    requires b.queue == w.b.queue && b.inFlight == w.b.inFlight && b.catalog == w.b.catalog
    requires b.nextId == w.b.nextId && b.limits == w.b.limits
    ensures Inv(w.(b := b))
  {
    assert forall q :: DeliveryOk(w.b, q) ==> DeliveryOk(b, q);
  }

  lemma NewIsPartitioned(w: World, b: Broker, q: Queued)
    requires Partitioned(w) && q.id !in w.b.catalog
    requires b.queue == w.b.queue + [q] && b.catalog == w.b.catalog[q.id := q.message]
    ensures Partitioned(w.(b := b))
  {
    QueueIdsOfAppend(w.b.queue, q);
    hide QueueIds, HeldIds, DistinctQueue, DistinctHeld;
    assert b.catalog.Keys == w.b.catalog.Keys + {q.id};
  }

  lemma NewIsIntact(w: World, b: Broker, q: Queued)
    requires Intact(w) && q.id == w.b.nextId && q.attempt == 1 && q.id >= 1
    requires b.limits == w.b.limits && |q.message.payload| <= b.limits.maxMessageBytes
    requires b.queue == w.b.queue + [q] && b.catalog == w.b.catalog[q.id := q.message] && b.nextId == w.b.nextId + 1
    ensures Intact(w.(b := b))
  {
    assert w.b.nextId !in w.b.catalog;
    assert forall p :: DeliveryOk(w.b, p) ==> DeliveryOk(b, p);
  }

  lemma EnqueueKeeps(w: World, message: Message, at: int)
    requires Inv(w)
    ensures Inv(w.(b := EnqueueSection(w.b, message, at).0))
  {
    var (b, r) := EnqueueSection(w.b, message, at);
    if r.Ok? {
      var q := Queued(w.b.nextId, message, 1, at);
      assert q.id !in w.b.catalog;
      hide Partitioned, Intact;
      NewIsPartitioned(w, b, q);
      NewIsIntact(w, b, q);
    }
  }

  lemma LoggedKeeps(w: World, message: Message)
    requires Inv(w)
    ensures Inv(w.(b := LogPublished(w.b, message)))
  {
    QuietKeeps(w, LogPublished(w.b, message));
  }

  lemma PublishKeeps(w: World, message: Message, now: int)
    requires Inv(w)
    ensures Inv(w.(b := PublishSection(w.b, message, now).0))
  {
    hide Inv;
    if w.b.connected && |message.payload| <= w.b.limits.maxMessageBytes {
      var rest := if w.b.faults.publish == [] then w.b
                  else w.b.(faults := w.b.faults.(publish := w.b.faults.publish[1..]));
      QuietKeeps(w, rest);
      EnqueueKeeps(w.(b := rest), message, now);
      LoggedKeeps(w.(b := EnqueueSection(rest, message, now).0), message);
    }
  }

  lemma TakenIsPartitioned(w: World, i: nat, h: nat)
    requires Partitioned(w) && i < |w.b.queue| && h !in w.held
    ensures Partitioned(w.(b := w.b.(queue := Without(w.b.queue, i)), held := w.held[h := w.b.queue[i]]))
  {
    assert w.b.queue[i].id in QueueIds(w.b.queue);
    QueueIdsOfWithout(w.b.queue, i);
    HeldIdsOfTake(w.held, h, w.b.queue[i]);
    hide QueueIds, HeldIds, DistinctQueue, DistinctHeld, Without;
  }

  lemma TakenIsIntact(w: World, i: nat, h: nat)
    requires Intact(w) && i < |w.b.queue| && h !in w.held
    ensures Intact(w.(b := w.b.(queue := Without(w.b.queue, i)), held := w.held[h := w.b.queue[i]]))
  {
    var b := w.b.(queue := Without(w.b.queue, i));
    assert forall p :: DeliveryOk(w.b, p) ==> DeliveryOk(b, p);
    assert forall k :: 0 <= k < |b.queue| ==> b.queue[k] == w.b.queue[if k < i then k else k + 1];
  }

  // Neither predicate looks at the in-flight count or the next handle.
  lemma Recount(w: World, inFlight: nat, nextHandle: nat)
    requires Partitioned(w) && Intact(w)
    ensures Partitioned(w.(b := w.b.(inFlight := inFlight), nextHandle := nextHandle))
    ensures Intact(w.(b := w.b.(inFlight := inFlight), nextHandle := nextHandle))
  {
    var b := w.b.(inFlight := inFlight);
    assert forall p :: DeliveryOk(w.b, p) ==> DeliveryOk(b, p);
  }

  lemma TakenIsBounded(w: World, i: nat)
    requires Bounded(w) && i < |w.b.queue|
    ensures Bounded(w.(b := w.b.(queue := Without(w.b.queue, i), inFlight := w.b.inFlight + 1),
                       held := w.held[w.nextHandle := w.b.queue[i]], nextHandle := w.nextHandle + 1))
  {
    hide CatalogFits;
    assert w.nextHandle !in w.held;
    assert w.held[w.nextHandle := w.b.queue[i]].Keys == w.held.Keys + {w.nextHandle};
  }

  lemma FreshHandle(w: World)
    requires Bounded(w)
    ensures w.nextHandle !in w.held
  {
  }

  lemma TakenKeeps(w: World, now: int)
    requires Inv(w)
    ensures Inv(Taken(w, now))
  {
    hide Partitioned, Intact, Bounded, FirstReady, Without;
    var (b, r) := DequeueSection(w.b, now);
    if r.Ok? && r.value.Some? {
      var i := FirstReady(w.b.queue, now).value;
      FreshHandle(w);
      TakenIsBounded(w, i);
      TakenIsPartitioned(w, i, w.nextHandle);
      TakenIsIntact(w, i, w.nextHandle);
      Recount(w.(b := w.b.(queue := Without(w.b.queue, i)), held := w.held[w.nextHandle := w.b.queue[i]]),
              w.b.inFlight + 1, w.nextHandle + 1);
    } else {
      QuietKeeps(w, b);
    }
  }

  lemma RequeuedIsPartitioned(w: World, h: nat, q: Queued)
    requires Partitioned(w) && h in w.held && q.id == w.held[h].id
    ensures Partitioned(w.(b := w.b.(queue := w.b.queue + [q]), held := w.held - {h}))
  {
    HeldIdsOfRelease(w.held, h);
    QueueIdsOfAppend(w.b.queue, q);
    hide QueueIds, HeldIds, DistinctQueue, DistinctHeld;
  }

  lemma RequeuedIsIntact(w: World, h: nat, q: Queued)
    requires Intact(w) && h in w.held && DeliveryOk(w.b, q)
    ensures Intact(w.(b := w.b.(queue := w.b.queue + [q]), held := w.held - {h}))
  {
    var b := w.b.(queue := w.b.queue + [q]);
    assert forall p :: DeliveryOk(w.b, p) ==> DeliveryOk(b, p);
  }

  // Neither predicate looks at anything but the queue, the catalog and the identities.
  lemma SameDeliveries(w: World, b: Broker)
    requires Partitioned(w) && Intact(w)
    requires b.queue == w.b.queue && b.catalog == w.b.catalog && b.nextId == w.b.nextId && b.limits == w.b.limits
    ensures Partitioned(w.(b := b)) && Intact(w.(b := b))
  {
    assert forall p :: DeliveryOk(w.b, p) ==> DeliveryOk(b, p);
  }

  // The owner of a delivery lets go of it, and it goes back to the queue.
  lemma RequeuedKeeps(w: World, h: nat, now: int, b: Broker)
    requires Inv(w) && h in w.held
    requires b.queue == w.b.queue + [Redelivery(w.held[h], now)] && b.inFlight == Monus(w.b.inFlight, 1)
    requires b.catalog == w.b.catalog && b.nextId == w.b.nextId && b.limits == w.b.limits
    ensures Inv(w.(b := b, held := w.held - {h}))
  {
    hide Partitioned, Intact, Bounded;
    var q := Redelivery(w.held[h], now);
    RedeliveryIsOk(w, h, now);
    RequeuedIsPartitioned(w, h, q);
    RequeuedIsIntact(w, h, q);
    SameDeliveries(w.(b := w.b.(queue := w.b.queue + [q]), held := w.held - {h}), b);
    ReleasedIsBounded(w, h, b);
  }

  lemma RedeliveryIsOk(w: World, h: nat, now: int)
    requires Intact(w) && h in w.held
    ensures DeliveryOk(w.b, Redelivery(w.held[h], now))
  {
    assert DeliveryOk(w.b, w.held[h]);
  }

  lemma ReleasedIsBounded(w: World, h: nat, b: Broker)
    requires Bounded(w) && h in w.held && b.inFlight == Monus(w.b.inFlight, 1) && |b.queue| <= |w.b.queue| + 1
    requires b.catalog == w.b.catalog && b.nextId == w.b.nextId && b.limits == w.b.limits
    ensures Bounded(w.(b := b, held := w.held - {h}))
  {
    hide CatalogFits;
    assert (w.held - {h}).Keys == w.held.Keys - {h};
  }

  lemma GoneIsPartitioned(w: World, h: nat, acked: set<DeliveryId>, rejected: set<DeliveryId>)
    requires Partitioned(w) && h in w.held
    requires (acked == w.acked + {w.held[h].id} && rejected == w.rejected)
             || (acked == w.acked && rejected == w.rejected + {w.held[h].id})
    ensures Partitioned(w.(held := w.held - {h}, acked := acked, rejected := rejected))
  {
    HeldIdsOfRelease(w.held, h);
    hide QueueIds, HeldIds, DistinctQueue, DistinctHeld;
  }

  // The owner lets go of it, and it is recorded as gone for good.
  lemma GoneKeeps(w: World, h: nat, b: Broker, acked: set<DeliveryId>, rejected: set<DeliveryId>)
    requires Inv(w) && h in w.held
    requires b.queue == w.b.queue && b.inFlight == Monus(w.b.inFlight, 1)
    requires b.catalog == w.b.catalog && b.nextId == w.b.nextId && b.limits == w.b.limits
    requires (acked == w.acked + {w.held[h].id} && rejected == w.rejected)
             || (acked == w.acked && rejected == w.rejected + {w.held[h].id})
    ensures Inv(World(b, w.held - {h}, w.nextHandle, acked, rejected))
  {
    hide Partitioned, Intact, Bounded;
    var gone := w.(held := w.held - {h}, acked := acked, rejected := rejected);
    GoneIsPartitioned(w, h, acked, rejected);
    GoneIsIntact(w, h, acked, rejected);
    SameDeliveries(gone, b);
    ReleasedIsBounded(w, h, b);
    BoundsIgnoreHistory(w.(b := b, held := w.held - {h}), acked, rejected);
  }

  lemma GoneIsIntact(w: World, h: nat, acked: set<DeliveryId>, rejected: set<DeliveryId>)
    requires Intact(w)
    ensures Intact(w.(held := w.held - {h}, acked := acked, rejected := rejected))
  {
    hide DeliveryOk, IssuedInOrder;
  }

  lemma BoundsIgnoreHistory(w: World, acked: set<DeliveryId>, rejected: set<DeliveryId>)
    requires Bounded(w)
    ensures Bounded(w.(acked := acked, rejected := rejected))
  {
    hide CatalogFits;
  }

  lemma CompletedKeeps(w: World, h: nat, event: AckEvent, now: int)
    requires Inv(w) && h in w.held && !event.Failed?
    ensures Inv(Completed(w, h, event, now))
  {
    hide Inv;
    var (b, r) := CompleteSection(w.b, w.held[h], event, now);
    var after := Completed(w, h, event, now);
    if r.Err? || Requeues(event) {
      RequeuedKeeps(w, h, now, b);
    } else {
      GoneKeeps(w, h, b, after.acked, after.rejected);
    }
  }

  lemma ActKeeps(w: World, a: Action)
    requires Inv(w) && Possible(w, a)
    ensures Inv(Act(w, a))
  {
    hide Inv, EnqueueSection, PublishSection, CompleteSection, DequeueSection;
    match a {
      case Enqueue(message, at) => EnqueueKeeps(w, message, at);
      case Duplicate(source, now) => {
        if source in w.b.catalog { EnqueueKeeps(w, w.b.catalog[source], now); } else { assert Act(w, a) == w; }
      }
      case Publish(message, now) => PublishKeeps(w, message, now);
      case Dequeue(now) => TakenKeeps(w, now);
      case Complete(h, event, now) => CompletedKeeps(w, h, event, now);
      case Renew(h) => QuietKeeps(w, HeartbeatSection(w.b, w.held[h]).0);
      case Drop(h, now) => RequeuedKeeps(w, h, now, AbandonSection(w.b, w.held[h], now));
      case Connect(up) => QuietKeeps(w, w.b.(connected := up));
      case Script(faults) => QuietKeeps(w, w.b.(faults := faults));
    }
  }

  lemma EmptyIsOk(limits: Limits)
    ensures Inv(EmptyWorld(limits))
  {
  }

  // ---------------------------------------------------------------- histories

  // Each history is full or holds all there was, and terminal records count the rejected deliveries.
  ghost predicate LogOk(log: Log, limits: Limits, rejected: nat) {
    && |log.published| == Min(log.publishedCount, limits.maxPublished)
    && |log.acknowledgements| == Min(log.acknowledgementCount, limits.maxAcknowledgements)
    && |log.heartbeats| == Min(log.heartbeatCount, limits.maxAcknowledgements)
    && |log.terminal| == Min(log.terminalCount, limits.maxTerminal)
    && log.terminalCount == rejected
  }

  ghost predicate HistoriesOk(w: World) {
    LogOk(w.b.log, w.b.limits, |w.rejected|)
  }

  lemma PushedLength<T>(entries: seq<T>, entry: T, count: nat, capacity: nat)
    requires |entries| == Min(count, capacity)
    ensures |PushBounded(entries, entry, capacity)| == Min(count + 1, capacity)
  {
  }

  lemma LoggedIsOk(b: Broker, n: nat, message: Message, record: AckRecord, beat: HeartbeatRecord)
    requires LogOk(b.log, b.limits, n)
    ensures LogOk(LogPublished(b, message).log, b.limits, n)
    ensures LogOk(LogAcknowledgement(b, record).log, b.limits, n)
    ensures LogOk(LogHeartbeat(b, beat).log, b.limits, n)
    ensures LogOk(LogTerminal(b, record).log, b.limits, n + 1)
  {
    hide PushBounded, Min;
    PushedLength(b.log.published, message, b.log.publishedCount, b.limits.maxPublished);
    PushedLength(b.log.acknowledgements, record, b.log.acknowledgementCount, b.limits.maxAcknowledgements);
    PushedLength(b.log.heartbeats, beat, b.log.heartbeatCount, b.limits.maxAcknowledgements);
    PushedLength(b.log.terminal, record, b.log.terminalCount, b.limits.maxTerminal);
  }

  lemma CompleteKeepsLog(b: Broker, q: Queued, event: AckEvent, now: int, n: nat)
    requires LogOk(b.log, b.limits, n)
    ensures var (after, r) := CompleteSection(b, q, event, now);
            after.limits == b.limits && LogOk(after.log, b.limits, if r.Ok? && Terminal(event) then n + 1 else n)
  {
    hide LogOk, PushBounded, Redelivery, Terminal, Requeues, Refused;
    var settled := SpendFault(b, OperationOf(event)).(inFlight := Monus(b.inFlight, 1));
    SpendKeepsLog(b, OperationOf(event));
    var record, failed := AckRecord(q.id, q.attempt, event), AckRecord(q.id, q.attempt, Failed(OperationOf(event)));
    var message, beat := Message(map[], []), HeartbeatRecord(0, 0, true);
    LoggedIsOk(settled, n, message, failed, beat);
    LoggedIsOk(settled, n, message, record, beat);
    LoggedIsOk(LogAcknowledgement(settled, record), n, message, record, beat);
    OneFate(event);
  }

  lemma SpendKeepsLog(b: Broker, op: AckOperation)
    ensures SpendFault(b, op).log == b.log && SpendFault(b, op).limits == b.limits
  {
  }

  lemma OneFate(event: AckEvent)
    ensures !(Requeues(event) && Terminal(event))
  {
  }

  lemma CompletedKeepsHistories(w: World, h: nat, event: AckEvent, now: int)
    requires HistoriesOk(w) && h in w.held && w.held[h].id !in w.rejected
    ensures HistoriesOk(Completed(w, h, event, now))
  {
    hide LogOk, CompleteSection, Terminal;
    assert |w.rejected + {w.held[h].id}| == |w.rejected| + 1;
    CompleteKeepsLog(w.b, w.held[h], event, now, |w.rejected|);
  }

  lemma PublishKeepsLog(b: Broker, message: Message, now: int, n: nat)
    requires LogOk(b.log, b.limits, n)
    ensures var after := PublishSection(b, message, now).0;
            after.limits == b.limits && LogOk(after.log, after.limits, n)
  {
    hide LogOk, LogPublished, EnqueueSection;
    EnqueueKeepsLog(b, message, now);
    var rest := if b.faults.publish == [] then b else b.(faults := b.faults.(publish := b.faults.publish[1..]));
    EnqueueKeepsLog(rest, message, now);
    PublishedIsOk(EnqueueSection(b, message, now).0, message, n);
    PublishedIsOk(EnqueueSection(rest, message, now).0, message, n);
  }

  lemma PublishedIsOk(b: Broker, message: Message, n: nat)
    requires LogOk(b.log, b.limits, n)
    ensures LogPublished(b, message).limits == b.limits && LogOk(LogPublished(b, message).log, b.limits, n)
  {
    LoggedIsOk(b, n, message, AckRecord(0, 0, Acked), HeartbeatRecord(0, 0, true));
  }

  lemma EnqueueKeepsLog(b: Broker, message: Message, at: int)
    ensures EnqueueSection(b, message, at).0.log == b.log && EnqueueSection(b, message, at).0.limits == b.limits
  {
  }

  lemma DequeueKeepsLog(b: Broker, now: int)
    ensures DequeueSection(b, now).0.log == b.log && DequeueSection(b, now).0.limits == b.limits
  {
  }

  lemma HeldKeepsLog(b: Broker, q: Queued, now: int, n: nat)
    requires LogOk(b.log, b.limits, n)
    ensures var after := HeartbeatSection(b, q).0; after.limits == b.limits && LogOk(after.log, after.limits, n)
    ensures var after := AbandonSection(b, q, now); after.limits == b.limits && LogOk(after.log, after.limits, n)
  {
    hide LogOk, PushBounded, Redelivery;
    var beat := HeartbeatRecord(q.id, q.attempt, b.connected && b.faults.heartbeat == 0);
    var record := AckRecord(q.id, q.attempt, Nacked(Shutdown));
    LoggedIsOk(b, n, Message(map[], []), record, beat);
  }

  lemma ActKeepsHistories(w: World, a: Action)
    requires Partitioned(w) && HistoriesOk(w) && Possible(w, a)
    ensures HistoriesOk(Act(w, a))
  {
    hide LogOk, EnqueueSection, PublishSection, CompleteSection, HeartbeatSection, AbandonSection, DequeueSection;
    match a {
      case Enqueue(message, at) => EnqueueKeepsLog(w.b, message, at);
      case Duplicate(source, now) => if source in w.b.catalog { EnqueueKeepsLog(w.b, w.b.catalog[source], now); }
      case Publish(message, now) => PublishKeepsLog(w.b, message, now, |w.rejected|);
      case Dequeue(now) => DequeueKeepsLog(w.b, now);
      case Complete(h, event, now) => {
        assert w.held[h].id in HeldIds(w.held);
        CompletedKeepsHistories(w, h, event, now);
      }
      case Renew(h) => HeldKeepsLog(w.b, w.held[h], 0, |w.rejected|);
      case Drop(h, now) => HeldKeepsLog(w.b, w.held[h], now, |w.rejected|);
      case Connect(up) => {}
      case Script(faults) => {}
    }
  }

  lemma EmptyHistoriesAreOk(limits: Limits)
    ensures HistoriesOk(EmptyWorld(limits))
  {
  }
}
