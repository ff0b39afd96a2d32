// The in-memory broker: queue, delivery ownership, redelivery and scripted faults. One function per
// operation that runs under the broker's lock, and the object whose methods implement them.
module FakeBroker {
  import opened Prelude
  import opened Text
  import Metadata

  type DeliveryId = nat

  datatype Message = Message(headers: Metadata.Entries, payload: seq<byte>)

  datatype Queued = Queued(id: DeliveryId, message: Message, attempt: nat, availableAt: int)

  datatype NackReason = Retryable | RetryAfter(delay: nat) | Shutdown | Permanent | ConsumerRejected

  datatype AckOperation = Ack | Nack

  datatype AckEvent = Acked | Nacked(reason: NackReason) | Failed(operation: AckOperation)

  datatype AckRecord = AckRecord(id: DeliveryId, attempt: nat, event: AckEvent)
  datatype HeartbeatRecord = HeartbeatRecord(id: DeliveryId, attempt: nat, renewed: bool)

  datatype PublishFault = PublishError | PublishUnknown(applied: bool)
  datatype PublishOutcome = Confirmed | OutcomeUnknown

  datatype BrokerError =
    | Disconnected
    | Injected
    | UnknownDelivery
    | IdentifierExhausted
    | InvalidBrokerMetadata
    | CapacityExceeded
    | PayloadTooLarge

  datatype Limits = Limits(
    maxPending: nat,
    maxCatalog: nat,
    maxPublished: nat,
    maxAcknowledgements: nat,
    maxTerminal: nat,
    maxFaults: nat,
    maxMessageBytes: nat)

  // Scripted faults still to be consumed.
  datatype Faults = Faults(publish: seq<PublishFault>, receive: nat, ack: nat, nack: nat, heartbeat: nat)

  // Bounded histories and their unbounded counters.
  datatype Log = Log(
    published: seq<Message>,
    publishedCount: nat,
    acknowledgements: seq<AckRecord>,
    acknowledgementCount: nat,
    heartbeats: seq<HeartbeatRecord>,
    heartbeatCount: nat,
    terminal: seq<AckRecord>,
    terminalCount: nat)

  datatype Broker = Broker(
    limits: Limits,
    connected: bool,
    nextId: nat,
    queue: seq<Queued>,
    inFlight: nat,
    catalog: map<DeliveryId, Message>,
    log: Log,
    faults: Faults)

  function EmptyBroker(limits: Limits): Broker {
    Broker(limits, true, 1, [], 0, map[], Log([], 0, [], 0, [], 0, [], 0), Faults([], 0, 0, 0, 0))
  }

  // ---------------------------------------------------------------- histories

  // Keeps the newest `capacity` entries, in order.
  function PushBounded<T>(entries: seq<T>, entry: T, capacity: nat): (r: seq<T>)
    ensures |entries| <= capacity ==>
              |r| == Min(capacity, |entries| + 1) && r == (entries + [entry])[|entries| + 1 - |r|..]
  {
    if capacity == 0 then entries
    else if |entries| == capacity then entries[1..] + [entry]
    else entries + [entry]
  }

  function LogPublished(b: Broker, message: Message): Broker {
    b.(log := b.log.(publishedCount := b.log.publishedCount + 1,
                     published := PushBounded(b.log.published, message, b.limits.maxPublished)))
  }

  function LogAcknowledgement(b: Broker, record: AckRecord): Broker {
    b.(log := b.log.(acknowledgementCount := b.log.acknowledgementCount + 1,
                     acknowledgements := PushBounded(b.log.acknowledgements, record, b.limits.maxAcknowledgements)))
  }

  function LogHeartbeat(b: Broker, record: HeartbeatRecord): Broker {
    b.(log := b.log.(heartbeatCount := b.log.heartbeatCount + 1,
                     heartbeats := PushBounded(b.log.heartbeats, record, b.limits.maxAcknowledgements)))
  }

  function LogTerminal(b: Broker, record: AckRecord): Broker {
    b.(log := b.log.(terminalCount := b.log.terminalCount + 1,
                     terminal := PushBounded(b.log.terminal, record, b.limits.maxTerminal)))
  }

  // ---------------------------------------------------------------- enqueue and publish

  function EnqueueSection(b: Broker, message: Message, availableAt: int): (Broker, Result<DeliveryId, BrokerError>) {
    if |message.payload| > b.limits.maxMessageBytes then (b, Err(PayloadTooLarge))
    else if |b.queue| + b.inFlight >= b.limits.maxPending then (b, Err(CapacityExceeded))
    else if |b.catalog| >= b.limits.maxCatalog then (b, Err(CapacityExceeded))
    else if b.nextId + 1 >= U64_LIMIT then (b, Err(IdentifierExhausted))
    else
      (b.(nextId := b.nextId + 1,
          catalog := b.catalog[b.nextId := message],
          queue := b.queue + [Queued(b.nextId, message, 1, availableAt)]),
       Ok(b.nextId))
  }

  // Another delivery of the bytes of a known one.
  function DuplicateSection(b: Broker, source: DeliveryId, now: int): (Broker, Result<DeliveryId, BrokerError>) {
    if source !in b.catalog then (b, Err(UnknownDelivery)) else EnqueueSection(b, b.catalog[source], now)
  }

  // The message is enqueued and recorded, or the enqueue failed and nothing but the script moved.
  function ApplyPublish(b: Broker, message: Message, now: int, outcome: PublishOutcome)
    : (Broker, Result<PublishOutcome, BrokerError>)
  {
    var (after, enqueued) := EnqueueSection(b, message, now);
    match enqueued
    case Err(error) => (after, Err(error))
    case Ok(_) => (LogPublished(after, message), Ok(outcome))
  }

  function PublishSection(b: Broker, message: Message, now: int): (Broker, Result<PublishOutcome, BrokerError>) {
    if !b.connected then (b, Err(Disconnected))
    else if |message.payload| > b.limits.maxMessageBytes then (b, Err(PayloadTooLarge))
    else if b.faults.publish == [] then ApplyPublish(b, message, now, Confirmed)
    else
      var rest := b.(faults := b.faults.(publish := b.faults.publish[1..]));
      match b.faults.publish[0]
      case PublishError => (rest, Err(Injected))
      case PublishUnknown(false) => (rest, Ok(OutcomeUnknown))
      case PublishUnknown(true) => ApplyPublish(rest, message, now, OutcomeUnknown)
  }

  // ---------------------------------------------------------------- delivery

  function FirstReady(queue: seq<Queued>, now: int): (r: Option<nat>)
    ensures r.Some? ==> r.value < |queue| && queue[r.value].availableAt <= now
    ensures r.Some? ==> forall i :: 0 <= i < r.value ==> queue[i].availableAt > now
    ensures r.None? ==> forall i :: 0 <= i < |queue| ==> queue[i].availableAt > now
  {
    if queue == [] then None
    else if queue[0].availableAt <= now then Some(0)
    else
      match FirstReady(queue[1..], now)
      case None => None
      case Some(i) => Some(i + 1)
  }

  function Without(queue: seq<Queued>, i: nat): seq<Queued>
    requires i < |queue|
  {
    queue[..i] + queue[i + 1..]
  }

  function DequeueSection(b: Broker, now: int): (Broker, Result<Option<Queued>, BrokerError>) {
    if !b.connected then (b, Err(Disconnected))
    else if b.faults.receive > 0 then (b.(faults := b.faults.(receive := b.faults.receive - 1)), Err(Injected))
    else
      match FirstReady(b.queue, now)
      case None => (b, Ok(None))
      case Some(i) => (b.(queue := Without(b.queue, i), inFlight := b.inFlight + 1), Ok(Some(b.queue[i])))
  }

  // A dequeue takes the oldest entry of the queue that is ready, leaves the others in order, and
  // finds nothing exactly when nothing is ready.
  lemma DequeueTakesTheFirstReady(b: Broker, now: int)
    requires b.connected && b.faults.receive == 0
    ensures var (after, r) := DequeueSection(b, now);
            match r
            case Ok(Some(q)) =>
              && after.inFlight == b.inFlight + 1
              && exists i :: 0 <= i < |b.queue| && b.queue[i] == q && q.availableAt <= now
                             && (forall k :: 0 <= k < i ==> b.queue[k].availableAt > now)
                             && after.queue == b.queue[..i] + b.queue[i + 1..]
            case Ok(None) => after == b && forall k :: 0 <= k < |b.queue| ==> b.queue[k].availableAt > now
            case Err(_) => false
  {
    if FirstReady(b.queue, now).Some? {
      var i := FirstReady(b.queue, now).value;
      assert b.queue[i].availableAt <= now;
    }
  }

  // The same delivery, ready at once, one attempt later unless the counter is exhausted.
  function Redelivery(q: Queued, now: int): (r: Queued)
    ensures r == Queued(q.id, q.message, Min(q.attempt + 1, U32_LIMIT - 1), now)
  {
    q.(attempt := SaturatingInc32(q.attempt), availableAt := now)
  }

  // The operation a settlement asks for, and whether the script or the connection makes it fail.
  function OperationOf(event: AckEvent): AckOperation {
    match event
    case Acked => Ack
    case Nacked(_) => Nack
    case Failed(op) => op
  }

  predicate Refused(b: Broker, op: AckOperation) {
    !b.connected || (if op == Ack then b.faults.ack > 0 else b.faults.nack > 0)
  }

  function SpendFault(b: Broker, op: AckOperation): Broker {
    if !Refused(b, op) || !b.connected then b
    else if op == Ack then b.(faults := b.faults.(ack := b.faults.ack - 1))
    else b.(faults := b.faults.(nack := b.faults.nack - 1))
  }

  predicate Requeues(event: AckEvent) {
    event.Nacked? && (event.reason.Retryable? || event.reason.RetryAfter? || event.reason.Shutdown?)
  }

  predicate Terminal(event: AckEvent) {
    event.Nacked? && (event.reason.Permanent? || event.reason.ConsumerRejected?)
  }

  // Settles an owned delivery. A failed settlement requeues it; nothing checks the capacity again.
  function CompleteSection(b: Broker, q: Queued, event: AckEvent, now: int): (Broker, Result<(), BrokerError>) {
    var op := OperationOf(event);
    var settled := SpendFault(b, op).(inFlight := Monus(b.inFlight, 1));
    if Refused(b, op) then
      var logged := LogAcknowledgement(settled, AckRecord(q.id, q.attempt, Failed(op)));
      (logged.(queue := logged.queue + [Redelivery(q, now)]), Err(if b.connected then Injected else Disconnected))
    else
      var record := AckRecord(q.id, q.attempt, event);
      var logged := LogAcknowledgement(settled, record);
      if Requeues(event) then (logged.(queue := logged.queue + [Redelivery(q, now)]), Ok(()))
      else if Terminal(event) then (LogTerminal(logged, record), Ok(()))
      else (logged, Ok(()))
  }

  function HeartbeatSection(b: Broker, q: Queued): (Broker, Result<(), BrokerError>) {
    var failed := !b.connected || b.faults.heartbeat > 0;
    var spent := if b.connected && b.faults.heartbeat > 0
                 then b.(faults := b.faults.(heartbeat := b.faults.heartbeat - 1)) else b;
    (LogHeartbeat(spent, HeartbeatRecord(q.id, q.attempt, !failed)),
     if failed then Err(if b.connected then Injected else Disconnected) else Ok(()))
  }

  // A delivery dropped without a settlement.
  function AbandonSection(b: Broker, q: Queued, now: int): Broker {
    var settled := b.(inFlight := Monus(b.inFlight, 1));
    var logged := LogAcknowledgement(settled, AckRecord(q.id, q.attempt, Nacked(Shutdown)));
    logged.(queue := logged.queue + [Redelivery(q, now)])
  }

  // ---------------------------------------------------------------- operations, case by case

  // A message is admitted exactly within all four bounds, under the next identity, at the end of the
  // queue, on its first attempt and in the catalog; otherwise nothing changes.
  lemma EnqueuesExactly(b: Broker, message: Message, availableAt: int)
    ensures var (after, r) := EnqueueSection(b, message, availableAt);
            && (r.Ok? <==> |message.payload| <= b.limits.maxMessageBytes && |b.catalog| < b.limits.maxCatalog
                           && |b.queue| + b.inFlight < b.limits.maxPending && b.nextId < U64_LIMIT - 1)
            && (r == Err(PayloadTooLarge) <==> |message.payload| > b.limits.maxMessageBytes)
            && (r.Err? ==> after == b)
            && (r.Ok? ==> r.value == b.nextId && after.nextId == b.nextId + 1
                          && after.catalog == b.catalog[r.value := message] && |after.queue| == |b.queue| + 1
                          && after.queue[|b.queue|] == Queued(r.value, message, 1, availableAt)
                          && after.queue[..|b.queue|] == b.queue
                          && after == b.(nextId := after.nextId, catalog := after.catalog, queue := after.queue))
  {
  }

  // Duplicating a known delivery enqueues its bytes under a new identity.
  lemma DuplicatesExactly(b: Broker, source: DeliveryId, now: int)
    ensures var (after, r) := DuplicateSection(b, source, now);
            && (r == Err(UnknownDelivery) <==> source !in b.catalog)
            && (r.Err? ==> after == b)
            && (r.Ok? ==> after.queue != []
                          && after.queue[|after.queue| - 1] == Queued(b.nextId, b.catalog[source], 1, now)
                          && after.catalog[b.nextId] == b.catalog[source])
  {
  }

  // Exactly one scripted fault is used up by a publish that reaches the script. It is answered with
  // an error, or with an unknown outcome that did or did not take effect; without a fault the publish
  // is confirmed. It took effect exactly when the message is enqueued and counted as published.
  lemma PublishesExactly(b: Broker, message: Message, now: int)
    ensures var (after, r) := PublishSection(b, message, now);
            var reaches := b.connected && |message.payload| <= b.limits.maxMessageBytes;
            var fault := if reaches && b.faults.publish != [] then Some(b.faults.publish[0]) else None;
            var applies := reaches && (fault == None || fault == Some(PublishUnknown(true)));
            && (!b.connected <==> r == Err(Disconnected))
            && (b.connected && !reaches ==> r == Err(PayloadTooLarge))
            && (fault == Some(PublishError) ==> r == Err(Injected))
            && (fault == Some(PublishUnknown(false)) ==> r == Ok(OutcomeUnknown))
            && (applies && r.Ok? ==> r.value == if fault == None then Confirmed else OutcomeUnknown)
            && after.faults == (if fault == None then b.faults else b.faults.(publish := b.faults.publish[1..]))
            && (if applies && r.Ok? then
                  && after.queue == b.queue + [Queued(b.nextId, message, 1, now)]
                  && after.log.publishedCount == b.log.publishedCount + 1
                else after.queue == b.queue && after.log == b.log && after.catalog == b.catalog)
  {
    hide PushBounded;
  }

  // A heartbeat moves nothing but its own record and script: it renews exactly when the broker is
  // connected and no failure is scripted.
  lemma HeartbeatsExactly(b: Broker, q: Queued)
    ensures var (after, r) := HeartbeatSection(b, q);
            && (r.Ok? <==> b.connected && b.faults.heartbeat == 0)
            && (r.Err? ==> r.error == if b.connected then Injected else Disconnected)
            && after.log.heartbeatCount == b.log.heartbeatCount + 1
            && (b.limits.maxAcknowledgements > 0 ==>
                  && after.log.heartbeats != []
                  && after.log.heartbeats[|after.log.heartbeats| - 1] == HeartbeatRecord(q.id, q.attempt, r.Ok?))
            && after == b.(faults := b.faults.(heartbeat := after.faults.heartbeat),
                           log := b.log.(heartbeats := after.log.heartbeats,
                                         heartbeatCount := after.log.heartbeatCount))
            && after.faults.heartbeat == if r.Err? && b.connected then b.faults.heartbeat - 1 else b.faults.heartbeat
  {
  }

  // ---------------------------------------------------------------- delivery metadata

  function DeliveryIdKey(): seq<byte> {
    Ascii("plenora.testkit.delivery_id")
  }

  lemma DeliveryIdKeyCharacters()
    ensures |DeliveryIdKey()| == 27 && DeliveryIdKey()[7] == DeliveryIdKey()[15] == 46
    ensures forall i :: 0 <= i < 27 && i != 7 && i != 15 ==> Lower(DeliveryIdKey()[i]) || DeliveryIdKey()[i] == 95
  {
    hide Metadata.KeyError;
  }

  lemma DeliveryIdKeyIsValid()
    ensures Metadata.KeyError(DeliveryIdKey()) == None
  {
    DeliveryIdKeyCharacters();
    hide DeliveryIdKey, Metadata.KeyError;
    Metadata.ThreeSegmentsAreValid(DeliveryIdKey(), 7, 15);
  }

  // Building the delivery's own metadata cannot fail, so a dequeued delivery always reaches its owner.
  lemma DeliveryMetadataFits(id: DeliveryId)
    requires id < U64_LIMIT
    ensures Metadata.Inserted(map[], DeliveryIdKey(), Decimal(id)).Ok?
  {
    DeliveryIdKeyIsValid();
    assert PowerOfTen(5) == 100000;
    assert PowerOfTen(10) == 10000000000;
    assert PowerOfTen(15) == 1000000000000000;
    assert PowerOfTen(20) == 100000000000000000000;
    DecimalLength(id, 20);
  }

  // ---------------------------------------------------------------- the object

  class InMemoryBroker {
    var limits: Limits
    var connected: bool
    var nextId: nat
    var queue: seq<Queued>
    var inFlight: nat
    var catalog: map<DeliveryId, Message>
    var log: Log
    var faults: Faults

    function State(): Broker
      reads this
    {
      Broker(limits, connected, nextId, queue, inFlight, catalog, log, faults)
    }

    constructor (limits: Limits)
      ensures State() == EmptyBroker(limits)
    {
      this.limits := limits;
      connected, nextId, queue, inFlight, catalog := true, 1, [], 0, map[];
      log, faults := Log([], 0, [], 0, [], 0, [], 0), Faults([], 0, 0, 0, 0);
    }

    method Enqueue(message: Message, availableAt: int) returns (r: Result<DeliveryId, BrokerError>)
      modifies this
      ensures (State(), r) == EnqueueSection(old(State()), message, availableAt)
    {
      if |message.payload| > limits.maxMessageBytes { return Err(PayloadTooLarge); }
      if |queue| + inFlight >= limits.maxPending { return Err(CapacityExceeded); }
      if |catalog| >= limits.maxCatalog { return Err(CapacityExceeded); }
      var id := nextId;
      if nextId + 1 >= U64_LIMIT { return Err(IdentifierExhausted); }
      nextId := nextId + 1;
      catalog := catalog[id := message];
      queue := queue + [Queued(id, message, 1, availableAt)];
      return Ok(id);
    }

    method Publish(message: Message, now: int) returns (r: Result<PublishOutcome, BrokerError>)
      modifies this
      ensures (State(), r) == PublishSection(old(State()), message, now)
    {
      if !connected { return Err(Disconnected); }
      if |message.payload| > limits.maxMessageBytes { return Err(PayloadTooLarge); }
      var outcome := Confirmed;
      if faults.publish != [] {
        var fault := faults.publish[0];
        faults := faults.(publish := faults.publish[1..]);
        if fault == PublishError { return Err(Injected); }
        if fault == PublishUnknown(false) { return Ok(OutcomeUnknown); }
        outcome := OutcomeUnknown;
      }
      var enqueued := Enqueue(message, now);
      if enqueued.Err? { return Err(enqueued.error); }
      RecordPublished(message);
      return Ok(outcome);
    }

    method RecordPublished(message: Message)
      modifies this`log
      ensures State() == LogPublished(old(State()), message)
    {
      log := log.(publishedCount := log.publishedCount + 1,
                  published := PushBounded(log.published, message, limits.maxPublished));
    }

    method RecordAcknowledgement(record: AckRecord)
      modifies this`log
      ensures State() == LogAcknowledgement(old(State()), record)
    {
      log := log.(acknowledgementCount := log.acknowledgementCount + 1,
                  acknowledgements := PushBounded(log.acknowledgements, record, limits.maxAcknowledgements));
    }

    method RecordHeartbeat(record: HeartbeatRecord)
      modifies this`log
      ensures State() == LogHeartbeat(old(State()), record)
    {
      log := log.(heartbeatCount := log.heartbeatCount + 1,
                  heartbeats := PushBounded(log.heartbeats, record, limits.maxAcknowledgements));
    }

    method RecordTerminal(record: AckRecord)
      modifies this`log
      ensures State() == LogTerminal(old(State()), record)
    {
      log := log.(terminalCount := log.terminalCount + 1,
                  terminal := PushBounded(log.terminal, record, limits.maxTerminal));
    }

    // The first ready delivery leaves the queue and belongs to the caller.
    method Dequeue(now: int) returns (r: Result<Option<Queued>, BrokerError>)
      modifies this
      ensures (State(), r) == DequeueSection(old(State()), now)
    {
      if !connected { return Err(Disconnected); }
      if faults.receive > 0 {
        faults := faults.(receive := faults.receive - 1);
        return Err(Injected);
      }
      var i := 0;
      while i < |queue| && queue[i].availableAt > now
        invariant i <= |queue| && forall k :: 0 <= k < i ==> queue[k].availableAt > now
      {
        i := i + 1;
      }
      if i == |queue| { return Ok(None); }
      var q := queue[i];
      queue := queue[..i] + queue[i + 1..];
      inFlight := inFlight + 1;
      return Ok(Some(q));
    }

    // Settles a delivery owned by the caller.
    method Complete(q: Queued, event: AckEvent, now: int) returns (r: Result<(), BrokerError>)
      modifies this
      ensures (State(), r) == CompleteSection(old(State()), q, event, now)
    {
      var op := OperationOf(event);
      var failing := !connected;
      var error := Disconnected;
      if connected && op == Ack && faults.ack > 0 {
        faults := faults.(ack := faults.ack - 1);
        failing, error := true, Injected;
      } else if connected && op == Nack && faults.nack > 0 {
        faults := faults.(nack := faults.nack - 1);
        failing, error := true, Injected;
      }
      inFlight := Monus(inFlight, 1);
      if failing {
        RecordAcknowledgement(AckRecord(q.id, q.attempt, Failed(op)));
        queue := queue + [Redelivery(q, now)];
        return Err(error);
      }
      var record := AckRecord(q.id, q.attempt, event);
      RecordAcknowledgement(record);
      if Requeues(event) {
        queue := queue + [Redelivery(q, now)];
      } else if Terminal(event) {
        RecordTerminal(record);
      }
      return Ok(());
    }

    method Heartbeat(q: Queued) returns (r: Result<(), BrokerError>)
      modifies this
      ensures (State(), r) == HeartbeatSection(old(State()), q)
    {
      r := Ok(());
      if !connected {
        r := Err(Disconnected);
      } else if faults.heartbeat > 0 {
        faults := faults.(heartbeat := faults.heartbeat - 1);
        r := Err(Injected);
      }
      RecordHeartbeat(HeartbeatRecord(q.id, q.attempt, r.Ok?));
    }

    method Abandon(q: Queued, now: int)
      modifies this
      ensures State() == AbandonSection(old(State()), q, now)
    {
      inFlight := Monus(inFlight, 1);
      RecordAcknowledgement(AckRecord(q.id, q.attempt, Nacked(Shutdown)));
      queue := queue + [Redelivery(q, now)];
    }
  }
}
