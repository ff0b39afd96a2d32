// Running a broker delivery through a handler: decode, combine metadata, execute under heartbeats,
// and settle. Written once as stages for the interleaved model and once as the sequential run.
module DeliveryBridge {
  import opened Prelude
  import opened Text
  import opened FakeBroker
  import Metadata

  // What the worker decided about the delivery.
  datatype Disposition =
    | Completed
    | RetryAfter(delay: nat)
    | DoNotRetry
    | DeadLetter
    | ShuttingDown

  datatype SinkAnswer = SinkConfirmed | SinkUnknown | SinkError

  // Why a run ended.
  datatype Cause =
    | HandlerCompleted
    | HandlerRetry
    | HandlerDeclined
    | HandlerShutdown
    | DecodeRejected
    | MetadataRejected
    | LeaseLost
    | DeadLettered
    | NoSink
    | SinkNotConfirmed
    | FutureDropped

  // A heartbeat policy (the number of consecutive failures that ends the lease) and whether a
  // dead-letter sink is configured.
  datatype Config = Config(heartbeat: Option<nat>, hasSink: bool)

  predicate ConfigOk(config: Config) {
    config.heartbeat.Some? ==> 0 < config.heartbeat.value < U32_LIMIT
  }

  // What the run does next with its delivery.
  datatype Stage =
    | Fresh                                        // not decoded yet
    | Running(failures: nat)                       // the handler runs
    | Publishing                                   // the dead letter is being published
    | Settling(event: AckEvent, cause: Cause)      // about to issue its one settlement
    | Abandoning(cause: Cause)                     // about to drop the delivery

  // The delivery's own entry joined to the message headers: the handler's metadata, if it fits.
  ghost predicate MetadataFits(q: Queued) {
    Metadata.Inserted(q.message.headers, DeliveryIdKey(), Decimal(q.id)).Ok?
  }

  ghost function AfterDecode(q: Queued, decodes: bool): Stage {
    if !decodes then Settling(Nacked(ConsumerRejected), DecodeRejected)
    else if !MetadataFits(q) then Settling(Nacked(ConsumerRejected), MetadataRejected)
    else Running(0)
  }

  function AfterHeartbeat(config: Config, failures: nat, renewed: bool): Stage
    requires config.heartbeat.Some?
  {
    if renewed then Running(0)
    else if SaturatingInc32(failures) >= config.heartbeat.value then Settling(Nacked(Retryable), LeaseLost)
    else Running(SaturatingInc32(failures))
  }

  function AfterHandler(config: Config, d: Disposition): Stage {
    match d
    case Completed => Settling(Acked, HandlerCompleted)
    case RetryAfter(delay) => Settling(Nacked(NackReason.RetryAfter(delay)), HandlerRetry)
    case DoNotRetry => Settling(Nacked(Permanent), HandlerDeclined)
    case ShuttingDown => Settling(Nacked(Shutdown), HandlerShutdown)
    case DeadLetter => if config.hasSink then Publishing else Abandoning(NoSink)
  }

  function AfterSink(answer: SinkAnswer): Stage {
    match answer
    case SinkConfirmed => Settling(Nacked(Permanent), DeadLettered)
    case SinkUnknown => Abandoning(SinkNotConfirmed)
    case SinkError => Abandoning(SinkNotConfirmed)
  }

  // The endings after which the delivery must not come back.
  predicate ForGood(cause: Cause) {
    || cause == HandlerCompleted || cause == HandlerDeclined || cause == DecodeRejected
    || cause == MetadataRejected || cause == DeadLettered
  }

  // A settlement asks the broker to forget the delivery exactly for those causes.
  ghost predicate StageOk(stage: Stage) {
    match stage
    case Settling(event, cause) => !event.Failed? && (event.Acked? || Terminal(event) <==> ForGood(cause))
    case Abandoning(cause) => !ForGood(cause)
    case _ => true
  }

  // ---------------------------------------------------------------- the sequential run

  // One wake-up of the waiting loop: the handler is done, or a heartbeat is due. When the script of
  // wake-ups ends, the run is dropped where it waits.
  datatype Wake = Done(disposition: Disposition) | HeartbeatDue

  datatype Watched = Finished(disposition: Disposition) | Lost | Cut

  // What watching the handler comes to, with every heartbeat sent to the broker on the way.
  function Watch(b: Broker, q: Queued, max: Option<nat>, failures: nat, wakes: seq<Wake>): (Broker, Watched)
    decreases |wakes|
  {
    if wakes == [] then (b, Cut)
    else
      match wakes[0]
      case Done(d) => (b, Finished(d))
      case HeartbeatDue =>
        if max.None? then Watch(b, q, max, failures, wakes[1..])
        else
          var (after, renewed) := HeartbeatSection(b, q);
          if renewed.Ok? then Watch(after, q, max, 0, wakes[1..])
          else if SaturatingInc32(failures) >= max.value then (after, Lost)
          else Watch(after, q, max, SaturatingInc32(failures), wakes[1..])
  }

  // One wake-up of the loop.
  lemma WatchNext(b: Broker, q: Queued, max: Option<nat>, failures: nat, wakes: seq<Wake>)
    requires wakes != []
    ensures wakes[0].Done? ==> Watch(b, q, max, failures, wakes) == (b, Finished(wakes[0].disposition))
    ensures wakes[0].HeartbeatDue? && max.None? ==>
              Watch(b, q, max, failures, wakes) == Watch(b, q, max, failures, wakes[1..])
    ensures wakes[0].HeartbeatDue? && max.Some? ==>
              var (after, renewed) := HeartbeatSection(b, q);
              Watch(b, q, max, failures, wakes) ==
              if renewed.Ok? then Watch(after, q, max, 0, wakes[1..])
              else if SaturatingInc32(failures) >= max.value then (after, Lost)
              else Watch(after, q, max, SaturatingInc32(failures), wakes[1..])
  {
    hide HeartbeatSection;
  }

  lemma WatchEnds(b: Broker, q: Queued, max: Option<nat>, failures: nat)
    ensures Watch(b, q, max, failures, []) == (b, Cut)
  {
  }

  // Heartbeats due before the handler is done.
  function LeadingBeats(wakes: seq<Wake>): (n: nat)
    ensures n <= |wakes| && (n < |wakes| ==> wakes[n].Done?)
    ensures forall i :: 0 <= i < n ==> wakes[i].HeartbeatDue?
  {
    if wakes == [] || wakes[0].Done? then 0 else 1 + LeadingBeats(wakes[1..])
  }

  // How many of the next n heartbeats fail: all while disconnected, else those still scripted.
  function FailingBeats(b: Broker, n: nat): nat {
    if b.connected then Min(n, b.faults.heartbeat) else n
  }

  // A heartbeat fails exactly while disconnected or scripted to fail, and uses up one of those.
  lemma BeatFails(b: Broker, q: Queued, n: nat)
    ensures var (after, renewed) := HeartbeatSection(b, q);
            && (renewed.Ok? <==> b.connected && b.faults.heartbeat == 0)
            && (renewed.Ok? ==> FailingBeats(b, n) == 0 && FailingBeats(after, n) == 0)
            && (renewed.Err? ==> FailingBeats(b, n + 1) == 1 + FailingBeats(after, n))
  {
  }

  // The lease is lost exactly when the failures in a row, counted from those already seen, reach the
  // limit before the handler is done.
  lemma {:induction false} WatchInClosedForm(b: Broker, q: Queued, max: Option<nat>, failures: nat, wakes: seq<Wake>)
    requires max.Some? ==> failures < max.value < U32_LIMIT
    ensures var n := LeadingBeats(wakes);
            Watch(b, q, max, failures, wakes).1 ==
            if max.Some? && failures + FailingBeats(b, n) >= max.value then Lost
            else if n < |wakes| then Finished(wakes[n].disposition)
            else Cut
    decreases |wakes|
  {
    hide HeartbeatSection, FailingBeats, Watch;
    NoBeatFails(b);
    if wakes == [] {
      WatchEnds(b, q, max, failures);
    } else {
      WatchNext(b, q, max, failures, wakes);
      if wakes[0].HeartbeatDue? {
        var n := LeadingBeats(wakes[1..]);
        assert LeadingBeats(wakes) == n + 1;
        if max.None? {
          WatchInClosedForm(b, q, max, failures, wakes[1..]);
        } else {
          var (after, renewed) := HeartbeatSection(b, q);
          BeatFails(b, q, n);
          BeatFails(b, q, n + 1);
          if renewed.Ok? {
            WatchInClosedForm(after, q, max, 0, wakes[1..]);
          } else if failures + 1 < max.value {
            WatchInClosedForm(after, q, max, failures + 1, wakes[1..]);
          }
        }
      }
    }
  }

  lemma NoBeatFails(b: Broker)
    ensures FailingBeats(b, 0) == 0
  {
  }

  method ExecuteWithHeartbeat(broker: InMemoryBroker, q: Queued, max: Option<nat>, wakes: seq<Wake>)
    returns (r: Watched)
    requires max.Some? ==> 0 < max.value < U32_LIMIT
    modifies broker
    ensures (broker.State(), r) == Watch(old(broker.State()), q, max, 0, wakes)
    ensures r == Lost <==> max.Some? && FailingBeats(old(broker.State()), LeadingBeats(wakes)) >= max.value
    ensures r != Lost ==> r == var n := LeadingBeats(wakes); if n < |wakes| then Finished(wakes[n].disposition) else Cut
  {
    hide HeartbeatSection, FailingBeats, LeadingBeats, Watch;
    WatchInClosedForm(broker.State(), q, max, 0, wakes);
    var failures: nat := 0;
    var n := 0;
    while n < |wakes|
      invariant n <= |wakes|
      invariant Watch(broker.State(), q, max, failures, wakes[n..]) == Watch(old(broker.State()), q, max, 0, wakes)
    {
      assert wakes[n..][0] == wakes[n] && wakes[n..][1..] == wakes[n + 1..];
      WatchNext(broker.State(), q, max, failures, wakes[n..]);
      match wakes[n] {
        case Done(d) => return Finished(d);
        case HeartbeatDue =>
          if max.Some? {
            var renewed := broker.Heartbeat(q);
            if renewed.Ok? {
              failures := 0;
            } else {
              failures := SaturatingInc32(failures);
              if failures >= max.value { return Lost; }
            }
          }
      }
      n := n + 1;
    }
    assert wakes[n..] == [];
    WatchEnds(broker.State(), q, max, failures);
    return Cut;
  }

  // Watching moves nothing but histories and the heartbeat script.
  lemma {:induction false} WatchIsQuiet(b: Broker, q: Queued, max: Option<nat>, failures: nat, wakes: seq<Wake>)
    ensures var after := Watch(b, q, max, failures, wakes).0;
            && after.queue == b.queue && after.inFlight == b.inFlight && after.catalog == b.catalog
            && after.nextId == b.nextId && after.limits == b.limits && after.connected == b.connected
            && after.faults == b.faults.(heartbeat := after.faults.heartbeat)
            && after.log == b.log.(heartbeats := after.log.heartbeats, heartbeatCount := after.log.heartbeatCount)
    decreases |wakes|
  {
    if wakes != [] && wakes[0].HeartbeatDue? {
      if max.None? {
        WatchIsQuiet(b, q, max, failures, wakes[1..]);
      } else {
        var (after, renewed) := HeartbeatSection(b, q);
        if renewed.Ok? {
          WatchIsQuiet(after, q, max, 0, wakes[1..]);
        } else if SaturatingInc32(failures) < max.value {
          WatchIsQuiet(after, q, max, SaturatingInc32(failures), wakes[1..]);
        }
      }
    }
  }

  // How a whole sequential run ends: by the settlement it issued and whether the broker took it, or
  // by dropping the delivery.
  datatype Ending = Settled(event: AckEvent, cause: Cause, accepted: bool) | Abandoned(cause: Cause)

  // What a run decides once the handler was watched.
  function AfterWatch(config: Config, watched: Watched, answer: SinkAnswer): Stage {
    match watched
    case Cut => Abandoning(FutureDropped)
    case Lost => Settling(Nacked(Retryable), LeaseLost)
    case Finished(d) => if d == DeadLetter && config.hasSink then AfterSink(answer) else AfterHandler(config, d)
  }

  // The whole run as one decision about the delivery, and the broker it is applied to.
  ghost function Verdict(b: Broker, q: Queued, config: Config, decodes: bool, wakes: seq<Wake>, answer: SinkAnswer)
    : (Broker, Stage)
  {
    if AfterDecode(q, decodes) != Running(0) then (b, AfterDecode(q, decodes))
    else
      var (watched, w) := Watch(b, q, config.heartbeat, 0, wakes);
      (watched, AfterWatch(config, w, answer))
  }

  method CombinedMetadata(q: Queued) returns (fits: bool)
    requires Metadata.Valid(q.message.headers)
    ensures fits == MetadataFits(q)
  {
    hide Metadata.Valid, DeliveryIdKey, Decimal;
    var metadata := new Metadata.MessageMetadata.From(q.message.headers);
    Metadata.InsertAcceptsExactly(q.message.headers, DeliveryIdKey(), Decimal(q.id));
    var inserted := metadata.Insert(DeliveryIdKey(), Decimal(q.id));
    return inserted.Ok?;
  }

  // What the broker's newest acknowledgement record says about this delivery, if it keeps any.
  ghost predicate NewestRecord(b: Broker, q: Queued, event: AckEvent) {
    b.limits.maxAcknowledgements > 0 ==>
      b.log.acknowledgements != [] &&
      b.log.acknowledgements[|b.log.acknowledgements| - 1] == AckRecord(q.id, q.attempt, event)
  }

  // What settling an owned delivery does to the broker: it is recorded once, as what it came to, and
  // the delivery goes back to the end of the queue unless it was accepted and final.
  ghost predicate Disposed(before: Broker, after: Broker, q: Queued, now: int, forGood: bool, event: AckEvent) {
    && after.inFlight == Monus(before.inFlight, 1)
    && after.log.acknowledgementCount == before.log.acknowledgementCount + 1
    && NewestRecord(after, q, event)
    && after.queue == (if forGood then before.queue else before.queue + [Redelivery(q, now)])
    && after.limits == before.limits && after.connected == before.connected
    && after.catalog == before.catalog && after.nextId == before.nextId
  }

  // A settlement goes through exactly when the broker is connected and no failure of that operation
  // is scripted.
  ghost predicate Accepts(b: Broker, event: AckEvent) {
    b.connected && (if event == Acked then b.faults.ack == 0 else b.faults.nack == 0)
  }

  function FailureOf(event: AckEvent): AckEvent {
    Failed(if event == Acked then Ack else Nack)
  }

  lemma PushedIsNewest(entries: seq<AckRecord>, entry: AckRecord, capacity: nat)
    requires capacity > 0
    ensures var r := PushBounded(entries, entry, capacity); r != [] && r[|r| - 1] == entry
  {
  }

  lemma RecordedIsNewest(b: Broker, q: Queued, event: AckEvent)
    ensures NewestRecord(LogAcknowledgement(b, AckRecord(q.id, q.attempt, event)), q, event)
  {
    hide PushBounded;
    if b.limits.maxAcknowledgements > 0 {
      PushedIsNewest(b.log.acknowledgements, AckRecord(q.id, q.attempt, event), b.limits.maxAcknowledgements);
    }
  }

  lemma CompleteDisposes(b: Broker, q: Queued, event: AckEvent, now: int)
    requires !event.Failed?
    ensures var (after, result) := CompleteSection(b, q, event, now);
            && (result.Ok? <==> Accepts(b, event)) && (result.Ok? <==> !Refused(b, OperationOf(event)))
            && Disposed(b, after, q, now, result.Ok? && (event.Acked? || Terminal(event)),
                        if result.Ok? then event else FailureOf(event))
  {
    hide PushBounded, Redelivery;
    var settled := SpendFault(b, OperationOf(event)).(inFlight := Monus(b.inFlight, 1));
    RecordedIsNewest(settled, q, event);
    RecordedIsNewest(settled, q, FailureOf(event));
  }

  // The one settlement a run issues.
  method Settle(broker: InMemoryBroker, q: Queued, event: AckEvent, cause: Cause, now: int) returns (r: Ending)
    requires StageOk(Settling(event, cause))
    modifies broker
    ensures r == Settled(event, cause, Accepts(old(broker.State()), event))
    ensures Disposed(old(broker.State()), broker.State(), q, now, GoneForGood(r), Recorded(r))
  {
    CompleteDisposes(broker.State(), q, event, now);
    hide CompleteSection, Disposed, Refused, Accepts;
    var result := broker.Complete(q, event, now);
    return Settled(event, cause, result.Ok?);
  }

  method Abandon(broker: InMemoryBroker, q: Queued, cause: Cause, now: int) returns (r: Ending)
    modifies broker
    ensures r == Abandoned(cause)
    ensures Disposed(old(broker.State()), broker.State(), q, now, GoneForGood(r), Recorded(r))
  {
    broker.Abandon(q, now);
    return Abandoned(cause);
  }

  // A decision about the delivery, carried out on broker b, ends the run as r.
  ghost predicate Ends(b: Broker, stage: Stage, r: Ending) {
    match stage
    case Settling(event, cause) => r == Settled(event, cause, Accepts(b, event))
    case Abandoning(cause) => r == Abandoned(cause)
    case _ => false
  }

  predicate GoneForGood(r: Ending) {
    r.Settled? && r.accepted && ForGood(r.cause)
  }

  // What the record of an ending says: the settlement that went through, the operation that did not,
  // or the drop of the delivery.
  function Recorded(r: Ending): AckEvent {
    match r
    case Settled(event, _, accepted) => if accepted then event else FailureOf(event)
    case Abandoned(_) => Nacked(Shutdown)
  }

  // The ending that the worker's decision calls for.
  ghost predicate EndsByDecision(config: Config, d: Disposition, answer: SinkAnswer, r: Ending) {
    match d
    case Completed => r.Settled? && r.event == Acked && r.cause == HandlerCompleted
    case RetryAfter(delay) => r.Settled? && r.event == Nacked(NackReason.RetryAfter(delay)) && r.cause == HandlerRetry
    case DoNotRetry => r.Settled? && r.event == Nacked(Permanent) && r.cause == HandlerDeclined
    case ShuttingDown => r.Settled? && r.event == Nacked(Shutdown) && r.cause == HandlerShutdown
    case DeadLetter =>
      if !config.hasSink then r == Abandoned(NoSink)
      else if answer == SinkConfirmed then r.Settled? && r.event == Nacked(Permanent) && r.cause == DeadLettered
      else r == Abandoned(SinkNotConfirmed)
  }

  method PublishDeadLetter(broker: InMemoryBroker, q: Queued, config: Config, answer: SinkAnswer, now: int)
    returns (r: Ending)
    modifies broker
    ensures Ends(old(broker.State()), AfterWatch(config, Finished(DeadLetter), answer), r)
    ensures EndsByDecision(config, DeadLetter, answer, r)
    ensures Disposed(old(broker.State()), broker.State(), q, now, GoneForGood(r), Recorded(r))
  {
    hide Disposed, Refused, Accepts;
    if !config.hasSink {
      r := Abandon(broker, q, NoSink, now);
      return;
    }
    match answer
    case SinkConfirmed => r := Settle(broker, q, Nacked(Permanent), DeadLettered, now);
    case SinkUnknown => r := Abandon(broker, q, SinkNotConfirmed, now);
    case SinkError => r := Abandon(broker, q, SinkNotConfirmed, now);
  }

  method SettleDelivery(broker: InMemoryBroker, q: Queued, config: Config, d: Disposition, answer: SinkAnswer, now: int)
    returns (r: Ending)
    modifies broker
    ensures Ends(old(broker.State()), AfterWatch(config, Finished(d), answer), r)
    // the settlement is the one the decision calls for, and goes through exactly when it can
    ensures EndsByDecision(config, d, answer, r)
    ensures r.Settled? ==> r.accepted == Accepts(old(broker.State()), r.event)
    ensures Disposed(old(broker.State()), broker.State(), q, now, GoneForGood(r), Recorded(r))
  {
    hide Disposed, Refused, Accepts;
    match d
    case Completed => r := Settle(broker, q, Acked, HandlerCompleted, now);
    case RetryAfter(delay) => r := Settle(broker, q, Nacked(NackReason.RetryAfter(delay)), HandlerRetry, now);
    case DoNotRetry => r := Settle(broker, q, Nacked(Permanent), HandlerDeclined, now);
    case ShuttingDown => r := Settle(broker, q, Nacked(Shutdown), HandlerShutdown, now);
    case DeadLetter => r := PublishDeadLetter(broker, q, config, answer, now);
  }

  lemma DisposedAfterWatch(b: Broker, q: Queued, max: Option<nat>, wakes: seq<Wake>, after: Broker, now: int,
                           forGood: bool, event: AckEvent)
    requires Disposed(Watch(b, q, max, 0, wakes).0, after, q, now, forGood, event)
    ensures Disposed(b, after, q, now, forGood, event)
    ensures forall e :: Accepts(Watch(b, q, max, 0, wakes).0, e) <==> Accepts(b, e)
  {
    WatchIsQuiet(b, q, max, 0, wakes);
  }

  // Executes one delivery, alone on the broker. The delivery leaves for good exactly when the run
  // ended for one of the five final causes and the broker took its settlement; in every other case
  // it is back at the end of the queue with its attempt counted up. One record says so.
  method Execute(broker: InMemoryBroker, q: Queued, config: Config, decodes: bool, wakes: seq<Wake>,
                 answer: SinkAnswer, now: int)
    returns (r: Ending)
    requires ConfigOk(config) && Metadata.Valid(q.message.headers)
    modifies broker
    ensures var (b, stage) := Verdict(old(broker.State()), q, config, decodes, wakes, answer); Ends(b, stage, r)
    // what is rejected unseen, what a lost lease comes to, and otherwise what the worker decided
    ensures !decodes ==> r.Settled? && r.event == Nacked(ConsumerRejected) && r.cause == DecodeRejected
    ensures decodes && !MetadataFits(q) ==>
      r.Settled? && r.event == Nacked(ConsumerRejected) && r.cause == MetadataRejected
    ensures decodes && MetadataFits(q) ==>
      var n := LeadingBeats(wakes);
      if config.heartbeat.Some? && FailingBeats(old(broker.State()), n) >= config.heartbeat.value
      then r.Settled? && r.event == Nacked(Retryable) && r.cause == LeaseLost
      else if n == |wakes| then r == Abandoned(FutureDropped)
      else EndsByDecision(config, wakes[n].disposition, answer, r)
    ensures r.Settled? ==> r.accepted == Accepts(old(broker.State()), r.event)
    ensures Disposed(old(broker.State()), broker.State(), q, now, GoneForGood(r), Recorded(r))
  {
    hide MetadataFits, Watch, Refused, Disposed, Accepts, LeadingBeats, FailingBeats;
    if !decodes {
      r := Settle(broker, q, Nacked(ConsumerRejected), DecodeRejected, now);
      return;
    }
    var fits := CombinedMetadata(q);
    if !fits {
      r := Settle(broker, q, Nacked(ConsumerRejected), MetadataRejected, now);
      return;
    }
    var watched := ExecuteWithHeartbeat(broker, q, config.heartbeat, wakes);
    match watched {
      case Cut => r := Abandon(broker, q, FutureDropped, now);
      case Lost => r := Settle(broker, q, Nacked(Retryable), LeaseLost, now);
      case Finished(d) => r := SettleDelivery(broker, q, config, d, answer, now);
    }
    DisposedAfterWatch(old(broker.State()), q, config.heartbeat, wakes, broker.State(), now,
                       GoneForGood(r), Recorded(r));
  }
}
