// Any number of bridge runs on one broker, interleaved with each other, with every other client of
// the broker, and with runs being dropped wherever they wait.
module BridgeRuns {
  import opened Prelude
  import opened FakeBroker
  import opened BrokerWorld
  import opened DeliveryBridge

  datatype Run = Run(config: Config, stage: Stage)

  datatype Sys = Sys(w: World, runs: map<nat, Run>)

  datatype Label =
    | Client(action: Action)
    | Attach(handle: nat, config: Config)
    | Decode(handle: nat, decodes: bool)
    | Beat(handle: nat)
    | Handler(handle: nat, disposition: Disposition)
    | Sink(handle: nat, answer: SinkAnswer)
    | Finish(handle: nat, now: int)
    | Cancel(handle: nat, now: int)

  // A run has ended: the delivery it owned, why, the settlement it issued and whether the broker
  // took it.
  datatype Event = Ended(handle: nat, q: Queued, cause: Cause, settlement: Option<AckEvent>, accepted: bool, now: int)

  predicate Targets(a: Action, h: nat) {
    (a.Complete? || a.Renew? || a.Drop?) && a.handle == h
  }

  ghost predicate Enabled(s: Sys, l: Label) {
    match l
    case Client(a) => Possible(s.w, a) && forall h <- s.runs :: !Targets(a, h)
    case Attach(h, config) => h in s.w.held && h !in s.runs && ConfigOk(config)
    case Decode(h, _) => h in s.runs && h in s.w.held && s.runs[h].stage.Fresh?
    case Beat(h) => h in s.runs && h in s.w.held && s.runs[h].stage.Running? && s.runs[h].config.heartbeat.Some?
    case Handler(h, _) => h in s.runs && s.runs[h].stage.Running?
    case Sink(h, _) => h in s.runs && s.runs[h].stage.Publishing?
    case Finish(h, _) => h in s.runs && h in s.w.held && (s.runs[h].stage.Settling? || s.runs[h].stage.Abandoning?)
    case Cancel(h, _) => h in s.runs && h in s.w.held
  }

  ghost function At(s: Sys, h: nat, stage: Stage): Sys
    requires h in s.runs
  {
    s.(runs := s.runs[h := s.runs[h].(stage := stage)])
  }

  ghost function StepFinish(s: Sys, h: nat, now: int): (Sys, seq<Event>)
    requires Enabled(s, Finish(h, now))
  {
    var q := s.w.held[h];
    match s.runs[h].stage
    case Settling(event, cause) =>
      (Sys(BrokerWorld.Completed(s.w, h, event, now), s.runs - {h}),
       [Ended(h, q, cause, Some(event), CompleteSection(s.w.b, q, event, now).1.Ok?, now)])
    case Abandoning(cause) => (Sys(Dropped(s.w, h, now), s.runs - {h}), [Ended(h, q, cause, None, false, now)])
  }

  ghost function Step(s: Sys, l: Label): (Sys, seq<Event>)
    requires Enabled(s, l)
  {
    match l
    case Client(a) => (s.(w := Act(s.w, a)), [])
    case Attach(h, config) => (s.(runs := s.runs[h := Run(config, Fresh)]), [])
    case Decode(h, decodes) => (At(s, h, AfterDecode(s.w.held[h], decodes)), [])
    case Beat(h) =>
      var (b, renewed) := HeartbeatSection(s.w.b, s.w.held[h]);
      (At(s.(w := s.w.(b := b)), h, AfterHeartbeat(s.runs[h].config, s.runs[h].stage.failures, renewed.Ok?)), [])
    case Handler(h, d) => (At(s, h, AfterHandler(s.runs[h].config, d)), [])
    case Sink(h, answer) => (At(s, h, AfterSink(answer)), [])
    case Finish(h, now) => StepFinish(s, h, now)
    case Cancel(h, now) =>
      (Sys(Dropped(s.w, h, now), s.runs - {h}), [Ended(h, s.w.held[h], FutureDropped, None, false, now)])
  }

  // ---------------------------------------------------------------- what every state keeps

  ghost predicate RunOk(run: Run) {
    && ConfigOk(run.config) && StageOk(run.stage)
    && (run.stage.Running? && run.config.heartbeat.Some? ==> run.stage.failures < run.config.heartbeat.value)
  }

  ghost predicate SysOk(s: Sys) {
    Inv(s.w) && forall h <- s.runs :: h in s.w.held && RunOk(s.runs[h])
  }

  // Actions of others leave the deliveries a run owns where they are.
  lemma OthersKeepHeld(w: World, a: Action, h: nat)
    requires Inv(w) && Possible(w, a) && h in w.held && !Targets(a, h)
    ensures h in Act(w, a).held && Act(w, a).held[h] == w.held[h]
  {
    hide Partitioned, Intact, EnqueueSection, PublishSection, CompleteSection, DuplicateSection, HeartbeatSection;
  }

  // The delivery a run lets go of is gone for good or back in the queue, and the event says which.
  ghost predicate FateIs(before: World, after: World, ev: Event) {
    var gone := ev.settlement.Some? && ev.accepted && ForGood(ev.cause);
    && (gone <==> ev.q.id in after.acked + after.rejected)
    && after.b.queue == (if gone then before.b.queue else before.b.queue + [Redelivery(ev.q, ev.now)])
    && (ev.settlement.Some? ==> (ev.accepted <==> Accepts(before.b, ev.settlement.value)))
    && after.b.log.acknowledgementCount == before.b.log.acknowledgementCount + 1
    && NewestRecord(after.b, ev.q, match ev.settlement
                                   case None => Nacked(Shutdown)
                                   case Some(event) => if ev.accepted then event else FailureOf(event))
    && ev.handle !in after.held
  }

  lemma HeldIsNotGone(w: World, h: nat)
    requires Partitioned(w) && h in w.held
    ensures w.held[h].id !in w.acked + w.rejected
  {
    assert w.held[h].id in HeldIds(w.held);
  }

  lemma SettledFate(w: World, h: nat, event: AckEvent, cause: Cause, now: int)
    requires Partitioned(w) && h in w.held && StageOk(Settling(event, cause))
    ensures FateIs(w, BrokerWorld.Completed(w, h, event, now),
                   Ended(h, w.held[h], cause, Some(event), CompleteSection(w.b, w.held[h], event, now).1.Ok?, now))
  {
    HeldIsNotGone(w, h);
    CompleteDisposes(w.b, w.held[h], event, now);
    hide CompleteSection, Refused, Accepts, NewestRecord, Partitioned;
  }

  lemma DroppedFate(w: World, h: nat, cause: Cause, now: int)
    requires Partitioned(w) && h in w.held && !ForGood(cause)
    ensures FateIs(w, Dropped(w, h, now), Ended(h, w.held[h], cause, None, false, now))
  {
    HeldIsNotGone(w, h);
    RecordedIsNewest(w.b.(inFlight := Monus(w.b.inFlight, 1)), w.held[h], Nacked(Shutdown));
    hide Partitioned;
  }

  lemma FinishKeeps(s: Sys, h: nat, now: int)
    requires SysOk(s) && Enabled(s, Finish(h, now))
    ensures SysOk(StepFinish(s, h, now).0)
    ensures forall ev <- StepFinish(s, h, now).1 :: FateIs(s.w, StepFinish(s, h, now).0.w, ev)
  {
    hide Partitioned, Bounded, Intact, CompleteSection, FateIs;
    assert RunOk(s.runs[h]);
    match s.runs[h].stage {
      case Settling(event, cause) => {
        CompletedKeeps(s.w, h, event, now);
        SettledFate(s.w, h, event, cause, now);
      }
      case Abandoning(cause) => {
        ActKeeps(s.w, Drop(h, now));
        DroppedFate(s.w, h, cause, now);
      }
    }
  }

  lemma StageKeeps(s: Sys, h: nat, stage: Stage)
    requires SysOk(s) && h in s.runs && RunOk(s.runs[h].(stage := stage))
    ensures SysOk(At(s, h, stage))
  {
    hide Inv, RunOk;
  }

  lemma BeatKeeps(s: Sys, h: nat)
    requires SysOk(s) && Enabled(s, Beat(h))
    ensures SysOk(Step(s, Beat(h)).0)
  {
    hide Inv;
    var (b, renewed) := HeartbeatSection(s.w.b, s.w.held[h]);
    ActKeeps(s.w, Renew(h));
    assert RunOk(s.runs[h]);
    StageKeeps(s.(w := s.w.(b := b)), h, AfterHeartbeat(s.runs[h].config, s.runs[h].stage.failures, renewed.Ok?));
  }

  lemma ClientKeeps(s: Sys, a: Action)
    requires SysOk(s) && Enabled(s, Client(a))
    ensures SysOk(s.(w := Act(s.w, a)))
  {
    ActKeeps(s.w, a);
    hide Inv, Act, RunOk;
    forall h <- s.runs ensures h in Act(s.w, a).held {
      OthersKeepHeld(s.w, a, h);
    }
  }

  lemma CancelKeeps(s: Sys, h: nat, now: int)
    requires SysOk(s) && Enabled(s, Cancel(h, now))
    ensures SysOk(Step(s, Cancel(h, now)).0)
    ensures forall ev <- Step(s, Cancel(h, now)).1 :: FateIs(s.w, Step(s, Cancel(h, now)).0.w, ev)
  {
    hide Partitioned, Bounded, Intact, FateIs;
    ActKeeps(s.w, Drop(h, now));
    DroppedFate(s.w, h, FutureDropped, now);
  }

  lemma StepKeeps(s: Sys, l: Label)
    requires SysOk(s) && Enabled(s, l)
    ensures SysOk(Step(s, l).0)
    ensures forall ev <- Step(s, l).1 :: FateIs(s.w, Step(s, l).0.w, ev)
  {
    hide Inv, FateIs, Act, CompleteSection, HeartbeatSection, MetadataFits, Dropped, StepFinish;
    match l {
      case Client(a) => ClientKeeps(s, a);
      case Attach(h, config) => {}
      case Decode(h, decodes) => StageKeeps(s, h, AfterDecode(s.w.held[h], decodes));
      case Beat(h) => BeatKeeps(s, h);
      case Handler(h, d) => StageKeeps(s, h, AfterHandler(s.runs[h].config, d));
      case Sink(h, answer) => StageKeeps(s, h, AfterSink(answer));
      case Finish(h, now) => FinishKeeps(s, h, now);
      case Cancel(h, now) => CancelKeeps(s, h, now);
    }
  }
}
