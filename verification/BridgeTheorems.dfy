// The broker's and the bridge's promises over recorded histories: any finite interleaving of
// producers, consumers, faults, disconnections and bridge runs, from an empty broker.
module BridgeTheorems {
  import opened Prelude
  import opened FakeBroker
  import opened BrokerWorld
  import opened DeliveryBridge
  import opened BridgeRuns

  datatype Trace = Trace(states: seq<Sys>, labels: seq<Label>, events: seq<seq<Event>>)

  ghost predicate IsTrace(limits: Limits, t: Trace) {
    && |t.states| == |t.labels| + 1 && |t.events| == |t.labels|
    && t.states[0] == Sys(EmptyWorld(limits), map[])
    && forall m :: 0 <= m < |t.labels| ==>
         Enabled(t.states[m], t.labels[m]) && Step(t.states[m], t.labels[m]) == (t.states[m + 1], t.events[m])
  }

  lemma {:induction false} StateIsOk(limits: Limits, t: Trace, n: nat)
    requires IsTrace(limits, t) && n <= |t.labels|
    ensures SysOk(t.states[n])
    decreases n
  {
    hide Step, Enabled, SysOk;
    if n == 0 {
      EmptySysIsOk(limits);
    } else {
      StateIsOk(limits, t, n - 1);
      assert Enabled(t.states[n - 1], t.labels[n - 1]);
      StepKeeps(t.states[n - 1], t.labels[n - 1]);
    }
  }

  lemma EmptySysIsOk(limits: Limits)
    ensures SysOk(Sys(EmptyWorld(limits), map[]))
  {
    EmptyIsOk(limits);
  }

  // ---------------------------------------------------------------- where deliveries are

  ghost predicate InQueue(w: World, id: DeliveryId) {
    exists i :: 0 <= i < |w.b.queue| && w.b.queue[i].id == id
  }

  ghost predicate HeldBy(w: World, h: nat, id: DeliveryId) {
    h in w.held && w.held[h].id == id
  }

  function Count(a: bool, b: bool, c: bool, d: bool): nat {
    (if a then 1 else 0) + (if b then 1 else 0) + (if c then 1 else 0) + (if d then 1 else 0)
  }

  // In every state of every history, each issued identity is in exactly one of the queue, the hands
  // of one owner, the acknowledged and the terminally rejected deliveries, and at most once there.
  lemma EveryDeliveryIsInOnePlace(limits: Limits, t: Trace, n: nat, id: DeliveryId)
    requires IsTrace(limits, t) && n < |t.states| && 1 <= id < t.states[n].w.b.nextId
    ensures var w := t.states[n].w;
            && Count(InQueue(w, id), exists h :: HeldBy(w, h, id), id in w.acked, id in w.rejected) == 1
            && (forall i, j :: 0 <= i < j < |w.b.queue| ==> w.b.queue[i].id != w.b.queue[j].id)
            && (forall h, k :: HeldBy(w, h, id) && HeldBy(w, k, id) ==> h == k)
  {
    var w := t.states[n].w;
    assert SysOk(t.states[n]) by { StateIsOk(limits, t, n); }
    hide IsTrace, Bounded;
    assert id in w.b.catalog;
    assert InQueue(w, id) <==> id in QueueIds(w.b.queue);
    assert (exists h :: HeldBy(w, h, id)) <==> id in HeldIds(w.held) by {
      if id in HeldIds(w.held) {
        var h :| h in w.held && w.held[h].id == id;
        assert HeldBy(w, h, id);
      }
    }
  }

  // The in-flight counter is the number of live deliveries, and queued plus in-flight deliveries
  // never exceed the limit, although nothing checks it when a delivery comes back. Nor does the
  // catalog exceed its own.
  lemma InFlightIsExactAndBounded(limits: Limits, t: Trace, n: nat)
    requires IsTrace(limits, t) && n < |t.states|
    ensures var w := t.states[n].w;
            && w.b.inFlight == |w.held| && |w.b.queue| + w.b.inFlight <= w.b.limits.maxPending
            && |w.b.catalog| <= w.b.limits.maxCatalog
  {
    assert SysOk(t.states[n]) by { StateIsOk(limits, t, n); }
    hide IsTrace, Partitioned, Intact;
  }

  // What a step does to the world is what some client of the broker could have done.
  lemma StepIsAct(s: Sys, l: Label)
    requires SysOk(s) && Enabled(s, l)
    ensures Step(s, l).0.w == s.w || exists a :: Possible(s.w, a) && Step(s, l).0.w == Act(s.w, a)
  {
    hide Inv, CompleteSection, HeartbeatSection, MetadataFits, AbandonSection, DequeueSection, PublishSection;
    match l {
      case Client(a) => {}
      case Beat(h) => assert Step(s, l).0.w == Act(s.w, Renew(h));
      case Finish(h, now) => {
        assert RunOk(s.runs[h]);
        match s.runs[h].stage {
          case Settling(event, _) => assert Step(s, l).0.w == Act(s.w, Complete(h, event, now));
          case Abandoning(_) => assert Step(s, l).0.w == Act(s.w, Drop(h, now));
        }
      }
      case Cancel(h, now) => assert Step(s, l).0.w == Act(s.w, Drop(h, now));
      case _ => {}
    }
  }

  // In every state of every history the four bounded histories hold their newest records, as many as
  // were made up to their own limit, and there is one terminal record for each rejected delivery.
  lemma {:induction false} HistoriesAreBounded(limits: Limits, t: Trace, n: nat)
    requires IsTrace(limits, t) && n < |t.states|
    ensures var w := t.states[n].w;
            && |w.b.log.published| == Min(w.b.log.publishedCount, w.b.limits.maxPublished)
            && |w.b.log.acknowledgements| == Min(w.b.log.acknowledgementCount, w.b.limits.maxAcknowledgements)
            && |w.b.log.heartbeats| == Min(w.b.log.heartbeatCount, w.b.limits.maxAcknowledgements)
            && |w.b.log.terminal| == Min(w.b.log.terminalCount, w.b.limits.maxTerminal)
            && w.b.log.terminalCount == |w.rejected|
    decreases n
  {
    hide Step, Enabled, SysOk, Act, Possible, EmptyWorld, Partitioned;
    assert HistoriesOk(t.states[n].w) by {
      if n == 0 {
        EmptyHistoriesAreOk(limits);
      } else {
        var s, l := t.states[n - 1], t.labels[n - 1];
        HistoriesAreBounded(limits, t, n - 1);
        StateIsOk(limits, t, n - 1);
        assert Enabled(s, l) && Step(s, l).0 == t.states[n];
        StepIsAct(s, l);
        WorldIsPartitioned(s);
        if t.states[n].w != s.w {
          var a :| Possible(s.w, a) && t.states[n].w == Act(s.w, a);
          ActKeepsHistories(s.w, a);
        }
      }
    }
  }

  lemma WorldIsPartitioned(s: Sys)
    requires SysOk(s)
    ensures Partitioned(s.w)
  {
  }

  // However often it was redelivered, a delivery carries the message it was enqueued with.
  lemma DeliveriesCarryTheirMessage(limits: Limits, t: Trace, n: nat)
    requires IsTrace(limits, t) && n < |t.states|
    ensures var w := t.states[n].w;
            && (forall i :: 0 <= i < |w.b.queue| ==> DeliveryOk(w.b, w.b.queue[i]))
            && (forall h <- w.held :: DeliveryOk(w.b, w.held[h]))
  {
    assert SysOk(t.states[n]) by { StateIsOk(limits, t, n); }
    hide IsTrace, Partitioned, Bounded;
  }

  // ---------------------------------------------------------------- how a bridge run ends

  lemma EventIsTrue(limits: Limits, t: Trace, m: nat, ev: Event)
    requires IsTrace(limits, t) && m < |t.labels| && |t.states| == |t.labels| + 1 && |t.events| == |t.labels|
    requires ev in t.events[m]
    ensures FateIs(t.states[m].w, t.states[m + 1].w, ev)
  {
    hide Step, Enabled, SysOk, FateIs;
    StateIsOk(limits, t, m);
    assert Enabled(t.states[m], t.labels[m]);
    StepKeeps(t.states[m], t.labels[m]);
  }

  // A delivery run through the bridge leaves for good exactly when the run ended for a final cause
  // and the broker took the settlement; otherwise it is back in the queue, one attempt later. One
  // record says what it came to: the settlement taken, the operation that failed, or the drop.
  lemma FateOfADelivery(limits: Limits, t: Trace, m: nat, ev: Event)
    requires IsTrace(limits, t) && m < |t.labels| && |t.states| == |t.labels| + 1 && |t.events| == |t.labels|
    requires ev in t.events[m]
    ensures var gone := ev.settlement.Some? && ev.accepted && ForGood(ev.cause);
            && (gone <==> ev.q.id in t.states[m + 1].w.acked + t.states[m + 1].w.rejected)
            && t.states[m + 1].w.b.queue ==
               t.states[m].w.b.queue + (if gone then [] else [Redelivery(ev.q, ev.now)])
    ensures ev.settlement.Some? ==> (ev.accepted <==> Accepts(t.states[m].w.b, ev.settlement.value))
    ensures t.states[m + 1].w.b.log.acknowledgementCount == t.states[m].w.b.log.acknowledgementCount + 1
    ensures NewestRecord(t.states[m + 1].w.b, ev.q,
                         match ev.settlement
                         case None => Nacked(Shutdown)
                         case Some(event) => if ev.accepted then event else FailureOf(event))
  {
    hide IsTrace;
    EventIsTrue(limits, t, m, ev);
    hide Accepts, NewestRecord;
  }

  // A heartbeat renews the lease exactly when the broker is connected and no failure is scripted.
  ghost predicate Renews(s: Sys) {
    s.w.b.connected && s.w.b.faults.heartbeat == 0
  }

  // What must have happened to the run for it to end for this cause with this settlement.
  ghost predicate Explains(s: Sys, l: Label, h: nat, cause: Cause, settlement: Option<AckEvent>) {
    match cause
    case HandlerCompleted => l == Handler(h, Disposition.Completed) && settlement == Some(Acked)
    case HandlerRetry =>
      && l.Handler? && l.handle == h && l.disposition.RetryAfter?
      && settlement == Some(Nacked(NackReason.RetryAfter(l.disposition.delay)))
    case HandlerDeclined => l == Handler(h, DoNotRetry) && settlement == Some(Nacked(Permanent))
    case HandlerShutdown => l == Handler(h, ShuttingDown) && settlement == Some(Nacked(Shutdown))
    case DecodeRejected => l == Decode(h, false) && settlement == Some(Nacked(ConsumerRejected))
    case MetadataRejected =>
      && l == Decode(h, true) && h in s.w.held && !MetadataFits(s.w.held[h])
      && settlement == Some(Nacked(ConsumerRejected))
    case LeaseLost =>
      && l == Beat(h) && !Renews(s)
      && h in s.runs && s.runs[h].stage.Running? && s.runs[h].config.heartbeat.Some?
      && s.runs[h].stage.failures + 1 >= s.runs[h].config.heartbeat.value
      && settlement == Some(Nacked(Retryable))
    case DeadLettered => l == Sink(h, SinkConfirmed) && settlement == Some(Nacked(Permanent))
    case NoSink =>
      l == Handler(h, DeadLetter) && h in s.runs && !s.runs[h].config.hasSink && settlement == None
    case SinkNotConfirmed => l.Sink? && l.handle == h && l.answer != SinkConfirmed && settlement == None
    case FutureDropped => l.Cancel? && l.handle == h && settlement == None
  }

  ghost predicate Explained(t: Trace, n: nat, h: nat, cause: Cause, settlement: Option<AckEvent>)
    requires n <= |t.labels| < |t.states|
  {
    exists j :: 0 <= j < n && Explains(t.states[j], t.labels[j], h, cause, settlement)
  }

  // Run h is about to end for this cause with this settlement.
  ghost predicate CauseOf(s: Sys, h: nat, cause: Cause, settlement: Option<AckEvent>) {
    && h in s.runs
    && match settlement
       case Some(event) => s.runs[h].stage == Settling(event, cause)
       case None => s.runs[h].stage == Abandoning(cause)
  }

  lemma BeatRenews(s: Sys, h: nat)
    requires h in s.w.held
    ensures HeartbeatSection(s.w.b, s.w.held[h]).1.Ok? <==> Renews(s)
  {
    BeatFails(s.w.b, s.w.held[h], 0);
  }

  lemma BeatExplains(s: Sys, h: nat, cause: Cause, settlement: Option<AckEvent>)
    requires SysOk(s) && Enabled(s, Beat(h)) && CauseOf(Step(s, Beat(h)).0, h, cause, settlement)
    ensures Explains(s, Beat(h), h, cause, settlement)
  {
    hide HeartbeatSection, Inv, Renews;
    FailuresAreFew(s, h);
    BeatRenews(s, h);
  }

  lemma StepExplains(s: Sys, l: Label, h: nat, cause: Cause, settlement: Option<AckEvent>)
    requires SysOk(s) && Enabled(s, l) && CauseOf(Step(s, l).0, h, cause, settlement)
    ensures CauseOf(s, h, cause, settlement) || Explains(s, l, h, cause, settlement)
  {
    hide SysOk, Act, CompleteSection, HeartbeatSection, AfterHeartbeat, MetadataFits, Dropped, Renews, Possible;
    if l == Beat(h) { BeatExplains(s, h, cause, settlement); }
  }

  lemma EventExplains(s: Sys, l: Label, ev: Event)
    requires Enabled(s, l) && ev in Step(s, l).1
    ensures CauseOf(s, ev.handle, ev.cause, ev.settlement) || Explains(s, l, ev.handle, ev.cause, ev.settlement)
    ensures ev.handle in s.w.held && s.w.held[ev.handle] == ev.q
  {
    hide Act, CompleteSection, HeartbeatSection, MetadataFits, Dropped;
  }

  lemma NothingEndsAtStart(limits: Limits, h: nat, cause: Cause, settlement: Option<AckEvent>)
    ensures !CauseOf(Sys(EmptyWorld(limits), map[]), h, cause, settlement)
  {
  }

  lemma {:induction false} StagesAreExplained(limits: Limits, t: Trace, n: nat, h: nat, cause: Cause,
                                              settlement: Option<AckEvent>)
    requires IsTrace(limits, t) && n <= |t.labels| && |t.states| == |t.labels| + 1
    requires CauseOf(t.states[n], h, cause, settlement)
    ensures Explained(t, n, h, cause, settlement)
    decreases n
  {
    hide Step, Enabled, CauseOf, Explains, SysOk, EmptyWorld;
    NothingEndsAtStart(limits, h, cause, settlement);
    if n > 0 {
      assert Enabled(t.states[n - 1], t.labels[n - 1]) && Step(t.states[n - 1], t.labels[n - 1]).0 == t.states[n];
      StateIsOk(limits, t, n - 1);
      StepExplains(t.states[n - 1], t.labels[n - 1], h, cause, settlement);
      if CauseOf(t.states[n - 1], h, cause, settlement) {
        StagesAreExplained(limits, t, n - 1, h, cause, settlement);
      }
    }
  }

  // Every ending has its cause in the history of that very run, and carries the settlement that
  // cause calls for, the worker's own delay included: in particular a delivery leaves for good only
  // after its handler completed or declined it, it was rejected undecoded or for its metadata, or
  // the dead-letter sink confirmed it.
  lemma EndingsAreExplained(limits: Limits, t: Trace, m: nat, ev: Event)
    requires IsTrace(limits, t) && m < |t.labels| && |t.states| == |t.labels| + 1 && |t.events| == |t.labels|
    requires ev in t.events[m]
    ensures Explained(t, m + 1, ev.handle, ev.cause, ev.settlement)
  {
    hide Step, Enabled, CauseOf, Explains;
    assert Enabled(t.states[m], t.labels[m]);
    assert Step(t.states[m], t.labels[m]) == (t.states[m + 1], t.events[m]);
    EventExplains(t.states[m], t.labels[m], ev);
    if CauseOf(t.states[m], ev.handle, ev.cause, ev.settlement) {
      StagesAreExplained(limits, t, m, ev.handle, ev.cause, ev.settlement);
    }
  }

  // ---------------------------------------------------------------- lost leases

  // Which heartbeats of delivery h succeeded, in order, since its handler started.
  ghost function Beats(t: Trace, n: nat, h: nat): seq<bool>
    requires n <= |t.labels| < |t.states|
  {
    if n == 0 then []
    else
      var s, l := t.states[n - 1], t.labels[n - 1];
      if l == Beat(h) && h in s.w.held then Beats(t, n - 1, h) + [Renews(s)]
      else if l.Decode? && l.handle == h then []
      else Beats(t, n - 1, h)
  }

  function TrailingMisses(beats: seq<bool>): nat {
    if beats == [] || beats[|beats| - 1] then 0 else 1 + TrailingMisses(beats[..|beats| - 1])
  }

  // The last k heartbeats all failed.
  ghost predicate MissedLast(beats: seq<bool>, k: nat) {
    k <= |beats| && forall i :: |beats| - k <= i < |beats| ==> !beats[i]
  }

  lemma {:induction false} TrailingMissesMeans(beats: seq<bool>, k: nat)
    ensures TrailingMisses(beats) >= k <==> MissedLast(beats, k)
  {
    if k > 0 && beats != [] {
      TrailingMissesMeans(beats[..|beats| - 1], k - 1);
    }
  }

  // A run that is executing after a step was just decoded, just beat, or was left alone.
  lemma RunningAfter(s: Sys, l: Label, h: nat)
    requires SysOk(s) && Enabled(s, l)
    requires h in Step(s, l).0.runs && Step(s, l).0.runs[h].stage.Running?
    ensures var after := Step(s, l).0.runs[h];
            || (l.Decode? && l.handle == h && after.stage.failures == 0)
            || (l == Beat(h) && h in s.w.held && h in s.runs && s.runs[h].stage.Running?
                && after.config == s.runs[h].config
                && after.stage.failures == if Renews(s) then 0 else SaturatingInc32(s.runs[h].stage.failures))
            || (!(l.Decode? && l.handle == h) && l != Beat(h) && h in s.runs && after == s.runs[h])
  {
    hide Inv, Act, CompleteSection, HeartbeatSection, MetadataFits, Dropped, Renews;
    if l == Beat(h) { BeatRenews(s, h); }
  }

  // The counter a run keeps is the number of heartbeats missed in a row.
  lemma {:induction false} CounterIsMisses(limits: Limits, t: Trace, n: nat, h: nat)
    requires IsTrace(limits, t) && n <= |t.labels| && |t.states| == |t.labels| + 1
    requires h in t.states[n].runs && t.states[n].runs[h].stage.Running? && t.states[n].runs[h].config.heartbeat.Some?
    ensures t.states[n].runs[h].stage.failures == TrailingMisses(Beats(t, n, h))
    decreases n
  {
    hide Step, Enabled, HeartbeatSection, SysOk;
    if n > 0 {
      var s, l := t.states[n - 1], t.labels[n - 1];
      StateIsOk(limits, t, n - 1);
      assert Enabled(s, l) && Step(s, l).0 == t.states[n];
      RunningAfter(s, l, h);
      if l == Beat(h) {
        FailuresAreFew(s, h);
        CounterIsMisses(limits, t, n - 1, h);
        var beats := Beats(t, n, h);
        assert beats[..|beats| - 1] == Beats(t, n - 1, h);
      } else if !(l.Decode? && l.handle == h) {
        CounterIsMisses(limits, t, n - 1, h);
      }
    }
  }

  lemma FailuresAreFew(s: Sys, h: nat)
    requires SysOk(s) && h in s.runs && s.runs[h].stage.Running? && s.runs[h].config.heartbeat.Some?
    ensures s.runs[h].stage.failures < s.runs[h].config.heartbeat.value < U32_LIMIT
  {
    hide Inv;
    assert RunOk(s.runs[h]);
  }

  // A heartbeat ends the lease exactly when it completes a run of the configured number of failures,
  // counted over the heartbeats of this delivery since its handler started.
  lemma LeaseIsLostExactly(limits: Limits, t: Trace, m: nat, h: nat)
    requires IsTrace(limits, t) && m < |t.labels| && |t.states| == |t.labels| + 1 && t.labels[m] == Beat(h)
    ensures h in t.states[m].runs && t.states[m].runs[h].config.heartbeat.Some? && h in t.states[m + 1].runs
    ensures t.states[m + 1].runs[h].stage == Settling(Nacked(Retryable), LeaseLost) <==>
            MissedLast(Beats(t, m + 1, h), t.states[m].runs[h].config.heartbeat.value)
  {
    hide HeartbeatSection, SysOk, Step, Enabled;
    var s := t.states[m];
    assert Enabled(s, Beat(h)) && Step(s, Beat(h)).0 == t.states[m + 1];
    BeatStep(s, h);
    StateIsOk(limits, t, m);
    FailuresAreFew(s, h);
    CounterIsMisses(limits, t, m, h);
    var beats := Beats(t, m + 1, h);
    assert beats[..|beats| - 1] == Beats(t, m, h);
    TrailingMissesMeans(beats, s.runs[h].config.heartbeat.value);
  }

  lemma BeatStep(s: Sys, h: nat)
    requires Enabled(s, Beat(h))
    ensures h in s.w.held && h in s.runs && h in Step(s, Beat(h)).0.runs
    ensures s.runs[h].stage.Running? && s.runs[h].config.heartbeat.Some?
    ensures Step(s, Beat(h)).0.runs[h].stage ==
            AfterHeartbeat(s.runs[h].config, s.runs[h].stage.failures, Renews(s))
  {
    hide HeartbeatSection, Renews;
    BeatRenews(s, h);
  }

  // A run that ended for a lost lease had missed that many heartbeats in a row at one of its beats.
  lemma LostLeasesMissedTheirBeats(limits: Limits, t: Trace, m: nat, ev: Event)
    requires IsTrace(limits, t) && m < |t.labels| && |t.states| == |t.labels| + 1 && |t.events| == |t.labels|
    requires ev in t.events[m] && ev.cause == LeaseLost
    ensures exists j :: 0 <= j <= m && t.labels[j] == Beat(ev.handle) && ev.handle in t.states[j].runs
                        && t.states[j].runs[ev.handle].config.heartbeat.Some?
                        && MissedLast(Beats(t, j + 1, ev.handle), t.states[j].runs[ev.handle].config.heartbeat.value)
  {
    hide Step, Enabled, HeartbeatSection;
    EndingsAreExplained(limits, t, m, ev);
    var j :| 0 <= j < m + 1 && Explains(t.states[j], t.labels[j], ev.handle, LeaseLost, ev.settlement);
    LeaseIsLostExactly(limits, t, j, ev.handle);
    assert Enabled(t.states[j], t.labels[j]) && Step(t.states[j], t.labels[j]).0 == t.states[j + 1];
    StateIsOk(limits, t, j);
    LostAt(t.states[j], ev.handle, ev.settlement);
  }

  lemma LostAt(s: Sys, h: nat, settlement: Option<AckEvent>)
    requires SysOk(s) && Enabled(s, Beat(h)) && Explains(s, Beat(h), h, LeaseLost, settlement)
    ensures h in Step(s, Beat(h)).0.runs
    ensures Step(s, Beat(h)).0.runs[h].stage == Settling(Nacked(Retryable), LeaseLost)
  {
    hide HeartbeatSection, Renews, Inv;
    BeatRenews(s, h);
    FailuresAreFew(s, h);
  }

  // ---------------------------------------------------------------- at most one settlement

  lemma HandlesGrow(s: Sys, l: Label, h: nat)
    requires Enabled(s, l) && h < s.w.nextHandle && h !in s.w.held
    ensures h < Step(s, l).0.w.nextHandle && h !in Step(s, l).0.w.held
  {
    hide EnqueueSection, PublishSection, CompleteSection, DuplicateSection;
    hide HeartbeatSection, AbandonSection, MetadataFits;
  }

  lemma {:induction false} ReleasedStaysReleased(limits: Limits, t: Trace, a: nat, b: nat, h: nat)
    requires IsTrace(limits, t) && a <= b <= |t.labels| && |t.states| == |t.labels| + 1
    requires h < t.states[a].w.nextHandle && h !in t.states[a].w.held
    ensures h < t.states[b].w.nextHandle && h !in t.states[b].w.held
    decreases b
  {
    if a < b {
      hide Step, Enabled;
      ReleasedStaysReleased(limits, t, a, b - 1, h);
      assert Enabled(t.states[b - 1], t.labels[b - 1]);
      HandlesGrow(t.states[b - 1], t.labels[b - 1], h);
    }
  }

  lemma EndingReleases(limits: Limits, t: Trace, m: nat, ev: Event)
    requires IsTrace(limits, t) && m < |t.labels| && |t.states| == |t.labels| + 1 && |t.events| == |t.labels|
    requires ev in t.events[m]
    ensures ev.handle in t.states[m].w.held
    ensures ev.handle < t.states[m + 1].w.nextHandle && ev.handle !in t.states[m + 1].w.held
  {
    hide Step, Enabled, CauseOf, Explains;
    assert Enabled(t.states[m], t.labels[m]);
    assert Step(t.states[m], t.labels[m]) == (t.states[m + 1], t.events[m]);
    EventExplains(t.states[m], t.labels[m], ev);
    EventIsTrue(limits, t, m, ev);
    StateIsOk(limits, t, m);
    hide Partitioned, Intact;
    NextHandleGrows(t.states[m], t.labels[m]);
  }

  lemma NextHandleGrows(s: Sys, l: Label)
    requires Enabled(s, l)
    ensures s.w.nextHandle <= Step(s, l).0.w.nextHandle
  {
    hide EnqueueSection, PublishSection, CompleteSection, DuplicateSection;
    hide HeartbeatSection, AbandonSection, MetadataFits;
  }

  // No delivery is settled twice: two endings in one history never concern the same owned delivery.
  lemma NoDeliveryEndsTwice(limits: Limits, t: Trace, a: nat, b: nat, first: Event, second: Event)
    requires IsTrace(limits, t) && a < b < |t.labels| && |t.states| == |t.labels| + 1 && |t.events| == |t.labels|
    requires first in t.events[a] && second in t.events[b]
    ensures first.handle != second.handle
  {
    hide IsTrace;
    EndingReleases(limits, t, a, first);
    EndingReleases(limits, t, b, second);
    ReleasedStaysReleased(limits, t, a + 1, b, first.handle);
  }
}
