// The scheduler's promises, stated over recorded runs: the states, labels and events of any
// finite interleaving of ticks, dropped ticks, owner calls and restarts.
module SchedulerTheorems {
  import opened Prelude
  import opened ScheduleEntries
  import opened ScheduleHistories
  import opened SchedulerRegistry
  import opened SchedulerMachine
  import opened SchedulerSafety
  import opened SchedulerRuns

  datatype Record = Record(states: seq<Sys>, labels: seq<Label>, events: seq<seq<Event>>)

  // Step m leads from states[m] to states[m + 1] and emits events[m].
  ghost predicate IsRun(cfg: Config, r: Record) {
    && |r.states| == |r.labels| + 1 && |r.events| == |r.labels|
    && Initial(cfg, r.states[0])
    && forall m :: 0 <= m < |r.labels| ==>
         LabelOk(r.labels[m]) && Step(cfg, r.states[m], r.labels[m]) == (r.states[m + 1], r.events[m])
  }

  function Flat(events: seq<seq<Event>>): seq<Event> {
    if events == [] then [] else events[0] + Flat(events[1..])
  }

  lemma {:induction false} FlatMembers(events: seq<seq<Event>>, ev: Event)
    ensures ev in Flat(events) <==> exists m :: 0 <= m < |events| && ev in events[m]
  {
    if events != [] {
      FlatMembers(events[1..], ev);
      if m :| 0 <= m < |events| && ev in events[m] {
        if m > 0 { assert ev in events[1..][m - 1]; }
      }
      if m :| 0 <= m < |events[1..]| && ev in events[1..][m] { assert ev in events[m + 1]; }
    }
  }

  // A stretch of a recorded run is the execution of its labels.
  lemma {:induction false} Stretch(cfg: Config, r: Record, a: nat, b: nat)
    requires IsRun(cfg, r) && a <= b <= |r.labels|
    ensures Exec(cfg, r.states[a], r.labels[a..b]) == (r.states[b], Flat(r.events[a..b]))
    ensures LabelsOk(r.labels[a..b])
    decreases b - a
  {
    hide Step;
    if a < b {
      Stretch(cfg, r, a + 1, b);
      assert r.labels[a..b][0] == r.labels[a] && r.labels[a..b][1..] == r.labels[a + 1..b];
      assert r.events[a..b][0] == r.events[a] && r.events[a..b][1..] == r.events[a + 1..b];
      assert Step(cfg, r.states[a], r.labels[a]) == (r.states[a + 1], r.events[a]);
    }
  }

  lemma StretchMembers(r: Record, a: nat, b: nat, ev: Event)
    requires a <= b <= |r.events|
    ensures ev in Flat(r.events[a..b]) <==> exists m :: a <= m < b && ev in r.events[m]
  {
    FlatMembers(r.events[a..b], ev);
    if m :| a <= m < b && ev in r.events[m] { assert ev in r.events[a..b][m - a]; }
    if m :| 0 <= m < b - a && ev in r.events[a..b][m] { assert ev in r.events[a + m]; }
  }

  lemma StateIsOk(cfg: Config, r: Record, n: nat)
    requires IsRun(cfg, r) && n <= |r.labels|
    ensures Inv(cfg, r.states[n])
    ensures forall m, ev :: 0 <= m < n && ev in r.events[m] ==> !Impossible(ev)
  {
    hide Step, Inv;
    Stretch(cfg, r, 0, n);
    InitialIsOk(cfg, r.states[0]);
    RunKeeps(cfg, r.states[0], r.labels[0..n]);
    forall m, ev | 0 <= m < n && ev in r.events[m] ensures !Impossible(ev) {
      StretchMembers(r, 0, n, ev);
    }
  }

  // ---------------------------------------------------------------- no double dispatch

  // In every state of every run: outstanding dispatches have distinct identities; each one's entry
  // is registered, awaits reconciliation at that very occurrence and carries that dispatch's
  // token; no Active schedule has an outstanding dispatch; the unsettled list and the registry
  // stay within their bound. And nowhere in the run was an outcome stale, a slot refused for lack
  // of capacity, or a snapshot rejected on restart.
  lemma NoDoubleDispatch(cfg: Config, r: Record, n: nat)
    requires IsRun(cfg, r) && n <= |r.labels|
    ensures var s := r.states[n];
      && (forall t <- s.ticks, u <- s.ticks ::
            t != u && s.ticks[t].phase.Dispatching? && s.ticks[u].phase.Dispatching?
            ==> s.ticks[t].phase.pending.id != s.ticks[u].phase.pending.id)
      && (forall t <- s.ticks :: s.ticks[t].phase.Dispatching? ==>
            var p := s.ticks[t].phase.pending;
            && Lookup(s.registry.entries, p.id).Some?
            && Pins(Lookup(s.registry.entries, p.id).value, p, s.ticks[t].now)
            && IsRunning(s.registry, p.id))
      && (forall e <- s.registry.entries :: e.status == Active ==> !IsRunning(s.registry, e.id))
      && |s.registry.running| <= cfg.maxSchedules && |s.registry.entries| <= cfg.maxSchedules
    ensures forall m, ev :: 0 <= m < n && ev in r.events[m] ==>
      !ev.StaleOutcome? && !ev.SlotRefused? && !ev.RestartRefused?
  {
    StateIsOk(cfg, r, n);
    hide Step;
    var s := r.states[n];
    forall t <- s.ticks | s.ticks[t].phase.Dispatching? ensures DispatchOk(s.registry, t, s.ticks[t]) {
    }
    forall i | 0 <= i < |s.registry.entries| && s.registry.entries[i].status == Active
      ensures !IsRunning(s.registry, s.registry.entries[i].id)
    {
      ActiveIsIdle(cfg, s, i);
    }
    forall m, ev | 0 <= m < n && ev in r.events[m]
      ensures !ev.StaleOutcome? && !ev.SlotRefused? && !ev.RestartRefused?
    {
      assert !Impossible(ev);
    }
  }

  // In every state of every run, beside anything else that runs, each tick has spent its global
  // budget exactly on dispatcher calls and has not overdrawn the bound of the schedule it is on.
  lemma TickStaysInBudget(cfg: Config, r: Record, n: nat, t: TickId)
    requires IsRun(cfg, r) && n <= |r.labels| && t in r.states[n].ticks
    ensures var k := r.states[n].ticks[t];
      && CallsOf(k) + k.remaining == cfg.maxDispatches
      && (k.phase.Deciding? || k.phase.Dispatching? || k.phase.Closing? ==> k.phase.attempted <= cfg.maxCatchUp)
  {
    hide Step;
    StateIsOk(cfg, r, n);
  }

  // Every snapshot of every state of every run is accepted back and reproduces the entry. Taken
  // while a tick is dispatching, it restores what dropping that tick leaves behind, up to the
  // dispatch token.
  lemma SnapshotsRestore(cfg: Config, r: Record, n: nat, at: nat, first: Instant, t: TickId)
    requires IsRun(cfg, r) && n <= |r.labels| && at < |r.states[n].registry.entries|
    ensures var s := r.states[n];
      var e := s.registry.entries[at];
      && (e.status == Completed <==> e.next.None?)
      && (e.boundary.Some? ==> e.next.Some?)
      && Restored(e, e.policy, first) == Ok(e.(token := None))
      && |StepAbandon(s, t).0.registry.entries| == |s.registry.entries|
      && Restored(e, e.policy, first) == Ok(StepAbandon(s, t).0.registry.entries[at].(token := None))
  {
    hide Step;
    StateIsOk(cfg, r, n);
    var e := r.states[n].registry.entries[at];
    assert e in r.states[n].registry.entries;
    RestoreReproducesEntry(e, e.policy, first);
  }

  // ---------------------------------------------------------------- accounting

  // Between any two points of any run, while a schedule stays registered, the occurrences consumed
  // by confirmations, dropped misfires and owner confirmations are exactly the plan's successive
  // occurrences from the old cursor, in order, and they lead to the new cursor.
  lemma NoOccurrenceIsLost(cfg: Config, r: Record, a: nat, b: nat, id: ScheduleId)
    requires IsRun(cfg, r) && a <= b <= |r.labels|
    requires Lookup(r.states[a].registry.entries, id).Some?
    requires forall m :: a <= m < b ==> Removed(id) !in r.events[m]
    ensures Lookup(r.states[b].registry.entries, id).Some?
    ensures var e := Lookup(r.states[a].registry.entries, id).value;
      var e' := Lookup(r.states[b].registry.entries, id).value;
      var dues := Consumed(For(id, Flat(r.events[a..b])));
      && e'.plan == e.plan
      && Consumes(e.plan, e.next, dues, e'.next)
      && e'.next == Iterate(e.plan, e.next, |dues|)
      && forall i, j :: 0 <= i < j < |dues| ==> dues[i] < dues[j]
  {
    hide Step, Inv;
    StateIsOk(cfg, r, a);
    Stretch(cfg, r, a, b);
    StretchMembers(r, a, b, Removed(id));
    NoOccurrenceIsLostFrom(cfg, r.states[a], r.labels[a..b], id);
  }

  // ---------------------------------------------------------------- repeated dispatch

  // If a run issues an occurrence of a schedule at step i and another at step k, then in between
  // the first one was settled (confirmed, reported not started, or resolved by the owner); and if
  // both are the same occurrence of a schedule that was not removed meanwhile, that occurrence was
  // reported not started or its retry was asked for by the owner.
  lemma SecondDispatchNeedsCause(cfg: Config, r: Record, i: nat, k: nat, id: ScheduleId,
                                 first: EntryEvent, second: EntryEvent)
    requires IsRun(cfg, r) && i < k < |r.labels|
    requires first.Issued? && On(id, first) in r.events[i]
    requires second.Issued? && On(id, second) in r.events[k]
    ensures exists m, ev :: i < m <= k && On(id, ev) in r.events[m] && Settles(ev)
    ensures first.due == second.due && (forall m :: i < m <= k ==> Removed(id) !in r.events[m]) ==>
      exists m, ev :: i < m <= k && On(id, ev) in r.events[m] && Releases(ev, first.due)
  {
    hide Step, Inv;
    StateIsOk(cfg, r, i);
    Stretch(cfg, r, i + 1, k + 1);
    assert Step(cfg, r.states[i], r.labels[i]) == (r.states[i + 1], r.events[i]);
    SecondDispatchNeedsCauseFrom(cfg, r.states[i], r.labels[i], r.labels[i + 1..k + 1], id,
                                 first.due, first.now, first.misfired);
    var events := Flat(r.events[i + 1..k + 1]);
    forall ev ensures ev in events <==> exists m :: i < m <= k && ev in r.events[m] {
      StretchMembers(r, i + 1, k + 1, ev);
    }
    assert On(id, second) in events;
    if forall m :: i < m <= k ==> Removed(id) !in r.events[m] {
      assert Removed(id) !in events;
    }
  }

  // ---------------------------------------------------------------- abandoned backlog

  // A FireOnce misfire issued at instant `now` in step i and confirmed in step j, by its
  // dispatcher or by the owner, ends the backlog of `now` for good: no later step k, whatever its
  // tick's clock says and however large the backlog is against the catch-up bound, issues an
  // occurrence that was already older than the grace at `now`. Restarting from snapshots under
  // FireOnce, at any point in between, does not change that.
  lemma BacklogStaysAbandoned(cfg: Config, r: Record, i: nat, j: nat, k: nat, id: ScheduleId,
                              due: Instant, now: Instant, confirmation: EntryEvent, later: EntryEvent)
    requires IsRun(cfg, r) && i < j < k < |r.labels|
    requires On(id, Issued(due, now, true)) in r.events[i]
    requires Lookup(r.states[i + 1].registry.entries, id).Some?
    requires Lookup(r.states[i + 1].registry.entries, id).value.policy == FireOnce
    requires forall m, ev :: i < m < j && On(id, ev) in r.events[m] ==> !Settles(ev)
    requires On(id, confirmation) in r.events[j] && Confirms(confirmation)
    requires forall m :: j < m <= k ==> Removed(id) !in r.events[m]
    requires forall m :: i < m <= k && r.labels[m].Restart? ==> r.labels[m].policyOf(id) == FireOnce
    requires On(id, later) in r.events[k] && later.Issued?
    ensures now - later.due <= cfg.grace
  {
    assert j + 1 < |r.states|;
    hide Step, IsRun;
    IssueStretch(cfg, r, i, j, id, due, now);
    ConfirmStretch(cfg, r, j, id, now, confirmation);
    LaterStretch(cfg, r, j + 1, k, id, now, later);
  }

  ghost predicate AwaitsWithBoundary(s: Sys, id: ScheduleId, now: Instant) {
    && Lookup(s.registry.entries, id).Some?
    && var e := Lookup(s.registry.entries, id).value;
    && e.status == ReconciliationRequired && e.policy == FireOnce && e.boundary == Some(now)
  }

  ghost predicate HasAbandoned(cfg: Config, s: Sys, id: ScheduleId, now: Instant) {
    && Lookup(s.registry.entries, id).Some?
    && var e := Lookup(s.registry.entries, id).value;
    && e.policy == FireOnce && AbandonedThrough(cfg, e, now)
  }

  lemma IssueStretch(cfg: Config, r: Record, i: nat, j: nat, id: ScheduleId, due: Instant, now: Instant)
    requires IsRun(cfg, r) && i < j <= |r.labels|
    requires On(id, Issued(due, now, true)) in r.events[i]
    requires Lookup(r.states[i + 1].registry.entries, id).Some?
    requires Lookup(r.states[i + 1].registry.entries, id).value.policy == FireOnce
    requires forall m, ev :: i < m < j && On(id, ev) in r.events[m] ==> !Settles(ev)
    requires forall m :: i < m < j && r.labels[m].Restart? ==> r.labels[m].policyOf(id) == FireOnce
    ensures AwaitsWithBoundary(r.states[j], id, now)
  {
    hide Step, Inv, Lookup;
    StateIsOk(cfg, r, i);
    assert Step(cfg, r.states[i], r.labels[i]) == (r.states[i + 1], r.events[i]);
    AfterIssue(cfg, r.states[i], r.labels[i], id, due, now, true);
    StateIsOk(cfg, r, i + 1);
    Stretch(cfg, r, i + 1, j);
    forall ev | On(id, ev) in Flat(r.events[i + 1..j]) ensures !Settles(ev) {
      StretchMembers(r, i + 1, j, On(id, ev));
    }
    WaitingKeepsBoundary(cfg, r.states[i + 1], r.labels[i + 1..j], id, now);
  }

  lemma ConfirmStretch(cfg: Config, r: Record, j: nat, id: ScheduleId, now: Instant, confirmation: EntryEvent)
    requires IsRun(cfg, r) && j < |r.labels| && AwaitsWithBoundary(r.states[j], id, now)
    requires On(id, confirmation) in r.events[j] && Confirms(confirmation)
    ensures HasAbandoned(cfg, r.states[j + 1], id, now)
  {
    hide Step, Inv, Lookup, AbandonedThrough;
    StateIsOk(cfg, r, j);
    assert Step(cfg, r.states[j], r.labels[j]) == (r.states[j + 1], r.events[j]);
    ConfirmationIsAbandonment(cfg, r.states[j], r.labels[j], id, now);
  }

  lemma LaterStretch(cfg: Config, r: Record, a: nat, k: nat, id: ScheduleId, now: Instant, later: EntryEvent)
    requires IsRun(cfg, r) && a <= k < |r.labels| && HasAbandoned(cfg, r.states[a], id, now)
    requires forall m :: a <= m <= k ==> Removed(id) !in r.events[m]
    requires forall m :: a <= m <= k && r.labels[m].Restart? ==> r.labels[m].policyOf(id) == FireOnce
    requires On(id, later) in r.events[k] && later.Issued?
    ensures now - later.due <= cfg.grace
  {
    hide Step, Inv, Lookup, AbandonedThrough;
    StateIsOk(cfg, r, a);
    Stretch(cfg, r, a, k + 1);
    StretchMembers(r, a, k + 1, Removed(id));
    StretchMembers(r, a, k + 1, On(id, later));
    AbandonedRun(cfg, r.states[a], r.labels[a..k + 1], id, now);
  }

  // ---------------------------------------------------------------- policies

  lemma EventsAreOnRegistered(cfg: Config, s: Sys, l: Label, id: ScheduleId, ev: EntryEvent)
    requires On(id, ev) in Step(cfg, s, l).1
    ensures Lookup(s.registry.entries, id).Some? && Removed(id) !in Step(cfg, s, l).1
  {
    match l
    case Choose(t, shutdown) =>
    case Return(t, outcome) =>
    case Add(_) | Remove(_) | Suspend(_, _) | Reconcile(_, _) =>
    case Restart(policyOf) =>
    case Start(_, _) | Advance(_, _) | Abandon(_) =>
  }

  // In every run, each event of a schedule is one its policy and state allow: only due occurrences
  // are dispatched, none overdue under the skipping policy; an occurrence is dropped only overdue,
  // by the skipping policy or behind a FireOnce misfire, so never under CatchUp; and an occurrence
  // that never started or is to be retried is offered again at once.
  lemma PoliciesAreFollowed(cfg: Config, r: Record, m: nat, id: ScheduleId, ev: EntryEvent)
    requires IsRun(cfg, r) && m < |r.labels| && On(id, ev) in r.events[m]
    ensures var before := Lookup(r.states[m].registry.entries, id);
      var after := Lookup(r.states[m + 1].registry.entries, id);
      && before.Some? && after.Some?
      && Justified(cfg, before.value, ActionFor(cfg, r.states[m], r.labels[m], id), ev)
      && (ev.Dropped? ==> before.value.policy != CatchUp)
      && (Releases(ev, ev.due) ==> Offers(after.value, ev.due))
  {
    hide Inv, ActionFor, EntryNext, Enabled;
    StateIsOk(cfg, r, m);
    assert Step(cfg, r.states[m], r.labels[m]) == (r.states[m + 1], r.events[m]) && LabelOk(r.labels[m]);
    EventsAreOnRegistered(cfg, r.states[m], r.labels[m], id, ev);
    hide Step;
    StepProjects(cfg, r.states[m], r.labels[m], id);
    ForMembers(id, r.events[m]);
    var e, a := Lookup(r.states[m].registry.entries, id).value, ActionFor(cfg, r.states[m], r.labels[m], id);
    EventsAreJustified(cfg, e, a, ev);
    if Releases(ev, ev.due) { ReleasedIsOffered(cfg, e, a, ev); }
  }
}
