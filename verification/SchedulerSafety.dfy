// The scheduler invariant is kept by every step, so it holds after every run.
module SchedulerSafety {
  import opened Prelude
  import opened ScheduleEntries
  import opened SchedulerRegistry
  import opened SchedulerMachine

  // ---------------------------------------------------------------- framing

  // A registry change that leaves every pinned entry, every flag and every live record alone.
  lemma RegistryFrame(cfg: Config, s: Sys, c: Registry)
    requires Inv(cfg, s) && RegistryOk(cfg, c)
    requires c.live == s.registry.live && c.serials == s.registry.serials
    requires forall r :: r in c.running ==> r in s.registry.running
    requires forall r :: r in s.registry.running && r.serial in c.live ==> r in c.running
    requires forall t <- s.ticks :: s.ticks[t].phase.Dispatching? ==>
      Lookup(c.entries, s.ticks[t].phase.pending.id) == Lookup(s.registry.entries, s.ticks[t].phase.pending.id)
    ensures Inv(cfg, s.(registry := c))
  {
    var s' := s.(registry := c);
    forall t <- s'.ticks | s'.ticks[t].phase.Dispatching? ensures DispatchOk(c, t, s'.ticks[t]) {
      assert DispatchOk(s.registry, t, s.ticks[t]);
    }
  }

  lemma PruneKeeps(cfg: Config, s: Sys)
    requires Inv(cfg, s)
    ensures Inv(cfg, s.(registry := Prune(s.registry)))
  {
    RegistryFrame(cfg, s, Prune(s.registry));
  }

  // Updating one entry that no dispatch pins keeps the invariant.
  lemma UpdateUnpinned(cfg: Config, s: Sys, at: nat, e: Entry)
    requires Inv(cfg, s) && at < |s.registry.entries|
    requires e.id == s.registry.entries[at].id && WellFormed(e)
    requires forall t <- s.ticks :: s.ticks[t].phase.Dispatching? ==> s.ticks[t].phase.pending.id != e.id
    ensures Inv(cfg, s.(registry := s.registry.(entries := s.registry.entries[at := e])))
  {
    var c := s.registry.(entries := s.registry.entries[at := e]);
    LookupAfterUpdate(s.registry.entries, at, e);
    forall x <- c.entries ensures WellFormed(x) {
      if x != e { assert x in s.registry.entries; }
    }
    RegistryFrame(cfg, s, c);
  }

  // A tick that is not dispatching, before and after, may change freely.
  lemma TickFrame(cfg: Config, s: Sys, t: TickId, k: Tick)
    requires Inv(cfg, s) && TickOk(cfg, k) && !k.phase.Dispatching?
    requires t in s.ticks ==> !s.ticks[t].phase.Dispatching?
    ensures Inv(cfg, s.(ticks := s.ticks[t := k]))
  {
    hide RegistryOk, LiveOk, TicksOk;
    LiveTickFrame(s, t, k);
    TicksTickFrame(cfg, s, t, k);
  }

  lemma LiveTickFrame(s: Sys, t: TickId, k: Tick)
    requires LiveOk(s) && !k.phase.Dispatching?
    requires t in s.ticks ==> !s.ticks[t].phase.Dispatching?
    ensures LiveOk(s.(ticks := s.ticks[t := k]))
  {
  }

  lemma TicksTickFrame(cfg: Config, s: Sys, t: TickId, k: Tick)
    requires TicksOk(cfg, s) && TickOk(cfg, k) && !k.phase.Dispatching?
    ensures TicksOk(cfg, s.(ticks := s.ticks[t := k]))
  {
  }

  lemma TickRemovalFrame(cfg: Config, s: Sys, t: TickId)
    requires Inv(cfg, s) && t in s.ticks && !s.ticks[t].phase.Dispatching?
    ensures Inv(cfg, s.(ticks := s.ticks - {t}))
  {
    hide RegistryOk;
  }

  lemma RegistryOfInv(cfg: Config, s: Sys)
    requires Inv(cfg, s)
    ensures RegistryOk(cfg, s.registry)
  {
  }

  lemma TickOfInv(cfg: Config, s: Sys, t: TickId)
    requires Inv(cfg, s) && t in s.ticks
    ensures TickOk(cfg, s.ticks[t])
  {
  }

  // An entry that is not awaiting reconciliation is pinned by no dispatch.
  lemma ActiveIsUnpinned(cfg: Config, s: Sys, at: nat)
    requires Inv(cfg, s) && at < |s.registry.entries|
    requires s.registry.entries[at].status != ReconciliationRequired
    ensures forall t <- s.ticks :: s.ticks[t].phase.Dispatching? ==>
              s.ticks[t].phase.pending.id != s.registry.entries[at].id
  {
    LookupIs(s.registry.entries, at);
    forall t <- s.ticks | s.ticks[t].phase.Dispatching?
      ensures s.ticks[t].phase.pending.id != s.registry.entries[at].id
    {
      assert DispatchOk(s.registry, t, s.ticks[t]);
    }
  }

  // ---------------------------------------------------------------- a slot is always free

  // A record that survives a prune belongs to a tick whose entry is registered and pinned.
  lemma LiveRecord(cfg: Config, s: Sys, r: Running) returns (t: TickId)
    requires Inv(cfg, s) && r in s.registry.running && r.serial in s.registry.live
    ensures t in s.ticks && s.ticks[t].phase.Dispatching?
    ensures s.ticks[t].phase.pending.id == r.id && s.ticks[t].phase.pending.serial == r.serial
    ensures Lookup(s.registry.entries, r.id).Some?
  {
    t := s.registry.live[r.serial];
    assert DispatchOk(s.registry, t, s.ticks[t]);
  }

  lemma LiveRecordsDiffer(cfg: Config, s: Sys, i: nat, j: nat)
    requires Inv(cfg, s) && i < j < |Prune(s.registry).running|
    ensures Prune(s.registry).running[i].id != Prune(s.registry).running[j].id
  {
    var running := Prune(s.registry).running;
    assert running[i] in running && running[j] in running;
    var t := LiveRecord(cfg, s, running[i]);
    var u := LiveRecord(cfg, s, running[j]);
  }

  // Live records name distinct registered schedules other than this unpinned one, so after a
  // prune there are fewer of them than registered schedules.
  lemma SlotIsFree(cfg: Config, s: Sys, at: nat)
    requires Inv(cfg, s) && at < |s.registry.entries|
    requires forall t <- s.ticks :: s.ticks[t].phase.Dispatching? ==>
               s.ticks[t].phase.pending.id != s.registry.entries[at].id
    ensures |Prune(s.registry).running| < |s.registry.entries| <= cfg.maxSchedules
  {
    RegistryOfInv(cfg, s);
    var running := Prune(s.registry).running;
    var entries := s.registry.entries;
    assert DistinctIds(entries);
    hide Inv, RegistryOk;
    var named := seq(|running|, i requires 0 <= i < |running| => running[i].id);
    var registered := IdsOf(entries);
    forall i, j | 0 <= i < j < |named| ensures named[i] != named[j] {
      LiveRecordsDiffer(cfg, s, i, j);
    }
    forall i | 0 <= i < |named| ensures named[i] in registered && named[i] != entries[at].id {
      assert running[i] in running;
      var t := LiveRecord(cfg, s, running[i]);
      assert registered[IndexOf(entries, named[i]).value] == named[i];
    }
    assert registered[at] == entries[at].id;
    FewerMembers(named, registered, entries[at].id);
  }

  // ---------------------------------------------------------------- one lemma per step

  lemma StartKeeps(cfg: Config, s: Sys, t: TickId, now: Instant)
    requires Inv(cfg, s)
    ensures Inv(cfg, StepStart(cfg, s, t, now).0)
  {
    if t !in s.ticks {
      TickFrame(cfg, s, t, Tick(now, IdsOf(s.registry.entries), Ready, cfg.maxDispatches, EmptyReport()));
    }
  }

  lemma AbandonKeeps(cfg: Config, s: Sys, t: TickId)
    requires Inv(cfg, s)
    ensures Inv(cfg, StepAbandon(s, t).0)
  {
    hide Inv;
    if t in s.ticks {
      if s.ticks[t].phase.Dispatching? {
        GuardDropKeeps(cfg, s, t);
      } else {
        TickRemovalFrame(cfg, s, t);
      }
    }
  }

  // Dropping the guard of tick t while its dispatch is given up.
  lemma GuardDropKeeps(cfg: Config, s: Sys, t: TickId)
    requires Inv(cfg, s) && t in s.ticks && s.ticks[t].phase.Dispatching?
    ensures Inv(cfg, Sys(DropGuard(s.registry, s.ticks[t].phase.pending.serial), s.ticks - {t}))
  {
    hide RegistryOk, LiveOk, TicksOk;
    GuardRegistryOk(cfg, s.registry, s.ticks[t].phase.pending.serial);
    GuardLiveOk(cfg, s, t);
    GuardTicksOk(cfg, s, t);
  }

  lemma GuardLiveOk(cfg: Config, s: Sys, t: TickId)
    requires LiveOk(s) && TicksOk(cfg, s) && t in s.ticks && s.ticks[t].phase.Dispatching?
    ensures LiveOk(Sys(DropGuard(s.registry, s.ticks[t].phase.pending.serial), s.ticks - {t}))
  {
    hide Lookup, TickOk;
    assert DispatchOk(s.registry, t, s.ticks[t]);
  }

  lemma GuardTicksOk(cfg: Config, s: Sys, t: TickId)
    requires TicksOk(cfg, s) && t in s.ticks && s.ticks[t].phase.Dispatching?
    ensures TicksOk(cfg, Sys(DropGuard(s.registry, s.ticks[t].phase.pending.serial), s.ticks - {t}))
  {
    hide Lookup, TickOk;
    forall u <- s.ticks - {t} | s.ticks[u].phase.Dispatching?
      ensures DispatchOk(DropGuard(s.registry, s.ticks[t].phase.pending.serial), u, s.ticks[u])
    {
      OtherDispatchSurvives(s, t, u);
    }
  }

  lemma GuardRegistryOk(cfg: Config, c: Registry, serial: nat)
    requires RegistryOk(cfg, c)
    ensures RegistryOk(cfg, DropGuard(c, serial))
  {
  }

  lemma OtherDispatchSurvives(s: Sys, t: TickId, u: TickId)
    requires t in s.ticks && u in s.ticks && t != u
    requires s.ticks[t].phase.Dispatching? && s.ticks[u].phase.Dispatching?
    requires DispatchOk(s.registry, t, s.ticks[t]) && DispatchOk(s.registry, u, s.ticks[u])
    ensures DispatchOk(DropGuard(s.registry, s.ticks[t].phase.pending.serial), u, s.ticks[u])
  {
  }

  lemma AdvanceKeeps(cfg: Config, s: Sys, t: TickId, shutdown: bool)
    requires Inv(cfg, s)
    ensures Inv(cfg, StepAdvance(cfg, s, t, shutdown).0)
  {
    hide Inv;
    if t in s.ticks && !s.ticks[t].phase.Dispatching? {
      TickOfInv(cfg, s, t);
      var s' := StepAdvance(cfg, s, t, shutdown).0;
      if t in s'.ticks {
        TickFrame(cfg, s, t, s'.ticks[t]);
        assert s' == s.(ticks := s.ticks[t := s'.ticks[t]]);
      } else {
        TickRemovalFrame(cfg, s, t);
      }
    }
  }

  lemma OwnerKeeps(cfg: Config, s: Sys, l: Label)
    requires Inv(cfg, s) && LabelOk(l)
    requires l.Add? || l.Remove? || l.Suspend? || l.Reconcile?
    ensures Inv(cfg, StepOwner(cfg, s, l).0)
  {
    hide Inv;
    PruneKeeps(cfg, s);
    var p := s.(registry := Prune(s.registry));
    RegistryOfInv(cfg, p);
    match l
    case Add(schedule) =>
      if AddSection(cfg, s.registry, schedule).1.Ok? {
        AddKeeps(cfg, p, ScheduleEntry(schedule));
      }
    case Remove(id) =>
      if RemoveSection(s.registry, id).1.Ok? {
        RemoveKeeps(cfg, p, IndexOf(p.registry.entries, id).value);
      }
    case Suspend(id, target) =>
      if SuspendSection(s.registry, id, target).1.Ok? {
        var at := IndexOf(p.registry.entries, id).value;
        ActiveIsUnpinned(cfg, p, at);
        assert WellFormed(p.registry.entries[at]);
        UpdateUnpinned(cfg, p, at, p.registry.entries[at].(status := target));
      }
    case Reconcile(id, resolution) =>
      if ResolveSection(s.registry, id, resolution).1.Ok? {
        IdleIsUnpinned(cfg, p, id);
        var at := IndexOf(p.registry.entries, id).value;
        assert WellFormed(p.registry.entries[at]);
        UpdateUnpinned(cfg, p, at, Resolve(p.registry.entries[at], resolution));
      }
  }

  lemma AddKeeps(cfg: Config, s: Sys, e: Entry)
    requires Inv(cfg, s) && WellFormed(e)
    requires |s.registry.entries| < cfg.maxSchedules && IndexOf(s.registry.entries, e.id).None?
    ensures Inv(cfg, s.(registry := s.registry.(entries := s.registry.entries + [e])))
  {
    LookupAfterPush(s.registry.entries, e);
    forall t <- s.ticks | s.ticks[t].phase.Dispatching?
      ensures s.ticks[t].phase.pending.id != e.id
    {
      assert DispatchOk(s.registry, t, s.ticks[t]);
    }
    RegistryFrame(cfg, s, s.registry.(entries := s.registry.entries + [e]));
  }

  lemma RemoveKeeps(cfg: Config, s: Sys, at: nat)
    requires Inv(cfg, s) && at < |s.registry.entries|
    requires s.registry.entries[at].status != ReconciliationRequired
    ensures Inv(cfg, s.(registry := s.registry.(entries := RemoveAt(s.registry.entries, at))))
  {
    LookupAfterRemove(s.registry.entries, at);
    ActiveIsUnpinned(cfg, s, at);
    RegistryFrame(cfg, s, s.registry.(entries := RemoveAt(s.registry.entries, at)));
  }

  lemma IdleIsUnpinned(cfg: Config, s: Sys, id: ScheduleId)
    requires Inv(cfg, s) && !IsRunning(s.registry, id)
    ensures forall t <- s.ticks :: s.ticks[t].phase.Dispatching? ==> s.ticks[t].phase.pending.id != id
  {
    forall t <- s.ticks | s.ticks[t].phase.Dispatching?
      ensures s.ticks[t].phase.pending.id != id
    {
      assert DispatchOk(s.registry, t, s.ticks[t]);
    }
  }

  // Deciding for an entry that is due: it is Active, hence unpinned, and a slot is free.
  lemma DueDecisionKeeps(cfg: Config, s: Sys, t: TickId, k: Tick, input: DecideInput, at: nat)
    requires Inv(cfg, s) && t in s.ticks && s.ticks[t] == k && k.phase.Deciding?
    requires TickOk(cfg, k) && input == InputFor(cfg, t, k, input.shutdown)
    requires IndexOf(s.registry.entries, input.id) == Some(at) && IsDue(s.registry.entries[at], k.now)
    ensures var r := DecideSection(cfg, s.registry, input);
      && r.admission.Decided? && !r.admission.decision.Saturated?
      && Inv(cfg, Sys(r.registry, s.ticks[t := AfterDecision(k, r.admission, r.pending)]))
  {
    hide Inv, RegistryOk;
    PruneKeeps(cfg, s);
    var p := s.(registry := Prune(s.registry));
    PruneTwice(s.registry);
    ActiveIsUnpinned(cfg, s, at);
    SlotIsFree(cfg, s, at);
    RegistryOfInv(cfg, p);
    DueDecisionFacts(cfg, p.registry, k, input, at);
    UnpinnedDecisionKeeps(cfg, p, t, k, input, at);
  }

  lemma UnpinnedDecisionKeeps(cfg: Config, p: Sys, t: TickId, k: Tick, input: DecideInput, at: nat)
    requires Inv(cfg, p) && t in p.ticks && p.ticks[t] == k && k.phase.Deciding?
    requires TickOk(cfg, k) && input == InputFor(cfg, t, k, input.shutdown)
    requires IndexOf(p.registry.entries, input.id) == Some(at) && IsDue(p.registry.entries[at], k.now)
    requires Prune(p.registry) == p.registry && |p.registry.running| < cfg.maxSchedules
    ensures var r := DecideSection(cfg, p.registry, input);
      Inv(cfg, Sys(r.registry, p.ticks[t := AfterDecision(k, r.admission, r.pending)]))
  {
    hide Inv, RegistryOk;
    RegistryOfInv(cfg, p);
    var e' := Decide(cfg, p.registry.entries[at], BudgetFor(cfg, p.registry, input)).0;
    var r := DecideSection(cfg, p.registry, input);
    var k' := AfterDecision(k, r.admission, r.pending);
    ActiveIsUnpinned(cfg, p, at);
    DueDecisionFacts(cfg, p.registry, k, input, at);
    UpdateUnpinned(cfg, p, at, e');
    var u := p.(registry := p.registry.(entries := p.registry.entries[at := e']));
    if r.pending.Some? {
      DispatchKeeps(cfg, u, t, k', at, e');
      assert r.registry == Recorded(u.registry, t, e'.id);
    } else {
      TickFrame(cfg, u, t, k');
      assert r.registry == u.registry;
    }
  }

  // The decision for a due schedule with a free slot: what it leaves in the entry and the tick.
  lemma DueDecisionFacts(cfg: Config, c: Registry, k: Tick, input: DecideInput, at: nat)
    requires RegistryOk(cfg, c) && at < |c.entries| && IsDue(c.entries[at], k.now)
    requires TickOk(cfg, k) && k.phase.Deciding? && input == InputFor(cfg, input.tick, k, input.shutdown)
    requires IndexOf(c.entries, input.id) == Some(at) && |c.running| < cfg.maxSchedules && Prune(c) == c
    ensures var (e', d) := Decide(cfg, c.entries[at], BudgetFor(cfg, c, input));
      var r := DecideSection(cfg, c, input);
      && WellFormed(e') && e'.id == c.entries[at].id && !d.Saturated?
      && TickOk(cfg, AfterDecision(k, r.admission, r.pending))
      && (r.pending.Some? <==> AfterDecision(k, r.admission, r.pending).phase.Dispatching?)
      && (r.pending.Some? ==> Pins(e', r.pending.value, k.now))
  {
    assert WellFormed(c.entries[at]);
    EntryNextFacts(cfg, c.entries[at], DecideNow(BudgetFor(cfg, c, input)));
  }

  lemma PruneTwice(c: Registry)
    ensures Prune(Prune(c)) == Prune(c)
  {
    RetainTwice(c.running, c.live);
  }

  lemma {:induction false} RetainTwice(running: seq<Running>, live: map<nat, TickId>)
    ensures Retain(Retain(running, live), live) == Retain(running, live)
  {
    if running != [] {
      RetainTwice(running[1..], live);
      if running[0].serial in live {
        assert Retain(running, live)[1..] == Retain(running[1..], live);
      }
    }
  }

  lemma ChooseKeeps(cfg: Config, s: Sys, t: TickId, shutdown: bool)
    requires Inv(cfg, s)
    ensures Inv(cfg, StepChoose(cfg, s, t, shutdown).0)
    ensures forall ev <- StepChoose(cfg, s, t, shutdown).1 :: ev.On?
  {
    hide Inv;
    if t in s.ticks && s.ticks[t].phase.Deciding? && s.ticks[t].ids != [] {
      var k := s.ticks[t];
      TickOfInv(cfg, s, t);
      var found := IndexOf(s.registry.entries, k.ids[0]);
      if found.Some? && IsDue(s.registry.entries[found.value], k.now) {
        DueDecisionKeeps(cfg, s, t, k, InputFor(cfg, t, k, shutdown), found.value);
      } else {
        PruneKeeps(cfg, s);
        var r := DecideSection(cfg, s.registry, InputFor(cfg, t, k, shutdown));
        assert r.registry == Prune(s.registry);
        TickFrame(cfg, s.(registry := r.registry), t, AfterDecision(k, r.admission, r.pending));
      }
    }
  }

  // The registry after an attempt for `id` has been recorded for tick t.
  function Recorded(c: Registry, t: TickId, id: ScheduleId): Registry {
    c.(running := c.running + [Running(id, c.serials)],
       live := c.live[c.serials := t],
       tokens := (c.tokens + 1) % U64_LIMIT,
       serials := c.serials + 1)
  }

  lemma RecordedIsOk(cfg: Config, c: Registry, t: TickId, id: ScheduleId)
    requires RegistryOk(cfg, c) && |c.running| < cfg.maxSchedules
    ensures RegistryOk(cfg, Recorded(c, t, id))
    ensures forall r <- Recorded(c, t, id).running :: r in c.running || r == Running(id, c.serials)
    ensures Running(id, c.serials) in Recorded(c, t, id).running
  {
    var r := Recorded(c, t, id).running;
    assert r[|c.running|] == Running(id, c.serials);
    forall i | 0 <= i < |c.running| ensures r[i].serial < c.serials {
      assert c.running[i] in c.running;
    }
  }

  // Recording a dispatch for an unpinned entry that already carries its token.
  lemma DispatchKeeps(cfg: Config, s: Sys, t: TickId, k: Tick, at: nat, e: Entry)
    requires Inv(cfg, s) && t in s.ticks && !s.ticks[t].phase.Dispatching?
    requires at < |s.registry.entries| && s.registry.entries[at] == e
    requires forall u <- s.ticks :: s.ticks[u].phase.Dispatching? ==> s.ticks[u].phase.pending.id != e.id
    requires TickOk(cfg, k) && k.phase.Dispatching?
    requires k.phase.pending.id == e.id && k.phase.pending.serial == s.registry.serials
    requires Pins(e, k.phase.pending, k.now)
    requires |s.registry.running| < cfg.maxSchedules
    ensures Inv(cfg, Sys(Recorded(s.registry, t, e.id), s.ticks[t := k]))
  {
    hide DispatchOk, Pins, TickOk, Recorded, TicksOk, LiveOk, RegistryOk;
    RegistryFacts(cfg, s.registry);
    RecordedIsOk(cfg, s.registry, t, e.id);
    RecordedLiveOk(s, t, k, e.id);
    RecordedTicksOk(cfg, s, t, k, at, e);
  }

  lemma RegistryFacts(cfg: Config, c: Registry)
    requires RegistryOk(cfg, c)
    ensures DistinctIds(c.entries) && forall r <- c.running :: r.serial < c.serials
  {
  }

  lemma OwnDispatchOk(s: Sys, t: TickId, k: Tick, at: nat, e: Entry)
    requires DistinctIds(s.registry.entries)
    requires at < |s.registry.entries| && s.registry.entries[at] == e
    requires k.phase.Dispatching? && k.phase.pending.id == e.id && k.phase.pending.serial == s.registry.serials
    requires Pins(e, k.phase.pending, k.now)
    ensures DispatchOk(Recorded(s.registry, t, e.id), t, k)
  {
    hide Pins;
    LookupIs(s.registry.entries, at);
    assert Recorded(s.registry, t, e.id).running[|s.registry.running|] == Running(e.id, s.registry.serials);
  }

  lemma OtherSerialIsOlder(s: Sys, u: TickId)
    requires LiveOk(s) && u in s.ticks && s.ticks[u].phase.Dispatching? && DispatchOk(s.registry, u, s.ticks[u])
    ensures s.ticks[u].phase.pending.serial != s.registry.serials
  {
    hide Lookup, Pins;
  }

  lemma RecordedTicksOk(cfg: Config, s: Sys, t: TickId, k: Tick, at: nat, e: Entry)
    requires LiveOk(s) && TicksOk(cfg, s) && DistinctIds(s.registry.entries)
    requires t in s.ticks && at < |s.registry.entries| && s.registry.entries[at] == e
    requires forall u <- s.ticks :: s.ticks[u].phase.Dispatching? ==> s.ticks[u].phase.pending.id != e.id
    requires TickOk(cfg, k) && k.phase.Dispatching?
    requires k.phase.pending.id == e.id && k.phase.pending.serial == s.registry.serials
    requires Pins(e, k.phase.pending, k.now)
    ensures TicksOk(cfg, Sys(Recorded(s.registry, t, e.id), s.ticks[t := k]))
  {
    hide DispatchOk, Pins, TickOk, Recorded, LiveOk, DistinctIds;
    OwnDispatchOk(s, t, k, at, e);
    forall u <- s.ticks | u != t && s.ticks[u].phase.Dispatching?
      ensures DispatchOk(Recorded(s.registry, t, e.id), u, s.ticks[u])
    {
      OtherSerialIsOlder(s, u);
      DispatchSurvivesRecording(s, t, u, e.id);
    }
  }

  lemma RecordedLiveOk(s: Sys, t: TickId, k: Tick, id: ScheduleId)
    requires LiveOk(s) && (forall r <- s.registry.running :: r.serial < s.registry.serials)
    requires t in s.ticks && !s.ticks[t].phase.Dispatching?
    requires k.phase.Dispatching? && k.phase.pending.id == id && k.phase.pending.serial == s.registry.serials
    ensures LiveOk(Sys(Recorded(s.registry, t, id), s.ticks[t := k]))
  {
    var c := Recorded(s.registry, t, id);
    assert forall r <- c.running :: r in s.registry.running || r == Running(id, s.registry.serials);
  }

  lemma DispatchSurvivesRecording(s: Sys, t: TickId, u: TickId, id: ScheduleId)
    requires u in s.ticks && s.ticks[u].phase.Dispatching? && DispatchOk(s.registry, u, s.ticks[u])
    requires s.ticks[u].phase.pending.serial != s.registry.serials
    ensures DispatchOk(Recorded(s.registry, t, id), u, s.ticks[u])
  {
  }

  // Giving up the guard of tick t and settling its entry, with the tick set aside: the outcome is
  // never stale.
  lemma SettleSectionKeeps(cfg: Config, s: Sys, t: TickId, outcome: Outcome, limit: nat)
    requires Inv(cfg, s) && t in s.ticks && s.ticks[t].phase.Dispatching?
    ensures var r := SettleSection(cfg, s.registry, s.ticks[t].phase.pending, outcome, s.ticks[t].now, limit);
      r.applied && |r.dues| <= limit && Inv(cfg, Sys(r.registry, s.ticks - {t}))
  {
    var p := s.ticks[t].phase.pending;
    assert DispatchOk(s.registry, t, s.ticks[t]);
    var at := IndexOf(s.registry.entries, p.id).value;
    var e := s.registry.entries[at];
    var a := SettleNow(outcome, p.misfired, s.ticks[t].now, limit);
    assert WellFormed(e);
    EntryNextFacts(cfg, e, a);
    GuardDropKeeps(cfg, s, t);
    UpdateUnpinned(cfg, Sys(DropGuard(s.registry, p.serial), s.ticks - {t}), at, EntryNext(cfg, e, a).0);
  }

  lemma AfterReturnOk(cfg: Config, k: Tick, outcome: Outcome, r: SettleResult)
    requires TickOk(cfg, k) && k.phase.Dispatching?
    requires |r.dues| <= Monus(cfg.maxCatchUp, k.phase.attempted)
    ensures TickOk(cfg, AfterReturn(k, outcome, r)) && !AfterReturn(k, outcome, r).phase.Dispatching?
  {
  }

  lemma ReturnKeeps(cfg: Config, s: Sys, t: TickId, outcome: Outcome)
    requires Inv(cfg, s)
    ensures Inv(cfg, StepReturn(cfg, s, t, outcome).0)
    ensures forall ev <- StepReturn(cfg, s, t, outcome).1 :: ev.On?
  {
    hide Inv;
    if t in s.ticks && s.ticks[t].phase.Dispatching? {
      var k := s.ticks[t];
      TickOfInv(cfg, s, t);
      var limit := Monus(cfg.maxCatchUp, k.phase.attempted);
      SettleSectionKeeps(cfg, s, t, outcome, limit);
      var r := SettleSection(cfg, s.registry, k.phase.pending, outcome, k.now, limit);
      AfterReturnOk(cfg, k, outcome, r);
      TickFrame(cfg, Sys(r.registry, s.ticks - {t}), t, AfterReturn(k, outcome, r));
      assert (s.ticks - {t})[t := AfterReturn(k, outcome, r)] == s.ticks[t := AfterReturn(k, outcome, r)];
    }
  }

  lemma {:induction false} RebuiltIs(cfg: Config, entries: seq<Entry>, policyOf: ScheduleId -> MisfirePolicy)
    requires DistinctIds(entries) && |entries| <= cfg.maxSchedules
    requires forall e <- entries :: WellFormed(e)
    ensures Rebuilt(cfg, entries, policyOf).Some?
    ensures var r := Rebuilt(cfg, entries, policyOf).value;
      && |r| == |entries|
      && forall i :: 0 <= i < |r| ==> r[i] == entries[i].(policy := policyOf(entries[i].id), token := None)
    decreases |entries|
  {
    hide RestoreFrom, Register, WithPolicy, NewSchedule, SnapshotOf, WellFormed;
    if entries != [] {
      var prefix := entries[..|entries| - 1];
      RebuiltIs(cfg, prefix, policyOf);
      var built := Rebuilt(cfg, prefix, policyOf).value;
      var e := entries[|entries| - 1];
      assert e in entries;
      assert forall i :: 0 <= i < |built| ==> built[i].id == entries[i].id;
      RebuiltNext(cfg, built, e, policyOf(e.id));
    }
  }

  lemma RebuiltNext(cfg: Config, built: seq<Entry>, e: Entry, policy: MisfirePolicy)
    requires WellFormed(e) && |built| < cfg.maxSchedules
    requires forall i :: 0 <= i < |built| ==> built[i].id != e.id
    ensures var restored := RestoreFrom(WithPolicy(NewSchedule(e.id, e.plan, 0), policy), SnapshotOf(e));
      && restored.Ok?
      && Register(cfg, built, restored.value) == Ok(built + [e.(policy := policy, token := None)])
  {
    RestoreReproducesEntry(e, policy, 0);
    assert IndexOf(built, e.id).None?;
  }

  lemma RestartKeeps(cfg: Config, s: Sys, policyOf: ScheduleId -> MisfirePolicy)
    requires Inv(cfg, s)
    ensures Inv(cfg, StepRestart(cfg, s, policyOf).0)
    ensures StepRestart(cfg, s, policyOf).1 == []
  {
    RebuiltIs(cfg, s.registry.entries, policyOf);
    var r := Rebuilt(cfg, s.registry.entries, policyOf).value;
    forall e <- r ensures WellFormed(e) {
      var i :| 0 <= i < |r| && r[i] == e;
      assert s.registry.entries[i] in s.registry.entries;
    }
  }

  predicate Impossible(ev: Event) {
    ev.StaleOutcome? || ev.SlotRefused? || ev.RestartRefused?
  }

  lemma StepKeeps(cfg: Config, s: Sys, l: Label)
    requires Inv(cfg, s) && LabelOk(l)
    ensures Inv(cfg, Step(cfg, s, l).0)
    ensures forall ev <- Step(cfg, s, l).1 :: !Impossible(ev)
  {
    hide Inv;
    match l
    case Start(t, now) => StartKeeps(cfg, s, t, now);
    case Choose(t, shutdown) => ChooseKeeps(cfg, s, t, shutdown);
    case Return(t, outcome) => ReturnKeeps(cfg, s, t, outcome);
    case Advance(t, shutdown) => AdvanceKeeps(cfg, s, t, shutdown);
    case Abandon(t) => AbandonKeeps(cfg, s, t);
    case Add(_) | Remove(_) | Suspend(_, _) | Reconcile(_, _) => OwnerKeeps(cfg, s, l);
    case Restart(policyOf) => RestartKeeps(cfg, s, policyOf);
  }

  lemma {:induction false} RunKeeps(cfg: Config, s: Sys, labels: seq<Label>)
    requires Inv(cfg, s) && LabelsOk(labels)
    ensures Inv(cfg, Exec(cfg, s, labels).0)
    ensures forall ev <- Exec(cfg, s, labels).1 :: !Impossible(ev)
    decreases |labels|
  {
    hide Inv, Step;
    if labels != [] {
      StepKeeps(cfg, s, labels[0]);
      RunKeeps(cfg, Step(cfg, s, labels[0]).0, labels[1..]);
    }
  }
}
