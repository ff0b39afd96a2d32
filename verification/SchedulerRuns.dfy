// The scheduler's promises over whole runs: any interleaving of ticks, dropped ticks, owner calls
// and restarts, with any clock readings and any dispatcher outcomes.
module SchedulerRuns {
  import opened Prelude
  import opened ScheduleEntries
  import opened ScheduleHistories
  import opened SchedulerRegistry
  import opened SchedulerMachine
  import opened SchedulerSafety

  // ---------------------------------------------------------------- one schedule's view of a run

  function For(id: ScheduleId, events: seq<Event>): seq<EntryEvent> {
    if events == [] then []
    else
      var rest := For(id, events[1..]);
      if events[0].On? && events[0].id == id then [events[0].event] + rest else rest
  }

  function ForOne(id: ScheduleId, ev: Event): seq<EntryEvent> {
    if ev.On? && ev.id == id then [ev.event] else []
  }

  lemma ForCons(id: ScheduleId, ev: Event, rest: seq<Event>)
    ensures For(id, [ev] + rest) == ForOne(id, ev) + For(id, rest)
  {
    assert ([ev] + rest)[1..] == rest;
    assert [] + For(id, rest) == For(id, rest);
  }

  lemma {:induction false} ForConcat(id: ScheduleId, first: seq<Event>, second: seq<Event>)
    ensures For(id, first + second) == For(id, first) + For(id, second)
    decreases |first|, 1
  {
    if first == [] {
      assert first + second == second;
      assert [] + For(id, second) == For(id, second);
    } else {
      var head, tail := [first[0]], first[1..];
      assert first == head + tail;
      ForConcatStep(id, first[0], tail, second);
    }
  }

  lemma {:induction false} ForConcatStep(id: ScheduleId, ev: Event, tail: seq<Event>, second: seq<Event>)
    ensures For(id, [ev] + tail + second) == For(id, [ev] + tail) + For(id, second)
    decreases |tail| + 1, 0
  {
    hide For, ForOne;
    ForConcat(id, tail, second);
    Associative([ev], tail, second);
    ForCons(id, ev, tail);
    ForCons(id, ev, tail + second);
    Associative(ForOne(id, ev), For(id, tail), For(id, second));
  }

  lemma {:induction false} ForTag(id: ScheduleId, other: ScheduleId, events: seq<EntryEvent>)
    ensures For(id, Tag(other, events)) == if id == other then events else []
    decreases |events|
  {
    if events != [] {
      ForTag(id, other, events[1..]);
      assert Tag(other, events)[1..] == Tag(other, events[1..]);
    }
  }

  lemma {:induction false} ForMembers(id: ScheduleId, events: seq<Event>)
    ensures forall ev :: ev in For(id, events) <==> On(id, ev) in events
  {
    if events != [] {
      ForMembers(id, events[1..]);
      assert events == [events[0]] + events[1..];
    }
  }

  // What one step does to one schedule.
  function ActionFor(cfg: Config, s: Sys, l: Label, id: ScheduleId): EntryAction {
    match l
    case Choose(t, shutdown) =>
      if t in s.ticks && s.ticks[t].phase.Deciding? && s.ticks[t].ids != [] && s.ticks[t].ids[0] == id
         && DecideSection(cfg, s.registry, InputFor(cfg, t, s.ticks[t], shutdown)).admission.Decided?
      then DecideNow(BudgetFor(cfg, Prune(s.registry), InputFor(cfg, t, s.ticks[t], shutdown)))
      else Keep
    case Return(t, outcome) =>
      if t in s.ticks && s.ticks[t].phase.Dispatching? && s.ticks[t].phase.pending.id == id
      then SettleNow(outcome, s.ticks[t].phase.pending.misfired, s.ticks[t].now,
                     Monus(cfg.maxCatchUp, s.ticks[t].phase.attempted))
      else Keep
    case Suspend(other, target) =>
      if other != id || SuspendSection(s.registry, id, target).1.Err? then Keep
      else if target == Paused then Pause else Resume
    case Reconcile(other, resolution) =>
      if other != id || ResolveSection(s.registry, id, resolution).1.Err? then Keep
      else ResolveNow(resolution)
    case Restart(policyOf) => RestoreNow(policyOf(id))
    case Start(_, _) | Advance(_, _) | Abandon(_) | Add(_) | Remove(_) => Keep
  }

  // The step, seen from one schedule that stays registered, is exactly that action.
  ghost predicate Projects(cfg: Config, s: Sys, l: Label, id: ScheduleId) {
    var a := ActionFor(cfg, s, l, id);
    var (s', events) := Step(cfg, s, l);
    && Lookup(s.registry.entries, id).Some?
    && Enabled(Lookup(s.registry.entries, id).value, a)
    && Lookup(s'.registry.entries, id) == Some(EntryNext(cfg, Lookup(s.registry.entries, id).value, a).0)
    && For(id, events) == EntryNext(cfg, Lookup(s.registry.entries, id).value, a).1
  }

  lemma ChooseProjects(cfg: Config, s: Sys, t: TickId, shutdown: bool, id: ScheduleId)
    requires Inv(cfg, s) && Lookup(s.registry.entries, id).Some?
    ensures Projects(cfg, s, Choose(t, shutdown), id)
  {
    if t in s.ticks && s.ticks[t].phase.Deciding? && s.ticks[t].ids != []
       && DecideSection(cfg, s.registry, InputFor(cfg, t, s.ticks[t], shutdown)).admission.Decided? {
      DecidedProjects(cfg, s, t, shutdown, id);
    }
  }

  lemma DecidedProjects(cfg: Config, s: Sys, t: TickId, shutdown: bool, id: ScheduleId)
    requires Inv(cfg, s) && Lookup(s.registry.entries, id).Some?
    requires t in s.ticks && s.ticks[t].phase.Deciding? && s.ticks[t].ids != []
    requires DecideSection(cfg, s.registry, InputFor(cfg, t, s.ticks[t], shutdown)).admission.Decided?
    ensures Projects(cfg, s, Choose(t, shutdown), id)
  {
    var k := s.ticks[t];
    var input := InputFor(cfg, t, k, shutdown);
    var at := IndexOf(s.registry.entries, input.id).value;
    var e := s.registry.entries[at];
    var budget := BudgetFor(cfg, Prune(s.registry), input);
    var (e', d) := Decide(cfg, e, budget);
    assert !d.Saturated? by {
      if IsDue(e, k.now) {
        ActiveIsUnpinned(cfg, s, at);
        SlotIsFree(cfg, s, at);
      }
    }
    LookupAfterUpdate(s.registry.entries, at, e');
    ForTag(id, input.id, DecisionEvents(d, k.now));
    var (s', events) := StepChoose(cfg, s, t, shutdown);
    assert s'.registry.entries == s.registry.entries[at := e'];
    assert events == Tag(input.id, DecisionEvents(d, k.now));
  }

  lemma ReturnProjects(cfg: Config, s: Sys, t: TickId, outcome: Outcome, id: ScheduleId)
    requires Inv(cfg, s) && Lookup(s.registry.entries, id).Some?
    ensures Projects(cfg, s, Return(t, outcome), id)
  {
    if t in s.ticks && s.ticks[t].phase.Dispatching? {
      var k := s.ticks[t];
      var p := k.phase.pending;
      var limit := Monus(cfg.maxCatchUp, k.phase.attempted);
      assert DispatchOk(s.registry, t, k);
      var at := IndexOf(s.registry.entries, p.id).value;
      var e := s.registry.entries[at];
      assert WellFormed(e);
      EntryNextFacts(cfg, e, SettleNow(outcome, p.misfired, k.now, limit));
      var (e', dues) := Settle(cfg, e, outcome, p.misfired, k.now, limit);
      LookupAfterUpdate(s.registry.entries, at, e');
      ForTag(id, p.id, [Settled(p.due, outcome)] + Drops(dues));
    }
  }

  lemma AddLookup(cfg: Config, c: Registry, schedule: Schedule, id: ScheduleId)
    requires RegistryOk(cfg, c) && Lookup(c.entries, id).Some?
    ensures Lookup(AddSection(cfg, c, schedule).0.entries, id) == Lookup(c.entries, id)
  {
    if AddSection(cfg, c, schedule).1.Ok? { LookupAfterPush(c.entries, ScheduleEntry(schedule)); }
  }

  lemma RemoveLookup(cfg: Config, c: Registry, other: ScheduleId, id: ScheduleId)
    requires RegistryOk(cfg, c) && Lookup(c.entries, id).Some?
    requires RemoveSection(c, other).1.Ok? ==> other != id
    ensures Lookup(RemoveSection(c, other).0.entries, id) == Lookup(c.entries, id)
  {
    if RemoveSection(c, other).1.Ok? { LookupAfterRemove(c.entries, IndexOf(c.entries, other).value); }
  }

  lemma MembershipProjects(cfg: Config, s: Sys, l: Label, id: ScheduleId)
    requires RegistryOk(cfg, s.registry) && Lookup(s.registry.entries, id).Some? && (l.Add? || l.Remove?)
    requires Removed(id) !in Step(cfg, s, l).1
    ensures Projects(cfg, s, l, id)
  {
    hide RegistryOk, AddSection, RemoveSection, Lookup;
    var events := Step(cfg, s, l).1;
    assert |events| <= 1 && (|events| == 1 ==> events[1..] == [] && For(id, events[1..]) == []);
    match l
    case Add(schedule) => AddLookup(cfg, s.registry, schedule, id);
    case Remove(other) =>
      if RemoveSection(s.registry, other).1.Ok? { assert Removed(other) in events; }
      RemoveLookup(cfg, s.registry, other, id);
  }

  lemma SuspendProjects(cfg: Config, s: Sys, l: Label, id: ScheduleId)
    requires RegistryOk(cfg, s.registry) && LabelOk(l) && Lookup(s.registry.entries, id).Some? && l.Suspend?
    ensures Projects(cfg, s, l, id)
  {
    var entries := s.registry.entries;
    if SuspendSection(s.registry, l.id, l.target).1.Ok? {
      var at := IndexOf(entries, l.id).value;
      LookupAfterUpdate(entries, at, entries[at].(status := l.target));
    }
  }

  // What a resolution does to the registry, seen from one schedule.
  lemma ResolveLookup(cfg: Config, c: Registry, other: ScheduleId, resolution: Resolution, id: ScheduleId)
    requires RegistryOk(cfg, c) && Lookup(c.entries, id).Some?
    ensures var (after, r) := ResolveSection(c, other, resolution);
      var e := Lookup(c.entries, id).value;
      && (r.Err? || other != id ==> Lookup(after.entries, id) == Some(e))
      && (r.Ok? && other == id ==>
            && e.status == ReconciliationRequired && e.next.Some?
            && Lookup(after.entries, id) == Some(Resolve(e, resolution)))
  {
    var entries := c.entries;
    if ResolveSection(c, other, resolution).1.Ok? {
      var at := IndexOf(entries, other).value;
      assert WellFormed(entries[at]);
      LookupAfterUpdate(entries, at, Resolve(entries[at], resolution));
    }
  }

  lemma ReconcileProjects(cfg: Config, s: Sys, l: Label, id: ScheduleId)
    requires RegistryOk(cfg, s.registry) && Lookup(s.registry.entries, id).Some? && l.Reconcile?
    ensures Projects(cfg, s, l, id)
  {
    hide RegistryOk, ResolveSection, Lookup, Resolve;
    ResolveLookup(cfg, s.registry, l.id, l.resolution, id);
    var events := Step(cfg, s, l).1;
    assert |events| <= 1 && (|events| == 1 ==> events[1..] == [] && For(id, events[1..]) == []);
  }

  lemma RebuiltLookup(cfg: Config, entries: seq<Entry>, built: seq<Entry>, policyOf: ScheduleId -> MisfirePolicy,
                      id: ScheduleId)
    requires DistinctIds(entries) && Lookup(entries, id).Some? && |built| == |entries|
    requires forall i :: 0 <= i < |built| ==> built[i] == entries[i].(policy := policyOf(entries[i].id), token := None)
    ensures Lookup(built, id) == Some(Lookup(entries, id).value.(policy := policyOf(id), token := None))
  {
    assert forall i :: 0 <= i < |built| ==> built[i].id == entries[i].id;
    LookupIs(built, IndexOf(entries, id).value);
  }

  lemma RestartProjects(cfg: Config, s: Sys, policyOf: ScheduleId -> MisfirePolicy, id: ScheduleId)
    requires RegistryOk(cfg, s.registry) && Lookup(s.registry.entries, id).Some?
    ensures Projects(cfg, s, Restart(policyOf), id)
  {
    hide Lookup, Rebuilt;
    RebuiltIs(cfg, s.registry.entries, policyOf);
    RebuiltLookup(cfg, s.registry.entries, Rebuilt(cfg, s.registry.entries, policyOf).value, policyOf, id);
  }

  lemma StepProjects(cfg: Config, s: Sys, l: Label, id: ScheduleId)
    requires Inv(cfg, s) && LabelOk(l) && Lookup(s.registry.entries, id).Some?
    requires Removed(id) !in Step(cfg, s, l).1
    ensures Projects(cfg, s, l, id)
  {
    hide Projects;
    match l
    case Start(_, _) | Advance(_, _) | Abandon(_) => QuietProjects(cfg, s, l, id);
    case Choose(t, shutdown) => ChooseProjects(cfg, s, t, shutdown, id);
    case Return(t, outcome) => ReturnProjects(cfg, s, t, outcome, id);
    case Add(_) | Remove(_) => MembershipProjects(cfg, s, l, id);
    case Suspend(_, _) => SuspendProjects(cfg, s, l, id);
    case Reconcile(_, _) => ReconcileProjects(cfg, s, l, id);
    case Restart(policyOf) => RestartProjects(cfg, s, policyOf, id);
  }

  lemma QuietProjects(cfg: Config, s: Sys, l: Label, id: ScheduleId)
    requires Lookup(s.registry.entries, id).Some? && (l.Start? || l.Advance? || l.Abandon?)
    ensures Projects(cfg, s, l, id)
  {
  }

  function Life(cfg: Config, s: Sys, labels: seq<Label>, id: ScheduleId): seq<EntryAction>
    decreases |labels|
  {
    if labels == [] then []
    else [ActionFor(cfg, s, labels[0], id)] + Life(cfg, Step(cfg, s, labels[0]).0, labels[1..], id)
  }

  // A run, seen from one schedule that stays registered, is a life of that schedule.
  lemma {:induction false} RunProjects(cfg: Config, s: Sys, labels: seq<Label>, id: ScheduleId)
    requires Inv(cfg, s) && LabelsOk(labels) && Lookup(s.registry.entries, id).Some?
    requires Removed(id) !in Exec(cfg, s, labels).1
    ensures var e := Lookup(s.registry.entries, id).value;
      var life := Life(cfg, s, labels, id);
      var (s', events) := Exec(cfg, s, labels);
      && AllEnabled(cfg, e, life)
      && Lookup(s'.registry.entries, id) == Some(EntryRun(cfg, e, life).0)
      && For(id, events) == EntryRun(cfg, e, life).1
    decreases |labels|
  {
    if labels != [] {
      var (s1, first) := Step(cfg, s, labels[0]);
      var rest := Exec(cfg, s1, labels[1..]).1;
      assert forall ev :: ev in first || ev in rest ==> ev in first + rest;
      StepProjects(cfg, s, labels[0], id);
      StepKeeps(cfg, s, labels[0]);
      RunProjects(cfg, s1, labels[1..], id);
      ForConcat(id, first, rest);
      var life := Life(cfg, s, labels, id);
      assert life[1..] == Life(cfg, s1, labels[1..], id);
    }
  }

  // ---------------------------------------------------------------- safety

  ghost predicate Initial(cfg: Config, s: Sys) {
    && s.ticks == map[]
    && s.registry == Started(s.registry.entries, s.registry.serials)
    && RegistryOk(cfg, s.registry)
  }

  // Registering definitions one after the other, as the builder does.
  function RegisterAll(cfg: Config, entries: seq<Entry>, schedules: seq<Schedule>)
    : Result<seq<Entry>, RegistrationError>
    decreases |schedules|
  {
    if schedules == [] then Ok(entries)
    else
      match Register(cfg, entries, schedules[0])
      case Err(error) => Err(error)
      case Ok(longer) => RegisterAll(cfg, longer, schedules[1..])
  }

  // Whatever the builder accepts is a state that runs start from.
  lemma {:induction false} BuiltIsInitial(cfg: Config, entries: seq<Entry>, schedules: seq<Schedule>)
    requires RegistryOk(cfg, Started(entries, 0))
    requires forall s <- schedules :: WellFormed(ScheduleEntry(s))
    ensures var built := RegisterAll(cfg, entries, schedules);
      built.Ok? ==> Initial(cfg, Sys(Started(built.value, 0), map[]))
    decreases |schedules|
  {
    if schedules != [] {
      var longer := Register(cfg, entries, schedules[0]);
      if longer.Ok? {
        assert schedules[0] in schedules;
        RegisterKeeps(cfg, entries, schedules[0]);
        BuiltIsInitial(cfg, longer.value, schedules[1..]);
      }
    }
  }

  lemma InitialIsOk(cfg: Config, s: Sys)
    requires Initial(cfg, s)
    ensures Inv(cfg, s)
  {
  }

  lemma ActiveIsIdle(cfg: Config, s: Sys, at: nat)
    requires Inv(cfg, s) && at < |s.registry.entries|
    requires s.registry.entries[at].status == Active
    ensures !IsRunning(s.registry, s.registry.entries[at].id)
  {
    ActiveIsUnpinned(cfg, s, at);
    forall r <- s.registry.running | r.serial in s.registry.live ensures r.id != s.registry.entries[at].id {
      var t := LiveRecord(cfg, s, r);
    }
  }

  // ---------------------------------------------------------------- accounting

  // From any reachable state, while a schedule stays registered, the occurrences consumed by
  // confirmations, dropped misfires and owner confirmations are exactly the plan's successive
  // occurrences from the old cursor, in order, and they lead to the new cursor.
  lemma NoOccurrenceIsLostFrom(cfg: Config, s: Sys, labels: seq<Label>, id: ScheduleId)
    requires Inv(cfg, s) && LabelsOk(labels) && Lookup(s.registry.entries, id).Some?
    requires Removed(id) !in Exec(cfg, s, labels).1
    ensures var (s', events) := Exec(cfg, s, labels);
      var e := Lookup(s.registry.entries, id).value;
      var dues := Consumed(For(id, events));
      && Lookup(s'.registry.entries, id).Some?
      && var e' := Lookup(s'.registry.entries, id).value;
      && e'.plan == e.plan
      && Consumes(e.plan, e.next, dues, e'.next)
      && e'.next == Iterate(e.plan, e.next, |dues|)
      && forall i, j :: 0 <= i < j < |dues| ==> dues[i] < dues[j]
  {
    RunProjects(cfg, s, labels, id);
    var e := Lookup(s.registry.entries, id).value;
    var life := Life(cfg, s, labels, id);
    CursorIsAccountedFor(cfg, e, life);
    ConsumesIterates(e.plan, e.next, Consumed(EntryRun(cfg, e, life).1), EntryRun(cfg, e, life).0.next);
  }

  // ---------------------------------------------------------------- repeated dispatch

  lemma OnlyChoosingIssues(cfg: Config, s: Sys, l: Label, id: ScheduleId, ev: EntryEvent)
    requires ev.Issued? && On(id, ev) in Step(cfg, s, l).1
    ensures l.Choose? && Lookup(s.registry.entries, id).Some?
  {
    match l
    case Choose(t, shutdown) =>
    case Return(t, outcome) =>
    case Add(_) | Remove(_) | Suspend(_, _) | Reconcile(_, _) =>
    case Restart(policyOf) =>
    case Start(_, _) | Advance(_, _) | Abandon(_) =>
  }

  // The state a step leaves behind for the schedule it issues an occurrence of.
  lemma AfterIssue(cfg: Config, s: Sys, l: Label, id: ScheduleId, due: Instant, now: Instant, misfired: bool)
    requires Inv(cfg, s) && LabelOk(l)
    requires On(id, Issued(due, now, misfired)) in Step(cfg, s, l).1
    ensures var s1 := Step(cfg, s, l).0;
      && Lookup(s1.registry.entries, id).Some?
      && var e := Lookup(s1.registry.entries, id).value;
      && e.status == ReconciliationRequired && e.next == Some(due)
      && e.boundary == DispatchBoundary(e.policy, misfired, now)
  {
    OnlyChoosingIssues(cfg, s, l, id, Issued(due, now, misfired));
    ChooseProjects(cfg, s, l.t, l.shutdown, id);
    ForMembers(id, Step(cfg, s, l).1);
    IssuedEntry(cfg, Lookup(s.registry.entries, id).value, ActionFor(cfg, s, l, id), due, now, misfired);
  }

  lemma IssuedEntry(cfg: Config, e: Entry, a: EntryAction, due: Instant, now: Instant, misfired: bool)
    requires Enabled(e, a) && Issued(due, now, misfired) in EntryNext(cfg, e, a).1
    ensures var r := EntryNext(cfg, e, a).0;
      && r.status == ReconciliationRequired && r.next == Some(due)
      && r.boundary == DispatchBoundary(r.policy, misfired, now)
  {
  }

  lemma UnresolvedIsNotRemoved(cfg: Config, s: Sys, l: Label, id: ScheduleId)
    requires Lookup(s.registry.entries, id).Some?
    requires Lookup(s.registry.entries, id).value.status == ReconciliationRequired
    ensures Removed(id) !in Step(cfg, s, l).1
  {
    match l
    case Remove(other) =>
    case Choose(_, _) =>
    case Return(_, _) =>
    case Add(_) | Suspend(_, _) | Reconcile(_, _) =>
    case Start(_, _) | Advance(_, _) | Abandon(_) | Restart(_) =>
  }

  // One step while an issued occurrence is unresolved.
  lemma UnresolvedStep(cfg: Config, s: Sys, l: Label, id: ScheduleId)
    requires Inv(cfg, s) && LabelOk(l)
    requires Lookup(s.registry.entries, id).Some?
    requires Lookup(s.registry.entries, id).value.status == ReconciliationRequired
    requires forall ev :: On(id, ev) in Step(cfg, s, l).1 ==> !Settles(ev)
    ensures Lookup(Step(cfg, s, l).0.registry.entries, id).Some?
    ensures Lookup(Step(cfg, s, l).0.registry.entries, id).value.status == ReconciliationRequired
  {
    UnresolvedIsNotRemoved(cfg, s, l, id);
    StepProjects(cfg, s, l, id);
    ForMembers(id, Step(cfg, s, l).1);
    StepUnresolved(cfg, Lookup(s.registry.entries, id).value, ActionFor(cfg, s, l, id));
  }

  // Until the issued occurrence is settled, the schedule cannot be removed.
  lemma {:induction false} UnresolvedIsPinned(cfg: Config, s: Sys, labels: seq<Label>, id: ScheduleId)
    requires Inv(cfg, s) && LabelsOk(labels)
    requires Lookup(s.registry.entries, id).Some?
    requires Lookup(s.registry.entries, id).value.status == ReconciliationRequired
    requires forall ev :: On(id, ev) in Exec(cfg, s, labels).1 ==> !Settles(ev)
    ensures Removed(id) !in Exec(cfg, s, labels).1
    decreases |labels|
  {
    if labels != [] {
      var (s1, first) := Step(cfg, s, labels[0]);
      var rest := Exec(cfg, s1, labels[1..]).1;
      assert forall ev :: ev in first || ev in rest ==> ev in first + rest;
      UnresolvedIsNotRemoved(cfg, s, labels[0], id);
      UnresolvedStep(cfg, s, labels[0], id);
      StepKeeps(cfg, s, labels[0]);
      UnresolvedIsPinned(cfg, s1, labels[1..], id);
    }
  }

  // After any reachable state issues an occurrence, in every continuation: nothing is issued for
  // that schedule before a settlement, and the same occurrence is issued again only after it was
  // reported not started or the owner asked for its retry.
  lemma SecondDispatchNeedsCauseFrom(cfg: Config, s: Sys, l: Label, labels: seq<Label>,
                                     id: ScheduleId, due: Instant, now: Instant, misfired: bool)
    requires Inv(cfg, s) && LabelOk(l) && LabelsOk(labels)
    requires On(id, Issued(due, now, misfired)) in Step(cfg, s, l).1
    ensures var events := Exec(cfg, Step(cfg, s, l).0, labels).1;
      && ((forall ev :: On(id, ev) in events ==> !Settles(ev))
          ==> forall ev :: On(id, ev) in events ==> !ev.Issued?)
      && (Removed(id) !in events && (forall ev :: On(id, ev) in events ==> !Releases(ev, due))
          ==> forall ev :: On(id, ev) in events && ev.Issued? ==> due < ev.due)
  {
    var s1 := Step(cfg, s, l).0;
    var events := Exec(cfg, s1, labels).1;
    AfterIssue(cfg, s, l, id, due, now, misfired);
    StepKeeps(cfg, s, l);
    var e := Lookup(s1.registry.entries, id).value;
    var life := Life(cfg, s1, labels, id);
    ForMembers(id, events);
    if forall ev :: On(id, ev) in events ==> !Settles(ev) {
      UnresolvedIsPinned(cfg, s1, labels, id);
      RunProjects(cfg, s1, labels, id);
      UnresolvedBlocks(cfg, e, life);
    }
    if Removed(id) !in events && forall ev :: On(id, ev) in events ==> !Releases(ev, due) {
      RunProjects(cfg, s1, labels, id);
      ReissueNeedsRelease(cfg, e, due, life);
    }
  }

  // ---------------------------------------------------------------- abandoned backlog

  ghost predicate RestartsUnder(labels: seq<Label>, id: ScheduleId, policy: MisfirePolicy) {
    forall i :: 0 <= i < |labels| && labels[i].Restart? ==> labels[i].policyOf(id) == policy
  }

  lemma {:induction false} LifeKeepsPolicy(cfg: Config, s: Sys, labels: seq<Label>, id: ScheduleId,
                                           policy: MisfirePolicy)
    requires RestartsUnder(labels, id, policy)
    ensures KeepsPolicy(Life(cfg, s, labels, id), policy)
    decreases |labels|
  {
    if labels != [] {
      LifeKeepsPolicy(cfg, Step(cfg, s, labels[0]).0, labels[1..], id, policy);
    }
  }

  predicate Confirms(ev: EntryEvent) {
    ev.OwnerConfirmed? || (ev.Settled? && ev.outcome == Confirmed)
  }

  lemma AbandonedRun(cfg: Config, s: Sys, labels: seq<Label>, id: ScheduleId, now: Instant)
    requires Inv(cfg, s) && LabelsOk(labels) && Lookup(s.registry.entries, id).Some?
    requires var e := Lookup(s.registry.entries, id).value; e.policy == FireOnce && AbandonedThrough(cfg, e, now)
    requires RestartsUnder(labels, id, FireOnce) && Removed(id) !in Exec(cfg, s, labels).1
    ensures forall ev :: On(id, ev) in Exec(cfg, s, labels).1 && ev.Issued? ==> !IsOverdue(now, ev.due, cfg.grace)
  {
    RunProjects(cfg, s, labels, id);
    LifeKeepsPolicy(cfg, s, labels, id, FireOnce);
    AbandonedStaysAbandoned(cfg, Lookup(s.registry.entries, id).value, now, Life(cfg, s, labels, id));
    ForMembers(id, Exec(cfg, s, labels).1);
  }

  lemma WaitingKeepsBoundary(cfg: Config, s: Sys, waiting: seq<Label>, id: ScheduleId, now: Instant)
    requires Inv(cfg, s) && LabelsOk(waiting) && Lookup(s.registry.entries, id).Some?
    requires var e := Lookup(s.registry.entries, id).value;
      e.status == ReconciliationRequired && e.policy == FireOnce && e.boundary == Some(now)
    requires forall ev :: On(id, ev) in Exec(cfg, s, waiting).1 ==> !Settles(ev)
    requires RestartsUnder(waiting, id, FireOnce)
    ensures var s2 := Exec(cfg, s, waiting).0;
      && Lookup(s2.registry.entries, id).Some?
      && var e := Lookup(s2.registry.entries, id).value;
      && e.status == ReconciliationRequired && e.policy == FireOnce && e.boundary == Some(now)
  {
    UnresolvedIsPinned(cfg, s, waiting, id);
    RunProjects(cfg, s, waiting, id);
    ForMembers(id, Exec(cfg, s, waiting).1);
    LifeKeepsPolicy(cfg, s, waiting, id, FireOnce);
    UnresolvedBlocks(cfg, Lookup(s.registry.entries, id).value, Life(cfg, s, waiting, id));
  }

  lemma ConfirmationIsAbandonment(cfg: Config, s: Sys, confirm: Label, id: ScheduleId, now: Instant)
    requires Inv(cfg, s) && LabelOk(confirm) && Lookup(s.registry.entries, id).Some?
    requires var e := Lookup(s.registry.entries, id).value;
      e.status == ReconciliationRequired && e.policy == FireOnce && e.boundary == Some(now)
    requires exists ev :: On(id, ev) in Step(cfg, s, confirm).1 && Confirms(ev)
    ensures var s3 := Step(cfg, s, confirm).0;
      && Lookup(s3.registry.entries, id).Some?
      && var e := Lookup(s3.registry.entries, id).value;
      && e.policy == FireOnce && AbandonedThrough(cfg, e, now)
  {
    var e := Lookup(s.registry.entries, id).value;
    assert e in s.registry.entries;
    UnresolvedIsNotRemoved(cfg, s, confirm, id);
    StepProjects(cfg, s, confirm, id);
    ForMembers(id, Step(cfg, s, confirm).1);
    var ev :| On(id, ev) in Step(cfg, s, confirm).1 && Confirms(ev);
    ConfirmingAction(cfg, e, ActionFor(cfg, s, confirm, id), ev);
    EntryNextFacts(cfg, e, ActionFor(cfg, s, confirm, id));
    ConfirmationAbandons(cfg, e, now, ActionFor(cfg, s, confirm, id));
  }

  lemma ConfirmingAction(cfg: Config, e: Entry, a: EntryAction, ev: EntryEvent)
    requires Enabled(e, a) && ev in EntryNext(cfg, e, a).1 && Confirms(ev)
    ensures a == ResolveNow(ResolveConfirmed) || (a.SettleNow? && a.outcome == Confirmed)
  {
  }
}
