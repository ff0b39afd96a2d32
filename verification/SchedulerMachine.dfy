// Any number of ticks, owner calls, abandoned ticks and restarts over one registry, as atomic
// steps: one per lock-held section, plus "dispatch returned", "tick dropped" and "restarted".
module SchedulerMachine {
  import opened Prelude
  import opened ScheduleEntries
  import opened SchedulerRegistry

  datatype Report = Report(
    examined: nat, dispatched: nat, notStarted: nat, reconciliation: nat, skipped: nat, saturated: bool)

  function EmptyReport(): Report {
    Report(0, 0, 0, 0, 0, false)
  }

  // Where a tick stands between two lock-held sections. Outside Ready it works on ids[0].
  datatype Phase =
    | Ready
    | Deciding(attempted: nat, examined: bool)
    | Dispatching(attempted: nat, pending: Pending)
    | Closing(attempted: nat)
    | Leaving

  datatype Tick = Tick(now: Instant, ids: seq<ScheduleId>, phase: Phase, remaining: nat, report: Report)

  datatype Sys = Sys(registry: Registry, ticks: map<TickId, Tick>)

  datatype Label =
    | Start(t: TickId, now: Instant)
    | Choose(t: TickId, shutdown: bool)
    | Return(t: TickId, outcome: Outcome)
    | Advance(t: TickId, shutdown: bool)
    | Abandon(t: TickId)
    | Add(schedule: Schedule)
    | Remove(id: ScheduleId)
    | Suspend(id: ScheduleId, target: Status)
    | Reconcile(id: ScheduleId, resolution: Resolution)
    | Restart(policyOf: ScheduleId -> MisfirePolicy)

  datatype Event =
    | On(id: ScheduleId, event: EntryEvent)
    | Added(id: ScheduleId)
    | Removed(id: ScheduleId)
    | Reported(t: TickId, report: Report)
    | StaleOutcome(id: ScheduleId)
    | SlotRefused(id: ScheduleId)
    | RestartRefused

  function Tag(id: ScheduleId, events: seq<EntryEvent>): (r: seq<Event>)
    ensures |r| == |events| && forall i :: 0 <= i < |r| ==> r[i] == On(id, events[i])
  {
    seq(|events|, i requires 0 <= i < |events| => On(id, events[i]))
  }

  // ---------------------------------------------------------------- steps

  function IdsOf(entries: seq<Entry>): (ids: seq<ScheduleId>)
    ensures |ids| == |entries| && forall i :: 0 <= i < |ids| ==> ids[i] == entries[i].id
  {
    seq(|entries|, i requires 0 <= i < |entries| => entries[i].id)
  }

  function StepStart(cfg: Config, s: Sys, t: TickId, now: Instant): (Sys, seq<Event>) {
    if t in s.ticks then (s, [])
    else (s.(ticks := s.ticks[t := Tick(now, IdsOf(s.registry.entries), Ready, cfg.maxDispatches, EmptyReport())]), [])
  }

  function InputFor(cfg: Config, t: TickId, k: Tick, shutdown: bool): DecideInput
    requires k.phase.Deciding? && k.ids != []
  {
    DecideInput(t, k.ids[0], k.now, shutdown,
                k.remaining > 0 && k.phase.attempted < cfg.maxCatchUp, k.phase.examined)
  }

  // The tick after its decision section: counters, budget and next phase.
  function AfterDecision(k: Tick, a: Admission, pending: Option<Pending>): Tick
    requires k.phase.Deciding?
  {
    match a
    case Absent => k.(phase := Leaving)
    case NotExamined => k.(phase := Leaving)
    case Decided(d) =>
      var report := if k.phase.examined then k.report else k.report.(examined := k.report.examined + 1);
      match d
      case Stop => k.(phase := Closing(k.phase.attempted), report := report)
      case Saturated => k.(phase := Leaving, report := report.(saturated := true))
      case Skipped(_) =>
        k.(phase := Deciding(k.phase.attempted + 1, true), report := report.(skipped := report.skipped + 1))
      case Dispatch(_, _) =>
        if pending.None? then k
        else k.(phase := Dispatching(k.phase.attempted + 1, pending.value),
                remaining := Monus(k.remaining, 1), report := report)
  }

  function StepChoose(cfg: Config, s: Sys, t: TickId, shutdown: bool): (Sys, seq<Event>) {
    if t !in s.ticks || !s.ticks[t].phase.Deciding? || s.ticks[t].ids == [] then (s, [])
    else
      var k := s.ticks[t];
      var r := DecideSection(cfg, s.registry, InputFor(cfg, t, k, shutdown));
      (Sys(r.registry, s.ticks[t := AfterDecision(k, r.admission, r.pending)]),
       match r.admission
       case Absent | NotExamined => []
       case Decided(d) =>
         if d.Saturated? then [SlotRefused(k.ids[0])] else Tag(k.ids[0], DecisionEvents(d, k.now)))
  }

  function CountOutcome(report: Report, outcome: Outcome): Report {
    match outcome
    case Confirmed => report.(dispatched := report.dispatched + 1)
    case NotStarted => report.(notStarted := report.notStarted + 1)
    case Unknown => report.(reconciliation := report.reconciliation + 1)
  }

  // The tick after the section that applies an outcome; a stale outcome ends its schedule.
  function AfterReturn(k: Tick, outcome: Outcome, r: SettleResult): Tick
    requires k.phase.Dispatching?
  {
    var report := CountOutcome(k.report, outcome);
    if !r.applied then k.(phase := Leaving, report := report)
    else
      var attempted := k.phase.attempted + |r.dues|;
      k.(phase := if outcome == Confirmed then Deciding(attempted, true) else Closing(attempted),
         report := report.(skipped := report.skipped + |r.dues|))
  }

  function StepReturn(cfg: Config, s: Sys, t: TickId, outcome: Outcome): (Sys, seq<Event>) {
    if t !in s.ticks || !s.ticks[t].phase.Dispatching? then (s, [])
    else
      var k := s.ticks[t];
      var p := k.phase.pending;
      var r := SettleSection(cfg, s.registry, p, outcome, k.now, Monus(cfg.maxCatchUp, k.phase.attempted));
      (Sys(r.registry, s.ticks[t := AfterReturn(k, outcome, r)]),
       if r.applied then Tag(p.id, [Settled(p.due, outcome)] + Drops(r.dues)) else [StaleOutcome(p.id)])
  }

  function StepAdvance(cfg: Config, s: Sys, t: TickId, shutdown: bool): (Sys, seq<Event>) {
    if t !in s.ticks then (s, [])
    else
      var k := s.ticks[t];
      match k.phase
      case Ready =>
        if k.ids == [] || shutdown then (s.(ticks := s.ticks - {t}), [Reported(t, k.report)])
        else (s.(ticks := s.ticks[t := k.(phase := Deciding(0, false))]), [])
      case Closing(attempted) =>
        if k.ids == [] then (s, [])
        else
          var late := ClosingSaturates(cfg, s.registry, k.ids[0], k.now, attempted);
          var report := k.report.(saturated := k.report.saturated || late);
          (s.(ticks := s.ticks[t := k.(phase := Leaving, report := report)]), [])
      case Leaving =>
        if k.remaining == 0 then
          var late := EntriesHaveDue(s.registry.entries, k.now);
          (s.(ticks := s.ticks - {t}), [Reported(t, k.report.(saturated := k.report.saturated || late))])
        else if k.ids == [] then (s, [])
        else (s.(ticks := s.ticks[t := k.(phase := Ready, ids := k.ids[1..])]), [])
      case Deciding(_, _) | Dispatching(_, _) => (s, [])
  }

  // Dropping a tick future runs the guard of its outstanding dispatch, if it has one.
  function StepAbandon(s: Sys, t: TickId): (Sys, seq<Event>) {
    if t !in s.ticks then (s, [])
    else
      var registry := if s.ticks[t].phase.Dispatching?
        then DropGuard(s.registry, s.ticks[t].phase.pending.serial) else s.registry;
      (Sys(registry, s.ticks - {t}), [])
  }

  function StepOwner(cfg: Config, s: Sys, l: Label): (Sys, seq<Event>)
    requires l.Add? || l.Remove? || l.Suspend? || l.Reconcile?
  {
    match l
    case Add(schedule) =>
      var (c, r) := AddSection(cfg, s.registry, schedule);
      (s.(registry := c), if r.Ok? then [Added(schedule.id)] else [])
    case Remove(id) =>
      var (c, r) := RemoveSection(s.registry, id);
      (s.(registry := c), if r.Ok? then [Removed(id)] else [])
    case Suspend(id, target) =>
      var (c, r) := SuspendSection(s.registry, id, target);
      (s.(registry := c), [])
    case Reconcile(id, resolution) =>
      var (c, r) := ResolveSection(s.registry, id, resolution);
      (s.(registry := c),
       if r.Err? then []
       else
         match Lookup(s.registry.entries, id)
         case Some(e) =>
           if e.next.None? then []
           else if resolution == ResolveConfirmed then [On(id, OwnerConfirmed(e.next.value))]
           else [On(id, OwnerRetry(e.next.value))]
         case None => [])
  }

  // A new process registers, in order, each definition restored from its last snapshot.
  function Rebuilt(cfg: Config, entries: seq<Entry>, policyOf: ScheduleId -> MisfirePolicy): Option<seq<Entry>>
    decreases |entries|
  {
    if entries == [] then Some([])
    else
      var e := entries[|entries| - 1];
      match Rebuilt(cfg, entries[..|entries| - 1], policyOf)
      case None => None
      case Some(prefix) =>
        match RestoreFrom(WithPolicy(NewSchedule(e.id, e.plan, 0), policyOf(e.id)), SnapshotOf(e))
        case Err(_) => None
        case Ok(schedule) =>
          match Register(cfg, prefix, schedule)
          case Err(_) => None
          case Ok(all) => Some(all)
  }

  function StepRestart(cfg: Config, s: Sys, policyOf: ScheduleId -> MisfirePolicy): (Sys, seq<Event>) {
    match Rebuilt(cfg, s.registry.entries, policyOf)
    case None => (s, [RestartRefused])
    case Some(entries) => (Sys(Started(entries, s.registry.serials), map[]), [])
  }

  // A step that is not possible in the current state changes nothing.
  function Step(cfg: Config, s: Sys, l: Label): (Sys, seq<Event>) {
    match l
    case Start(t, now) => StepStart(cfg, s, t, now)
    case Choose(t, shutdown) => StepChoose(cfg, s, t, shutdown)
    case Return(t, outcome) => StepReturn(cfg, s, t, outcome)
    case Advance(t, shutdown) => StepAdvance(cfg, s, t, shutdown)
    case Abandon(t) => StepAbandon(s, t)
    case Add(_) | Remove(_) | Suspend(_, _) | Reconcile(_, _) => StepOwner(cfg, s, l)
    case Restart(policyOf) => StepRestart(cfg, s, policyOf)
  }

  // What a caller can pass: definitions come from the schedule constructors, and the only
  // statuses an owner can ask for are paused and active.
  predicate LabelOk(l: Label) {
    && (l.Add? ==> WellFormed(ScheduleEntry(l.schedule)))
    && (l.Suspend? ==> l.target == Active || l.target == Paused)
  }

  function Exec(cfg: Config, s: Sys, labels: seq<Label>): (Sys, seq<Event>)
    decreases |labels|
  {
    if labels == [] then (s, [])
    else
      var (s1, first) := Step(cfg, s, labels[0]);
      var (s2, rest) := Exec(cfg, s1, labels[1..]);
      (s2, first + rest)
  }

  ghost predicate LabelsOk(labels: seq<Label>) {
    forall i :: 0 <= i < |labels| ==> LabelOk(labels[i])
  }

  // ---------------------------------------------------------------- invariant

  // The entry belongs to this outstanding dispatch and to no other.
  predicate Pins(e: Entry, p: Pending, now: Instant) {
    && e.status == ReconciliationRequired
    && e.next == Some(p.due)
    && e.token == Some(p.token)
    && e.boundary == DispatchBoundary(e.policy, p.misfired, now)
  }

  predicate DispatchOk(c: Registry, t: TickId, k: Tick)
    requires k.phase.Dispatching?
  {
    var p := k.phase.pending;
    && Lookup(c.entries, p.id).Some? && Pins(Lookup(c.entries, p.id).value, p, k.now)
    && p.serial in c.live && c.live[p.serial] == t
    && Running(p.id, p.serial) in c.running
  }

  function CallsOf(k: Tick): nat {
    k.report.dispatched + k.report.notStarted + k.report.reconciliation + (if k.phase.Dispatching? then 1 else 0)
  }

  // One tick's own bookkeeping: the global budget is spent exactly by dispatcher calls, and the
  // per-schedule budget is never overdrawn.
  predicate TickOk(cfg: Config, k: Tick) {
    && k.remaining + CallsOf(k) == cfg.maxDispatches
    && (!k.phase.Ready? ==> k.ids != [])
    && (k.phase.Deciding? || k.phase.Dispatching? || k.phase.Closing? ==> k.phase.attempted <= cfg.maxCatchUp)
    && (k.phase.Dispatching? ==> k.phase.pending.id == k.ids[0])
  }

  ghost predicate LiveOk(s: Sys) {
    && (forall n <- s.registry.live ::
          && n < s.registry.serials
          && s.registry.live[n] in s.ticks
          && s.ticks[s.registry.live[n]].phase.Dispatching?
          && s.ticks[s.registry.live[n]].phase.pending.serial == n)
    && (forall r <- s.registry.running :: r.serial in s.registry.live ==>
          s.registry.live[r.serial] in s.ticks
          && s.ticks[s.registry.live[r.serial]].phase.Dispatching?
          && r.id == s.ticks[s.registry.live[r.serial]].phase.pending.id)
  }

  ghost predicate TicksOk(cfg: Config, s: Sys) {
    && (forall t <- s.ticks :: TickOk(cfg, s.ticks[t]))
    && (forall t <- s.ticks :: s.ticks[t].phase.Dispatching? ==> DispatchOk(s.registry, t, s.ticks[t]))
    && (forall t <- s.ticks, u <- s.ticks ::
          t != u && s.ticks[t].phase.Dispatching? && s.ticks[u].phase.Dispatching?
          ==> s.ticks[t].phase.pending.id != s.ticks[u].phase.pending.id)
  }

  ghost predicate Inv(cfg: Config, s: Sys) {
    RegistryOk(cfg, s.registry) && LiveOk(s) && TicksOk(cfg, s)
  }
}
