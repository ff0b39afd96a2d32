// One registered schedule: its fields, and every rule that changes them under the registry lock.
module ScheduleEntries {
  import opened Prelude

  type ScheduleId = string
  type Instant = int
  // An application plan may answer anything; AdvanceOnce alone enforces strict progress.
  type Plan = Instant -> Option<Instant>

  datatype MisfirePolicy = SkipMisfires | FireOnce | CatchUp
  datatype Status = Active | Paused | Completed | ReconciliationRequired
  datatype Resolution = ResolveConfirmed | ResolveRetry
  datatype Outcome = Confirmed | NotStarted | Unknown

  datatype Config = Config(grace: nat, maxSchedules: nat, maxDispatches: nat, maxCatchUp: nat)

  predicate ValidConfig(cfg: Config) {
    cfg.maxSchedules > 0 && cfg.maxDispatches > 0 && cfg.maxCatchUp > 0
  }

  datatype Entry = Entry(
    id: ScheduleId,
    plan: Plan,
    policy: MisfirePolicy,
    next: Option<Instant>,
    status: Status,
    boundary: Option<Instant>,
    token: Option<nat>)

  // Completed exactly without a cursor, and no boundary without a cursor to suppress.
  predicate WellFormed(e: Entry) {
    && (e.status == Completed <==> e.next.None?)
    && (e.boundary.Some? ==> e.next.Some?)
  }

  // The plan's next occurrence, when it makes strict progress.
  function Successor(plan: Plan, cursor: Option<Instant>): (r: Option<Instant>)
    ensures r.Some? <==> cursor.Some? && plan(cursor.value).Some? && cursor.value < plan(cursor.value).value
    ensures r.Some? ==> r == plan(cursor.value)
  {
    match cursor
    case None => None
    case Some(previous) =>
      match plan(previous)
      case None => None
      case Some(next) => if previous < next then Some(next) else None
  }

  // Moves the cursor to the plan's strict successor; without one the entry is done.
  function AdvanceOnce(e: Entry): (r: Entry)
    ensures WellFormed(e) ==> WellFormed(r)
    ensures r.next == Successor(e.plan, e.next)
    ensures r.status == (if r.next.None? then Completed else Active)
    ensures r.boundary == (if r.next.None? then None else e.boundary)
    ensures r.id == e.id && r.plan == e.plan && r.policy == e.policy && r.token == e.token
  {
    var next := Successor(e.plan, e.next);
    e.(next := next,
       status := if next.Some? then Active else Completed,
       boundary := if next.Some? then e.boundary else None)
  }

  predicate IsOverdue(reference: Instant, due: Instant, grace: nat) {
    due <= reference && reference - due > grace
  }

  predicate IsDue(e: Entry, now: Instant) {
    e.status == Active && e.next.Some? && e.next.value <= now
  }

  // ---------------------------------------------------------------- deciding

  datatype Decision =
    | Stop
    | Saturated
    | Skipped(due: Instant)
    | Dispatch(due: Instant, misfired: bool)

  // Inputs of one decision besides the entry: `open` says both per-tick budgets have room.
  datatype Budget = Budget(now: Instant, shutdown: bool, open: bool, hasCapacity: bool, token: nat)

  predicate BoundaryAbandons(cfg: Config, e: Entry, due: Instant) {
    e.policy == FireOnce && e.boundary.Some? && due <= e.boundary.value
    && IsOverdue(e.boundary.value, due, cfg.grace)
  }

  function Decide(cfg: Config, e: Entry, b: Budget): (Entry, Decision) {
    if !b.open || !IsDue(e, b.now) then (e, Stop)
    else
      var due := e.next.value;
      if BoundaryAbandons(cfg, e, due) then (AdvanceOnce(e), Skipped(due))
      else
        var cleared := e.(boundary := None);
        var misfired := IsOverdue(b.now, due, cfg.grace);
        if misfired && e.policy == SkipMisfires then (AdvanceOnce(cleared), Skipped(due))
        else if b.shutdown then (cleared, Stop)
        else if !b.hasCapacity then (cleared, Saturated)
        else
          (cleared.(status := ReconciliationRequired,
                    boundary := DispatchBoundary(e.policy, misfired, b.now),
                    token := Some(b.token)),
           Dispatch(due, misfired))
  }

  // One decision, case by case. Nothing happens without room or before the due instant. A due
  // occurrence is dropped when the skipping policy finds it older than the grace, or when it was
  // older than the grace at the instant a FireOnce misfire already answered for, shutdown or not.
  // Otherwise shutdown keeps it back, a full unsettled list refuses it, and with neither it is
  // dispatched: pinned until reconciled, its boundary set exactly for a FireOnce misfire.
  lemma DecidesByCase(cfg: Config, e: Entry, b: Budget)
    ensures var (e', d) := Decide(cfg, e, b);
      if !b.open || e.status != Active || e.next.None? || b.now < e.next.value then d == Stop && e' == e
      else
        var due := e.next.value;
        var late := b.now - due > cfg.grace;
        var answered := e.policy == FireOnce && e.boundary.Some? && e.boundary.value - due > cfg.grace;
        && (d == Skipped(due) <==> answered || (late && e.policy == SkipMisfires))
        && (d == Stop <==> d != Skipped(due) && b.shutdown)
        && (d == Saturated <==> d != Skipped(due) && !b.shutdown && !b.hasCapacity)
        && (d == Dispatch(due, late) <==> d != Skipped(due) && !b.shutdown && b.hasCapacity)
        && match d
           case Skipped(_) => e' == AdvanceOnce(if answered then e else e.(boundary := None))
           case Stop | Saturated => e' == e.(boundary := None)
           case Dispatch(_, _) =>
             e' == e.(status := ReconciliationRequired, token := Some(b.token),
                      boundary := if late && e.policy == FireOnce then Some(b.now) else None)
  {
  }

  // The boundary an entry carries for as long as one of its dispatches is outstanding.
  function DispatchBoundary(policy: MisfirePolicy, misfired: bool, now: Instant): Option<Instant> {
    if misfired && policy == FireOnce then Some(now) else None
  }

  // ---------------------------------------------------------------- settling

  // Abandons overdue occurrences, at most `limit` of them; returns their due instants in order.
  function Sweep(cfg: Config, e: Entry, now: Instant, limit: nat): (r: (Entry, seq<Instant>))
    ensures |r.1| <= limit
    ensures |r.1| < limit && r.0.next.Some? ==> !IsOverdue(now, r.0.next.value, cfg.grace)
    decreases limit
  {
    if limit == 0 || e.next.None? || !IsOverdue(now, e.next.value, cfg.grace) then (e, [])
    else
      var (rest, dues) := Sweep(cfg, AdvanceOnce(e), now, limit - 1);
      (rest, [e.next.value] + dues)
  }

  function Settle(cfg: Config, e: Entry, outcome: Outcome, misfired: bool, now: Instant, limit: nat)
    : (Entry, seq<Instant>)
  {
    var freed := e.(token := None);
    match outcome
    case Confirmed =>
      var advanced := AdvanceOnce(freed);
      if misfired && e.policy == FireOnce then
        var bounded := if advanced.next.Some? then advanced.(boundary := Some(now)) else advanced;
        Sweep(cfg, bounded, now, limit)
      else
        (advanced, [])
    case NotStarted => (freed.(status := Active, boundary := None), [])
    case Unknown => (freed, [])
  }

  // One settlement, case by case. The dispatch token is always released. A dispatch that never started
  // is offered again with nothing standing for it, an unknown one stays pinned for the owner, and a
  // confirmed one moves on to the plan's strict successor; a confirmed FireOnce misfire leaves `now`
  // behind as the boundary of what it answered for and drops overdue occurrences from there on.
  lemma SettlesByCase(cfg: Config, e: Entry, outcome: Outcome, misfired: bool, now: Instant, limit: nat)
    ensures var (e', dues) := Settle(cfg, e, outcome, misfired, now, limit);
      var next := Successor(e.plan, e.next);
      && e'.token == None && e'.id == e.id && e'.plan == e.plan && e'.policy == e.policy
      && (outcome == NotStarted ==> e' == e.(token := None, status := Active, boundary := None) && dues == [])
      && (outcome == Unknown ==> e' == e.(token := None) && dues == [])
      && (outcome == Confirmed && !(misfired && e.policy == FireOnce) ==>
            && e' == e.(token := None, next := next, status := if next.None? then Completed else Active,
                        boundary := if next.None? then None else e.boundary)
            && dues == [])
      && (outcome == Confirmed && misfired && e.policy == FireOnce ==>
            && (e'.next.Some? ==> e'.boundary == Some(now) && e'.status == Active)
            && (e'.next.None? ==> e'.boundary == None && e'.status == Completed)
            && (dues == [] ==> e'.next == next) && (dues != [] ==> next == Some(dues[0]))
            && (forall due <- dues :: now - due > cfg.grace) && |dues| <= limit
            && (e'.next.Some? && now - e'.next.value > cfg.grace ==> |dues| == limit))
  {
    if outcome == Confirmed && misfired && e.policy == FireOnce {
      var advanced := AdvanceOnce(e.(token := None));
      SweepKeeps(cfg, if advanced.next.Some? then advanced.(boundary := Some(now)) else advanced, now, limit);
    }
  }

  lemma SweepKeeps(cfg: Config, e: Entry, now: Instant, limit: nat)
    requires e.status == (if e.next.None? then Completed else Active) && (e.next.None? ==> e.boundary.None?)
    ensures var (r, dues) := Sweep(cfg, e, now, limit);
      && r == e.(next := r.next, status := if r.next.None? then Completed else Active,
                 boundary := if r.next.None? then None else e.boundary)
      && (dues == [] ==> r.next == e.next) && (dues != [] ==> e.next == Some(dues[0]))
      && (forall due <- dues :: now - due > cfg.grace)
    decreases limit
  {
  }

  // ---------------------------------------------------------------- owner operations

  function Resolve(e: Entry, resolution: Resolution): Entry {
    var freed := e.(token := None);
    match resolution
    case ResolveConfirmed => AdvanceOnce(freed)
    case ResolveRetry => freed.(boundary := None, status := Active)
  }

  // ---------------------------------------------------------------- definitions and snapshots

  datatype Schedule = Schedule(
    id: ScheduleId,
    plan: Plan,
    policy: MisfirePolicy,
    next: Option<Instant>,
    status: Status,
    boundary: Option<Instant>)

  datatype Snapshot = Snapshot(
    id: ScheduleId,
    status: Status,
    next: Option<Instant>,
    boundary: Option<Instant>)

  datatype RestoreError = IdentityMismatch | InconsistentCursor

  function ScheduleEntry(s: Schedule): Entry {
    Entry(s.id, s.plan, s.policy, s.next, s.status, s.boundary, None)
  }

  function NewSchedule(id: ScheduleId, plan: Plan, first: Instant): (s: Schedule)
    ensures WellFormed(ScheduleEntry(s))
    ensures s.id == id && s.plan == plan && s.policy == FireOnce
    ensures s.status == Active && s.next == Some(first) && s.boundary == None
  {
    Schedule(id, plan, FireOnce, Some(first), Active, None)
  }

  function WithPolicy(s: Schedule, policy: MisfirePolicy): (r: Schedule)
    ensures WellFormed(ScheduleEntry(s)) ==> WellFormed(ScheduleEntry(r))
  {
    s.(policy := policy)
  }

  function WithNextDueAt(s: Schedule, next: Option<Instant>): (r: Schedule)
    ensures WellFormed(ScheduleEntry(r))
    ensures r.next == next && r.boundary == None && r.status == (if next.Some? then Active else Completed)
    ensures r.id == s.id && r.plan == s.plan && r.policy == s.policy
  {
    s.(next := next, boundary := None, status := if next.Some? then Active else Completed)
  }

  // Accepts exactly the snapshots of this identity that a well-formed entry could have produced.
  function RestoreFrom(s: Schedule, snapshot: Snapshot): (r: Result<Schedule, RestoreError>)
    ensures r.Ok? <==>
      && s.id == snapshot.id
      && (snapshot.status == Completed <==> snapshot.next.None?)
      && (snapshot.boundary.Some? ==> snapshot.next.Some?)
    ensures r.Ok? ==> WellFormed(ScheduleEntry(r.value))
    ensures r == Err(IdentityMismatch) <==> s.id != snapshot.id
  {
    if s.id != snapshot.id then Err(IdentityMismatch)
    else
      var cursorIsValid := match snapshot.status
        case Active | Paused | ReconciliationRequired => snapshot.next.Some?
        case Completed => snapshot.next.None?;
      if !cursorIsValid then Err(InconsistentCursor)
      else if snapshot.next.None? && snapshot.boundary.Some? then Err(InconsistentCursor)
      else Ok(s.(status := snapshot.status, next := snapshot.next, boundary := snapshot.boundary))
  }

  function SnapshotOf(e: Entry): Snapshot {
    Snapshot(e.id, e.status, e.next, e.boundary)
  }

  // The entry a restarted process builds for `e`: a fresh definition with the same plan,
  // possibly under another policy, restored from the snapshot of `e`.
  function Restored(e: Entry, policy: MisfirePolicy, first: Instant): Result<Entry, RestoreError> {
    match RestoreFrom(WithPolicy(NewSchedule(e.id, e.plan, first), policy), SnapshotOf(e))
    case Ok(s) => Ok(ScheduleEntry(s))
    case Err(error) => Err(error)
  }

  // Every snapshot of a well-formed entry is accepted and loses only the dispatch token.
  lemma RestoreReproducesEntry(e: Entry, policy: MisfirePolicy, first: Instant)
    requires WellFormed(e)
    ensures Restored(e, policy, first) == Ok(e.(policy := policy, token := None))
  {
    assert RestoreFrom(WithPolicy(NewSchedule(e.id, e.plan, first), policy), SnapshotOf(e)).Ok?;
  }

  // ---------------------------------------------------------------- one entry's life

  datatype EntryEvent =
    | Issued(due: Instant, now: Instant, misfired: bool)
    | Settled(due: Instant, outcome: Outcome)
    | Dropped(due: Instant)
    | OwnerConfirmed(due: Instant)
    | OwnerRetry(due: Instant)

  datatype EntryAction =
    | Keep
    | DecideNow(budget: Budget)
    | SettleNow(outcome: Outcome, misfired: bool, now: Instant, limit: nat)
    | Pause
    | Resume
    | ResolveNow(resolution: Resolution)
    | RestoreNow(policy: MisfirePolicy)

  // What the registry guarantees before an action reaches the entry.
  predicate Enabled(e: Entry, a: EntryAction) {
    match a
    case SettleNow(_, misfired, now, _) =>
      && e.status == ReconciliationRequired && e.next.Some?
      && e.boundary == DispatchBoundary(e.policy, misfired, now)
    case ResolveNow(_) => e.status == ReconciliationRequired && e.next.Some?
    case Pause | Resume => e.status == Active || e.status == Paused
    case Keep | DecideNow(_) | RestoreNow(_) => true
  }

  function Drops(dues: seq<Instant>): (r: seq<EntryEvent>)
    ensures |r| == |dues| && forall i :: 0 <= i < |r| ==> r[i] == Dropped(dues[i])
  {
    seq(|dues|, i requires 0 <= i < |dues| => Dropped(dues[i]))
  }

  function DecisionEvents(d: Decision, now: Instant): seq<EntryEvent> {
    match d
    case Stop | Saturated => []
    case Skipped(due) => [Dropped(due)]
    case Dispatch(due, misfired) => [Issued(due, now, misfired)]
  }

  function EntryNext(cfg: Config, e: Entry, a: EntryAction): (Entry, seq<EntryEvent>)
    requires Enabled(e, a)
  {
    match a
    case Keep => (e, [])
    case DecideNow(b) =>
      var (e', d) := Decide(cfg, e, b);
      (e', DecisionEvents(d, b.now))
    case SettleNow(outcome, misfired, now, limit) =>
      var (e', dues) := Settle(cfg, e, outcome, misfired, now, limit);
      (e', [Settled(e.next.value, outcome)] + Drops(dues))
    case Pause => (e.(status := Paused), [])
    case Resume => (e.(status := Active), [])
    case ResolveNow(r) =>
      (Resolve(e, r),
       [if r == ResolveConfirmed then OwnerConfirmed(e.next.value) else OwnerRetry(e.next.value)])
    case RestoreNow(policy) => (e.(policy := policy, token := None), [])
  }

  // A finite life of one registration: actions applied in order, each enabled when it happens.
  predicate AllEnabled(cfg: Config, e: Entry, actions: seq<EntryAction>)
    decreases |actions|
  {
    actions == [] ||
    (Enabled(e, actions[0]) && AllEnabled(cfg, EntryNext(cfg, e, actions[0]).0, actions[1..]))
  }

  function EntryRun(cfg: Config, e: Entry, actions: seq<EntryAction>): (Entry, seq<EntryEvent>)
    requires AllEnabled(cfg, e, actions)
    decreases |actions|
  {
    if actions == [] then (e, [])
    else
      var (e1, first) := EntryNext(cfg, e, actions[0]);
      var (e2, rest) := EntryRun(cfg, e1, actions[1..]);
      (e2, first + rest)
  }

  lemma SweepFacts(cfg: Config, e: Entry, now: Instant, limit: nat)
    requires WellFormed(e)
    ensures var r := Sweep(cfg, e, now, limit).0;
      && WellFormed(r) && r.id == e.id && r.plan == e.plan && r.policy == e.policy && r.token == e.token
      && (r.next.None? || (e.next.Some? && e.next.value <= r.next.value))
      && (r.next.Some? ==> r.boundary == e.boundary)
      && (e.status != ReconciliationRequired ==> r.status != ReconciliationRequired)
      && (e.status == Active ==> r.status == Active || r.status == Completed)
    decreases limit
  {
  }

  lemma EntryNextFacts(cfg: Config, e: Entry, a: EntryAction)
    requires WellFormed(e) && Enabled(e, a)
    ensures var r := EntryNext(cfg, e, a).0;
      && WellFormed(r) && r.id == e.id && r.plan == e.plan
      && (a.RestoreNow? || r.policy == e.policy)
      && (r.next.None? || (e.next.Some? && e.next.value <= r.next.value))
      && (a.SettleNow? && a.outcome == Confirmed ==>
            && (r.status == Active || r.status == Completed)
            && (r.next.Some? ==> e.next.value < r.next.value && r.boundary == e.boundary))
  {
    if a.SettleNow? && a.outcome == Confirmed {
      var advanced := AdvanceOnce(e.(token := None));
      SweepFacts(cfg, if advanced.next.Some? then advanced.(boundary := Some(a.now)) else advanced, a.now, a.limit);
    }
  }
}
