// The scheduler's registry, and one function for every section that runs under its lock.
module SchedulerRegistry {
  import opened Prelude
  import opened ScheduleEntries

  type TickId = nat

  // One unsettled attempt. `serial` names its shared liveness flag.
  datatype Running = Running(id: ScheduleId, serial: nat)

  // `live` holds the flags that are still set, with the tick that owns the guard of each.
  datatype Registry = Registry(
    entries: seq<Entry>,
    running: seq<Running>,
    live: map<nat, TickId>,
    tokens: nat,
    serials: nat)

  datatype Pending = Pending(id: ScheduleId, token: nat, serial: nat, due: Instant, misfired: bool)

  datatype RegistrationError = CapacityExceeded(limit: nat) | DuplicateId(id: ScheduleId)
  datatype BuildError =
    | UnknownSchedule(id: ScheduleId)
    | ReconciliationNotRequired(id: ScheduleId)
    | TransitionNotAllowed(id: ScheduleId)

  // ---------------------------------------------------------------- lookup

  predicate DistinctIds(entries: seq<Entry>) {
    forall i, j :: 0 <= i < j < |entries| ==> entries[i].id != entries[j].id
  }

  function IndexOf(entries: seq<Entry>, id: ScheduleId): (r: Option<nat>)
    ensures r.Some? ==> r.value < |entries| && entries[r.value].id == id
    ensures r.None? ==> forall e <- entries :: e.id != id
  {
    if entries == [] then None
    else if entries[0].id == id then Some(0)
    else
      match IndexOf(entries[1..], id)
      case None => None
      case Some(i) => Some(i + 1)
  }

  function Lookup(entries: seq<Entry>, id: ScheduleId): (r: Option<Entry>)
    ensures r.Some? ==> r.value in entries && r.value.id == id
    ensures r.None? ==> forall e <- entries :: e.id != id
  {
    match IndexOf(entries, id)
    case None => None
    case Some(i) => Some(entries[i])
  }

  lemma LookupIs(entries: seq<Entry>, i: nat)
    requires DistinctIds(entries) && i < |entries|
    ensures IndexOf(entries, entries[i].id) == Some(i)
    ensures Lookup(entries, entries[i].id) == Some(entries[i])
  {
  }

  lemma LookupAfterUpdate(entries: seq<Entry>, i: nat, e: Entry)
    requires DistinctIds(entries) && i < |entries| && e.id == entries[i].id
    ensures DistinctIds(entries[i := e])
    ensures Lookup(entries[i := e], e.id) == Some(e)
    ensures forall id | id != e.id :: Lookup(entries[i := e], id) == Lookup(entries, id)
  {
    var updated := entries[i := e];
    LookupIs(updated, i);
    forall id | id != e.id ensures Lookup(updated, id) == Lookup(entries, id) {
      match IndexOf(entries, id)
      case None =>
      case Some(j) =>
        assert updated[j] == entries[j];
        LookupIs(updated, j);
    }
  }

  lemma LookupAfterPush(entries: seq<Entry>, e: Entry)
    requires DistinctIds(entries) && Lookup(entries, e.id).None?
    ensures DistinctIds(entries + [e])
    ensures Lookup(entries + [e], e.id) == Some(e)
    ensures forall id | id != e.id :: Lookup(entries + [e], id) == Lookup(entries, id)
  {
    var pushed := entries + [e];
    assert pushed[|entries|] == e;
    LookupIs(pushed, |entries|);
    forall id | id != e.id ensures Lookup(pushed, id) == Lookup(entries, id) {
      match IndexOf(entries, id)
      case None => assert forall x <- pushed :: x.id != id;
      case Some(j) =>
        assert pushed[j] == entries[j];
        LookupIs(pushed, j);
    }
  }

  function RemoveAt(entries: seq<Entry>, i: nat): seq<Entry>
    requires i < |entries|
  {
    entries[..i] + entries[i + 1..]
  }

  lemma LookupAfterRemove(entries: seq<Entry>, i: nat)
    requires DistinctIds(entries) && i < |entries|
    ensures DistinctIds(RemoveAt(entries, i))
    ensures Lookup(RemoveAt(entries, i), entries[i].id).None?
    ensures forall id | id != entries[i].id :: Lookup(RemoveAt(entries, i), id) == Lookup(entries, id)
  {
    var removed := RemoveAt(entries, i);
    forall id
      ensures if id == entries[i].id then Lookup(removed, id).None? else Lookup(removed, id) == Lookup(entries, id)
    {
      match IndexOf(entries, id)
      case None =>
      case Some(j) =>
        if j != i {
          var k := if j < i then j else j - 1;
          assert removed[k] == entries[j];
          LookupIs(removed, k);
          LookupIs(entries, j);
        } else {
          assert forall k :: 0 <= k < |removed| ==> removed[k] == entries[if k < i then k else k + 1];
        }
    }
  }

  // ---------------------------------------------------------------- unsettled attempts

  predicate DistinctSerials(running: seq<Running>) {
    forall i, j :: 0 <= i < j < |running| ==> running[i].serial != running[j].serial
  }

  function Retain(running: seq<Running>, live: map<nat, TickId>): (r: seq<Running>)
    ensures |r| <= |running|
    ensures forall x :: x in r <==> x in running && x.serial in live
    ensures DistinctSerials(running) ==> DistinctSerials(r)
  {
    if running == [] then []
    else
      var rest := Retain(running[1..], live);
      if running[0].serial in live then [running[0]] + rest else rest
  }

  function Prune(c: Registry): Registry {
    c.(running := Retain(c.running, c.live))
  }

  predicate IsRunning(c: Registry, id: ScheduleId) {
    exists r <- c.running :: r.id == id && r.serial in c.live
  }

  function DropGuard(c: Registry, serial: nat): Registry {
    c.(live := c.live - {serial})
  }

  // ---------------------------------------------------------------- tick sections

  datatype Admission =
    | Absent
    | NotExamined
    | Decided(decision: Decision)

  datatype DecideResult = DecideResult(registry: Registry, admission: Admission, pending: Option<Pending>)

  datatype DecideInput = DecideInput(
    tick: TickId, id: ScheduleId, now: Instant, shutdown: bool, open: bool, examined: bool)

  function DecideSection(cfg: Config, before: Registry, i: DecideInput): DecideResult {
    var c := Prune(before);
    match IndexOf(c.entries, i.id)
    case None => DecideResult(c, Absent, None)
    case Some(at) =>
      var e := c.entries[at];
      if !i.examined && e.status != Active then DecideResult(c, NotExamined, None)
      else
        var budget := BudgetFor(cfg, c, i);
        var (e', d) := Decide(cfg, e, budget);
        var c' := c.(entries := c.entries[at := e']);
        if d.Dispatch? then
          DecideResult(
            c'.(running := c'.running + [Running(i.id, c.serials)],
                live := c'.live[c.serials := i.tick],
                tokens := (c.tokens + 1) % U64_LIMIT,
                serials := c.serials + 1),
            Decided(d),
            Some(Pending(i.id, c.tokens, c.serials, d.due, d.misfired)))
        else DecideResult(c', Decided(d), None)
  }

  function BudgetFor(cfg: Config, pruned: Registry, i: DecideInput): Budget {
    Budget(i.now, i.shutdown, i.open, |pruned.running| < cfg.maxSchedules, pruned.tokens)
  }

  datatype SettleResult = SettleResult(registry: Registry, applied: bool, dues: seq<Instant>)

  // Applies one outcome and releases the attempt; the two guards reject a stale outcome.
  function SettleSection(cfg: Config, c: Registry, p: Pending, outcome: Outcome, now: Instant, limit: nat)
    : SettleResult
  {
    match IndexOf(c.entries, p.id)
    case None => SettleResult(DropGuard(c, p.serial), false, [])
    case Some(at) =>
      var e := c.entries[at];
      if e.token != Some(p.token) then SettleResult(DropGuard(c, p.serial), false, [])
      else
        var (e', dues) := Settle(cfg, e, outcome, p.misfired, now, limit);
        SettleResult(DropGuard(c.(entries := c.entries[at := e']), p.serial), true, dues)
  }

  predicate ClosingSaturates(cfg: Config, c: Registry, id: ScheduleId, now: Instant, attempted: nat) {
    match Lookup(c.entries, id)
    case None => false
    case Some(e) => attempted >= cfg.maxCatchUp && IsDue(e, now)
  }

  predicate EntriesHaveDue(entries: seq<Entry>, now: Instant) {
    exists i :: 0 <= i < |entries| && IsDue(entries[i], now)
  }

  // ---------------------------------------------------------------- owner sections

  function AddSection(cfg: Config, before: Registry, s: Schedule): (Registry, Result<(), RegistrationError>) {
    var c := Prune(before);
    if |c.entries| >= cfg.maxSchedules then (c, Err(CapacityExceeded(cfg.maxSchedules)))
    else if IndexOf(c.entries, s.id).Some? || IsRunning(c, s.id) then (c, Err(DuplicateId(s.id)))
    else (c.(entries := c.entries + [ScheduleEntry(s)]), Ok(()))
  }

  function RemoveSection(before: Registry, id: ScheduleId): (Registry, Result<Snapshot, BuildError>) {
    var c := Prune(before);
    match IndexOf(c.entries, id)
    case None => (c, Err(UnknownSchedule(id)))
    case Some(at) =>
      if c.entries[at].status == ReconciliationRequired then (c, Err(TransitionNotAllowed(id)))
      else (c.(entries := RemoveAt(c.entries, at)), Ok(SnapshotOf(c.entries[at])))
  }

  // Pause and resume share their guard; `target` is the status they leave behind.
  function SuspendSection(before: Registry, id: ScheduleId, target: Status): (Registry, Result<(), BuildError>) {
    var c := Prune(before);
    match IndexOf(c.entries, id)
    case None => (c, Err(UnknownSchedule(id)))
    case Some(at) =>
      if c.entries[at].status == Active || c.entries[at].status == Paused
      then (c.(entries := c.entries[at := c.entries[at].(status := target)]), Ok(()))
      else (c, Err(TransitionNotAllowed(id)))
  }

  function ResolveSection(before: Registry, id: ScheduleId, r: Resolution): (Registry, Result<(), BuildError>) {
    var c := Prune(before);
    if IsRunning(c, id) then (c, Err(TransitionNotAllowed(id)))
    else
      match IndexOf(c.entries, id)
      case None => (c, Err(UnknownSchedule(id)))
      case Some(at) =>
        if c.entries[at].status != ReconciliationRequired then (c, Err(ReconciliationNotRequired(id)))
        else (c.(entries := c.entries[at := Resolve(c.entries[at], r)]), Ok(()))
  }

  // Every owner section first forgets the attempts whose guard is gone, and nothing else.
  ghost predicate OnlyForgets(before: Registry, after: Registry) {
    && after.live == before.live && after.tokens == before.tokens && after.serials == before.serials
    && forall r :: r in after.running <==> r in before.running && r.serial in before.live
  }

  // A definition is accepted exactly when there is room, its identity is not registered and no
  // earlier holder of it is still dispatching; it is registered last, as defined.
  lemma AddsExactly(cfg: Config, c: Registry, s: Schedule)
    ensures var (c', r) := AddSection(cfg, c, s);
      && OnlyForgets(c, c')
      && (r == Err(CapacityExceeded(cfg.maxSchedules)) <==> |c.entries| >= cfg.maxSchedules)
      && (r.Ok? <==>
            && |c.entries| < cfg.maxSchedules && (forall e <- c.entries :: e.id != s.id)
            && !IsRunning(c, s.id))
      && (r.Ok? || r == Err(CapacityExceeded(cfg.maxSchedules)) || r == Err(DuplicateId(s.id)))
      && c'.entries == c.entries +
           (if r.Ok? then [Entry(s.id, s.plan, s.policy, s.next, s.status, s.boundary, None)] else [])
  {
    assert c.entries + [] == c.entries;
    assert IsRunning(Prune(c), s.id) <==> IsRunning(c, s.id);
  }

  // The schedule with this identity is registered at this position.
  ghost predicate At(entries: seq<Entry>, id: ScheduleId, at: nat) {
    at < |entries| && entries[at].id == id
  }

  // A schedule is removed exactly when it is registered and not awaiting reconciliation; the
  // answer is the snapshot of that very entry, and the others stay in order.
  lemma RemovesExactly(c: Registry, id: ScheduleId, at: nat)
    requires DistinctIds(c.entries)
    ensures var (c', r) := RemoveSection(c, id);
      && OnlyForgets(c, c')
      && (r == Err(UnknownSchedule(id)) <==> forall e <- c.entries :: e.id != id)
      && (At(c.entries, id, at) ==>
            var e := c.entries[at];
            if e.status == ReconciliationRequired then r == Err(TransitionNotAllowed(id)) && c'.entries == c.entries
            else
              && r == Ok(Snapshot(id, e.status, e.next, e.boundary))
              && c'.entries == c.entries[..at] + c.entries[at + 1..])
      && (r.Err? ==> c'.entries == c.entries)
  {
    if At(c.entries, id, at) { LookupIs(c.entries, at); }
  }

  // Pausing and resuming work exactly on Active and Paused schedules and touch only the status.
  lemma SuspendsExactly(c: Registry, id: ScheduleId, target: Status, at: nat)
    requires DistinctIds(c.entries)
    ensures var (c', r) := SuspendSection(c, id, target);
      && OnlyForgets(c, c')
      && (r == Err(UnknownSchedule(id)) <==> forall e <- c.entries :: e.id != id)
      && (At(c.entries, id, at) ==>
            var e := c.entries[at];
            if e.status == Completed || e.status == ReconciliationRequired
            then r == Err(TransitionNotAllowed(id)) && c'.entries == c.entries
            else r == Ok(()) && c'.entries == c.entries[at := e.(status := target)])
      && (r.Err? ==> c'.entries == c.entries)
  {
    if At(c.entries, id, at) { LookupIs(c.entries, at); }
  }

  // The owner decides exactly on a schedule that awaits reconciliation and has no live attempt:
  // confirming moves the cursor to the plan's strict successor or completes, retrying keeps the
  // occurrence and offers it again.
  lemma ResolvesExactly(c: Registry, id: ScheduleId, resolution: Resolution, at: nat)
    requires DistinctIds(c.entries)
    ensures var (c', r) := ResolveSection(c, id, resolution);
      && OnlyForgets(c, c')
      && (IsRunning(c, id) ==> r == Err(TransitionNotAllowed(id)))
      && (!IsRunning(c, id) ==> (r == Err(UnknownSchedule(id)) <==> forall e <- c.entries :: e.id != id))
      && (At(c.entries, id, at) && !IsRunning(c, id) ==>
            var e := c.entries[at];
            if e.status != ReconciliationRequired
            then r == Err(ReconciliationNotRequired(id)) && c'.entries == c.entries
            else
              var next := if resolution == ResolveRetry then e.next else Successor(e.plan, e.next);
              && r == Ok(())
              && c'.entries == c.entries[at := e.(
                   next := next, token := None,
                   status := if resolution == ResolveConfirmed && next.None? then Completed else Active,
                   boundary := if resolution == ResolveRetry || next.None? then None else e.boundary)])
      && (r.Err? ==> c'.entries == c.entries)
  {
    assert IsRunning(Prune(c), id) <==> IsRunning(c, id);
    if At(c.entries, id, at) { LookupIs(c.entries, at); }
  }

  // ---------------------------------------------------------------- startup

  // Registers definitions in order, refusing duplicates and overflow as the builder does.
  function Register(cfg: Config, entries: seq<Entry>, s: Schedule): Result<seq<Entry>, RegistrationError> {
    if |entries| >= cfg.maxSchedules then Err(CapacityExceeded(cfg.maxSchedules))
    else if IndexOf(entries, s.id).Some? then Err(DuplicateId(s.id))
    else Ok(entries + [ScheduleEntry(s)])
  }

  function Started(entries: seq<Entry>, serials: nat): Registry {
    Registry(entries, [], map[], 0, serials)
  }

  // What the registry alone keeps, whoever runs.
  ghost predicate RegistryOk(cfg: Config, c: Registry) {
    && DistinctIds(c.entries)
    && |c.entries| <= cfg.maxSchedules
    && (forall e <- c.entries :: WellFormed(e))
    && |c.running| <= cfg.maxSchedules
    && DistinctSerials(c.running)
    && (forall r <- c.running :: r.serial < c.serials)
  }

  lemma RegisterKeeps(cfg: Config, entries: seq<Entry>, s: Schedule)
    requires RegistryOk(cfg, Started(entries, 0)) && WellFormed(ScheduleEntry(s))
    ensures var r := Register(cfg, entries, s);
      r.Ok? ==> RegistryOk(cfg, Started(r.value, 0))
  {
    if Register(cfg, entries, s).Ok? {
      LookupAfterPush(entries, ScheduleEntry(s));
    }
  }
}
