// The scheduler as the object the application holds: fields updated in place under the lock, and
// a tick that runs alone. Every method is tied to the section function it implements.
module SchedulerObject {
  import opened Prelude
  import opened ScheduleEntries
  import opened SchedulerRegistry
  import opened SchedulerMachine
  import opened SchedulerSafety
  import opened SchedulerSolo

  // Drops overdue occurrences until the bound, the cursor or the grace stops the sweep.
  method SkipThroughNow(cfg: Config, entry: Entry, now: Instant, limit: nat)
    returns (swept: Entry, dues: seq<Instant>)
    ensures (swept, dues) == Sweep(cfg, entry, now, limit)
  {
    swept, dues := entry, [];
    while |dues| < limit && swept.next.Some? && IsOverdue(now, swept.next.value, cfg.grace)
      invariant |dues| <= limit
      invariant Sweep(cfg, entry, now, limit).0 == Sweep(cfg, swept, now, limit - |dues|).0
      invariant Sweep(cfg, entry, now, limit).1 == dues + Sweep(cfg, swept, now, limit - |dues|).1
      decreases limit - |dues|
    {
      var due := swept.next.value;
      ghost var rest := Sweep(cfg, AdvanceOnce(swept), now, limit - |dues| - 1);
      assert Sweep(cfg, swept, now, limit - |dues|) == (rest.0, [due] + rest.1);
      assert dues + ([due] + rest.1) == (dues + [due]) + rest.1;
      swept := AdvanceOnce(swept);
      dues := dues + [due];
    }
    assert Sweep(cfg, swept, now, limit - |dues|) == (swept, []);
    assert dues + [] == dues;
  }

  // Chooses the next action for one entry and applies every change that needs no dispatch.
  method DecideEntry(cfg: Config, entry0: Entry, b: Budget) returns (entry: Entry, decision: Decision)
    ensures (entry, decision) == Decide(cfg, entry0, b)
  {
    entry := entry0;
    if entry.status != Active || !b.open { return entry, Stop; }
    if entry.next.None? || entry.next.value > b.now { return entry, Stop; }
    var due := entry.next.value;
    if BoundaryAbandons(cfg, entry, due) {
      entry := AdvanceOnce(entry);
      return entry, Skipped(due);
    }
    entry := entry.(boundary := None);
    var misfired := IsOverdue(b.now, due, cfg.grace);
    if misfired && entry.policy == SkipMisfires {
      entry := AdvanceOnce(entry);
      return entry, Skipped(due);
    }
    if b.shutdown { return entry, Stop; }
    if !b.hasCapacity { return entry, Saturated; }
    entry := entry.(status := ReconciliationRequired);
    if misfired && entry.policy == FireOnce { entry := entry.(boundary := Some(b.now)); }
    entry := entry.(token := Some(b.token));
    decision := Dispatch(due, misfired);
  }

  method FindEntry(entries: seq<Entry>, id: ScheduleId) returns (at: Option<nat>)
    ensures at == IndexOf(entries, id)
  {
    var i := 0;
    while i < |entries| && entries[i].id != id
      invariant i <= |entries|
      invariant IndexOf(entries, id) ==
        (match IndexOf(entries[i..], id) case None => None case Some(j) => Some(i + j))
    {
      assert entries[i..][1..] == entries[i + 1..];
      i := i + 1;
    }
    at := if i < |entries| then Some(i) else None;
  }

  method RetainLive(running: seq<Running>, live: map<nat, TickId>) returns (kept: seq<Running>)
    ensures kept == Retain(running, live)
  {
    kept := [];
    var i := |running|;
    while i > 0
      invariant 0 <= i <= |running|
      invariant kept == Retain(running[i..], live)
    {
      i := i - 1;
      assert running[i..][1..] == running[i + 1..];
      if running[i].serial in live { kept := [running[i]] + kept; }
    }
  }

  // The local variables of one tick while it drives one schedule.
  datatype Local = Local(attempted: nat, examined: bool, remaining: nat, report: Report, calls: nat) {
    // Occurrences handled so far, by dispatching or dropping them.
    function Work(): nat {
      calls + report.skipped
    }
  }

  datatype Next = Again | Close | Leave

  // How many of the first n calls to the dispatcher ended in o.
  function Count(outcomes: nat -> Outcome, n: nat, o: Outcome): nat {
    if n == 0 then 0 else Count(outcomes, n - 1, o) + (if outcomes(n - 1) == o then 1 else 0)
  }

  lemma CountsAddUp(outcomes: nat -> Outcome, n: nat)
    ensures Count(outcomes, n, Confirmed) + Count(outcomes, n, NotStarted) + Count(outcomes, n, Unknown) == n
  {
  }

  // The results of calls a to b - 1.
  function Drawn(outcomes: nat -> Outcome, a: nat, b: nat): (r: seq<Outcome>)
    requires a <= b
    ensures a == b ==> r == []
  {
    seq(b - a, i requires 0 <= i < b - a => outcomes(a + i))
  }

  lemma DrawnConcat(outcomes: nat -> Outcome, a: nat, b: nat, c: nat)
    requires a <= b <= c
    ensures Drawn(outcomes, a, b) + Drawn(outcomes, b, c) == Drawn(outcomes, a, c)
  {
  }

  // Each outcome counter of the report is the number of calls that ended so.
  ghost predicate Tallied(outcomes: nat -> Outcome, l: Local) {
    && l.report.dispatched == Count(outcomes, l.calls, Confirmed)
    && l.report.notStarted == Count(outcomes, l.calls, NotStarted)
    && l.report.reconciliation == Count(outcomes, l.calls, Unknown)
  }

  predicate SameOutcomes(l: Local, l': Local) {
    && l'.report.dispatched == l.report.dispatched
    && l'.report.notStarted == l.report.notStarted
    && l'.report.reconciliation == l.report.reconciliation
  }

  lemma NothingTallied(outcomes: nat -> Outcome, l: Local)
    requires l.report == EmptyReport() && l.calls == 0
    ensures Tallied(outcomes, l)
  {
  }

  function PhaseAt(l: Local, next: Next): Phase {
    match next
    case Again => Deciding(l.attempted, l.examined)
    case Close => Closing(l.attempted)
    case Leave => Leaving
  }

  function PhaseAfter(l: Local, next: Next, pending: Option<Pending>): Phase {
    if pending.Some? then Dispatching(l.attempted, pending.value) else PhaseAt(l, next)
  }

  // The machine's view of a tick with these local variables.
  function Shape(now: Instant, ids: seq<ScheduleId>, phase: Phase, l: Local): Tick {
    SchedulerMachine.Tick(now, ids, phase, l.remaining, l.report)
  }

  // What a tick's work on one schedule, from l to l', says about counters and saturation; `due`
  // says the schedule is still due afterwards.
  predicate TurnOk(cfg: Config, l: Local, l': Local, next: Next, due: bool) {
    && l.attempted <= l'.attempted <= cfg.maxCatchUp
    && l'.Work() - l.Work() == l'.attempted - l.attempted
    && l'.remaining + l'.calls == l.remaining + l.calls
    && l'.calls >= l.calls && l'.report.notStarted >= l.report.notStarted
    && match next
       case Again => l'.report.notStarted == l.report.notStarted && l'.report.saturated == l.report.saturated
       case Close =>
         && l'.report.saturated == l.report.saturated
         && (due ==> l'.report.notStarted > l.report.notStarted || l'.remaining == 0 || l'.attempted >= cfg.maxCatchUp)
       case Leave => if due then l'.report.saturated else l'.report.saturated == l.report.saturated
  }

  // Two registries that agree on everything but the fields of the schedule at one position.
  ghost predicate SameExcept(before: seq<Entry>, after: seq<Entry>, at: nat) {
    && at < |before| == |after|
    && before[at].id == after[at].id
    && forall i :: 0 <= i < |before| && i != at ==> after[i] == before[i]
  }

  // What one decision means for a tick that runs alone on the schedule at position `at`.
  ghost predicate ChoiceFacts(r: DecideResult, at: nat, i: DecideInput)
  {
    && at < |r.registry.entries|
    && (r.pending.Some? <==> r.admission.Decided? && r.admission.decision.Dispatch?)
    && match r.admission
       case Absent | NotExamined => !IsDue(r.registry.entries[at], i.now)
       case Decided(Stop) => !i.open || !IsDue(r.registry.entries[at], i.now)
       case Decided(Saturated) => IsDue(r.registry.entries[at], i.now)
       case Decided(Skipped(_)) => i.open
       case Decided(Dispatch(_, _)) => i.open && r.pending.value.id == i.id
  }

  lemma RetainNone(running: seq<Running>)
    ensures Retain(running, map[]) == []
  {
  }

  // The registry after an entry was updated and, for a dispatch, an attempt was recorded.
  lemma UpdatedIsOk(cfg: Config, c: Registry, at: nat, e: Entry)
    requires RegistryOk(cfg, c) && at < |c.entries| && e.id == c.entries[at].id && WellFormed(e)
    ensures RegistryOk(cfg, c.(entries := c.entries[at := e]))
    ensures SameExcept(c.entries, c.entries[at := e], at)
    ensures IndexOf(c.entries[at := e], e.id) == Some(at)
  {
    LookupAfterUpdate(c.entries, at, e);
    LookupIs(c.entries[at := e], at);
    assert forall x <- c.entries[at := e] :: x == e || x in c.entries;
  }

  lemma DecideFacts(cfg: Config, e: Entry, b: Budget)
    requires WellFormed(e) && !b.shutdown
    ensures var (r, d) := Decide(cfg, e, b);
      && WellFormed(r) && r.id == e.id
      && match d
         case Stop => !b.open || !IsDue(r, b.now)
         case Saturated => IsDue(r, b.now)
         case Skipped(_) => b.open
         case Dispatch(due, misfired) => b.open && Pins(r, Pending(r.id, b.token, 0, due, misfired), b.now)
  {
    EntryNextFacts(cfg, e, DecideNow(b));
  }

  lemma PrunedAlone(cfg: Config, c: Registry, id: ScheduleId, at: nat)
    requires RegistryOk(cfg, c) && c.live == map[] && IndexOf(c.entries, id) == Some(at)
    ensures Prune(c) == c.(running := []) && RegistryOk(cfg, Prune(c))
    ensures WellFormed(c.entries[at]) && 0 < |c.entries| <= cfg.maxSchedules
  {
    RetainNone(c.running);
  }

  lemma DecideAlone(cfg: Config, c: Registry, i: DecideInput, at: nat)
    requires RegistryOk(cfg, c) && c.live == map[] && IndexOf(c.entries, i.id) == Some(at) && !i.shutdown
    ensures var r := DecideSection(cfg, c, i);
      && RegistryOk(cfg, r.registry) && ChoiceFacts(r, at, i)
      && SameExcept(c.entries, r.registry.entries, at) && IndexOf(r.registry.entries, i.id) == Some(at)
      && match r.pending
         case None => r.registry.live == map[]
         case Some(p) => r.registry.live.Keys == {p.serial} && Pins(r.registry.entries[at], p, i.now)
  {
    hide RegistryOk, Decide, Retain, IndexOf, SameExcept, WellFormed;
    PrunedAlone(cfg, c, i.id, at);
    var p := Prune(c);
    var budget := BudgetFor(cfg, p, i);
    var e := Decide(cfg, p.entries[at], budget).0;
    DecideFacts(cfg, p.entries[at], budget);
    UpdatedIsOk(cfg, p, at, e);
    RecordedIsOk(cfg, p.(entries := p.entries[at := e]), i.tick, i.id);
    UpdatedIsOk(cfg, p, at, p.entries[at]);
    assert p.entries[at := p.entries[at]] == p.entries;
  }

  lemma SettleAlone(cfg: Config, c: Registry, p: Pending, outcome: Outcome, now: Instant, limit: nat, at: nat)
    requires RegistryOk(cfg, c) && c.live.Keys == {p.serial}
    requires IndexOf(c.entries, p.id) == Some(at) && Pins(c.entries[at], p, now)
    ensures var r := SettleSection(cfg, c, p, outcome, now, limit);
      && r.applied && |r.dues| <= limit
      && RegistryOk(cfg, r.registry) && r.registry.live == map[]
      && SameExcept(c.entries, r.registry.entries, at) && IndexOf(r.registry.entries, p.id) == Some(at)
      && (outcome == Unknown ==> !IsDue(r.registry.entries[at], now))
  {
    assert WellFormed(c.entries[at]);
    EntryNextFacts(cfg, c.entries[at], SettleNow(outcome, p.misfired, now, limit));
    UpdatedIsOk(cfg, c, at, Settle(cfg, c.entries[at], outcome, p.misfired, now, limit).0);
  }

  // After visiting the first n schedules: a saturated report has a due schedule behind it, and a
  // visited schedule that is still due has a reason.
  ghost predicate Explained(entries: seq<Entry>, now: Instant, n: nat, l: Local) {
    && n <= |entries|
    && (l.report.saturated ==> exists i :: 0 <= i < n && IsDue(entries[i], now))
    && (forall i :: 0 <= i < n && IsDue(entries[i], now) ==>
          l.report.saturated || l.report.notStarted > 0 || l.remaining == 0)
  }

  lemma VisitExplains(before: seq<Entry>, after: seq<Entry>, now: Instant, n: nat, l: Local, l': Local)
    requires Explained(before, now, n, l) && l.remaining > 0 && SameExcept(before, after, n)
    requires l'.report.notStarted >= l.report.notStarted
    requires l.report.saturated ==> l'.report.saturated
    requires l'.report.saturated ==> l.report.saturated || IsDue(after[n], now)
    requires IsDue(after[n], now) ==>
      l'.report.saturated || l'.remaining == 0 || l'.report.notStarted > l.report.notStarted
    ensures Explained(after, now, n + 1, l')
  {
    if l.report.saturated {
      var i :| 0 <= i < n && IsDue(before[i], now);
      assert IsDue(after[i], now);
    }
  }

  class Scheduler {
    const cfg: Config
    var entries: seq<Entry>
    var running: seq<Running>
    var live: map<nat, TickId>
    var tokens: nat
    var serials: nat

    function State(): Registry
      reads this
    {
      Registry(entries, running, live, tokens, serials)
    }

    constructor (cfg: Config, entries: seq<Entry>)
      ensures this.cfg == cfg && State() == Started(entries, 0)
    {
      this.cfg := cfg;
      this.entries := entries;
      this.running, this.live, this.tokens, this.serials := [], map[], 0, 0;
    }

    method AddSchedule(s: Schedule) returns (r: Result<(), RegistrationError>)
      modifies this
      ensures (State(), r) == AddSection(cfg, old(State()), s)
    {
      running := RetainLive(running, live);
      if |entries| >= cfg.maxSchedules { return Err(CapacityExceeded(cfg.maxSchedules)); }
      var at := FindEntry(entries, s.id);
      if at.Some? || IsRunning(State(), s.id) { return Err(DuplicateId(s.id)); }
      entries := entries + [ScheduleEntry(s)];
      return Ok(());
    }

    method RemoveSchedule(id: ScheduleId) returns (r: Result<Snapshot, BuildError>)
      modifies this
      ensures (State(), r) == RemoveSection(old(State()), id)
    {
      running := RetainLive(running, live);
      var at := FindEntry(entries, id);
      if at.None? { return Err(UnknownSchedule(id)); }
      var entry := entries[at.value];
      if entry.status == ReconciliationRequired { return Err(TransitionNotAllowed(id)); }
      entries := RemoveAt(entries, at.value);
      return Ok(SnapshotOf(entry));
    }

    method PauseSchedule(id: ScheduleId) returns (r: Result<(), BuildError>)
      modifies this
      ensures (State(), r) == SuspendSection(old(State()), id, Paused)
    {
      r := Suspend(id, Paused);
    }

    method ResumeSchedule(id: ScheduleId) returns (r: Result<(), BuildError>)
      modifies this
      ensures (State(), r) == SuspendSection(old(State()), id, Active)
    {
      r := Suspend(id, Active);
    }

    method Suspend(id: ScheduleId, target: Status) returns (r: Result<(), BuildError>)
      modifies this
      ensures (State(), r) == SuspendSection(old(State()), id, target)
    {
      running := RetainLive(running, live);
      var at := FindEntry(entries, id);
      if at.None? { return Err(UnknownSchedule(id)); }
      var entry := entries[at.value];
      if entry.status != Active && entry.status != Paused { return Err(TransitionNotAllowed(id)); }
      entries := entries[at.value := entry.(status := target)];
      return Ok(());
    }

    method ResolveReconciliation(id: ScheduleId, resolution: Resolution) returns (r: Result<(), BuildError>)
      modifies this
      ensures (State(), r) == ResolveSection(old(State()), id, resolution)
    {
      running := RetainLive(running, live);
      if IsRunning(State(), id) { return Err(TransitionNotAllowed(id)); }
      var at := FindEntry(entries, id);
      if at.None? { return Err(UnknownSchedule(id)); }
      var entry := entries[at.value];
      if entry.status != ReconciliationRequired { return Err(ReconciliationNotRequired(id)); }
      entry := entry.(token := None);
      if resolution == ResolveConfirmed {
        entry := AdvanceOnce(entry);
      } else {
        entry := entry.(boundary := None, status := Active);
      }
      entries := entries[at.value := entry];
      return Ok(());
    }

    // The section that decides what the tick does next with one schedule.
    method DecideLocked(i: DecideInput) returns (admission: Admission, pending: Option<Pending>)
      modifies this
      ensures DecideResult(State(), admission, pending) == DecideSection(cfg, old(State()), i)
    {
      hide Decide, Retain;
      running := RetainLive(running, live);
      pending := None;
      var at := FindEntry(entries, i.id);
      if at.None? { return Absent, None; }
      var entry := entries[at.value];
      if !i.examined && entry.status != Active { return NotExamined, None; }
      var hasCapacity := |running| < cfg.maxSchedules;
      var decision;
      entry, decision := DecideEntry(cfg, entry, Budget(i.now, i.shutdown, i.open, hasCapacity, tokens));
      entries := entries[at.value := entry];
      admission := Decided(decision);
      if decision.Dispatch? {
        pending := Some(Pending(i.id, tokens, serials, decision.due, decision.misfired));
        running, live := running + [Running(i.id, serials)], live[serials := i.tick];
        tokens, serials := (tokens + 1) % U64_LIMIT, serials + 1;
      }
    }

    // The section that applies one outcome and releases the attempt.
    method ApplyLocked(p: Pending, outcome: Outcome, now: Instant, limit: nat)
      returns (applied: bool, dues: seq<Instant>)
      modifies this
      ensures SettleResult(State(), applied, dues) == SettleSection(cfg, old(State()), p, outcome, now, limit)
    {
      applied, dues := false, [];
      var at := FindEntry(entries, p.id);
      if at.Some? && entries[at.value].token == Some(p.token) {
        applied := true;
        var entry := entries[at.value].(token := None);
        match outcome {
          case Confirmed =>
            entry := AdvanceOnce(entry);
            if p.misfired && entry.policy == FireOnce {
              if entry.next.Some? { entry := entry.(boundary := Some(now)); }
              entry, dues := SkipThroughNow(cfg, entry, now, limit);
            }
          case NotStarted => entry := entry.(status := Active, boundary := None);
          case Unknown =>
        }
        entries := entries[at.value := entry];
      }
      live := live - {p.serial};
    }

    // No attempt is outstanding: what a tick that runs alone finds between its own dispatches.
    ghost predicate Idle()
      reads this
    {
      RegistryOk(cfg, State()) && live == map[]
    }

    // The decision of one turn: a dispatch to wait for, or how the loop over the schedule goes on.
    method Chosen(t: TickId, id: ScheduleId, now: Instant, l: Local, ghost at: nat, ghost ids: seq<ScheduleId>)
      returns (l': Local, next: Next, pending: Option<Pending>)
      requires Idle() && IndexOf(entries, id) == Some(at) && l.attempted <= cfg.maxCatchUp
      requires ids != [] && ids[0] == id
      modifies this
      ensures IndexOf(entries, id) == Some(at) && SameExcept(old(entries), entries, at)
      ensures match pending
        case None =>
          && Idle() && TurnOk(cfg, l, l', next, IsDue(entries[at], now))
          && (next == Again ==> l.attempted < l'.attempted)
          && l'.calls == l.calls && SameOutcomes(l, l')
        case Some(p) =>
          && RegistryOk(cfg, State()) && live.Keys == {p.serial} && p.id == id && Pins(entries[at], p, now)
          && l.remaining > 0 && l.attempted < cfg.maxCatchUp
          && l'.attempted == l.attempted + 1 && l'.calls == l.calls + 1 && l'.remaining == l.remaining - 1
          && l'.examined && SameOutcomes(l, l')
          && l'.report.skipped == l.report.skipped && l'.report.saturated == l.report.saturated
      ensures Path(cfg, t, Solo(old(State()), t, Shape(now, ids, PhaseAt(l, Again), l)), [Choose(t, false)],
                   Solo(State(), t, Shape(now, ids, PhaseAfter(l', next, pending), l')), [])
    {
      hide RegistryOk, DecideSection, Path, Solo, IsDue;
      var i := DecideInput(t, id, now, false, l.remaining > 0 && l.attempted < cfg.maxCatchUp, l.examined);
      DecideAlone(cfg, State(), i, at);
      SoloChoose(cfg, State(), t, Shape(now, ids, PhaseAt(l, Again), l));
      var admission;
      admission, pending := DecideLocked(i);
      if !admission.Decided? { return l, Leave, None; }
      var report := if l.examined then l.report else l.report.(examined := l.report.examined + 1);
      l' := l.(examined := true, report := report);
      match admission.decision {
        case Stop => next := Close;
        case Saturated => l', next := l'.(report := l'.report.(saturated := true)), Leave;
        case Skipped(_) =>
          l', next := l'.(report := l'.report.(skipped := l'.report.skipped + 1), attempted := l.attempted + 1), Again;
        case Dispatch(_, _) =>
          l' := l'.(attempted := l.attempted + 1, calls := l.calls + 1, remaining := Monus(l.remaining, 1));
          next := Again;
      }
    }

    // One turn of the loop over a schedule: a decision, and the dispatch it may lead to.
    method Turn(t: TickId, id: ScheduleId, now: Instant, outcomes: nat -> Outcome, l: Local, ghost at: nat,
                ghost ids: seq<ScheduleId>)
      returns (l': Local, next: Next, ghost labels: seq<Label>)
      requires Idle() && IndexOf(entries, id) == Some(at) && l.attempted <= cfg.maxCatchUp
      requires ids != [] && ids[0] == id
      modifies this
      ensures Idle() && IndexOf(entries, id) == Some(at) && SameExcept(old(entries), entries, at)
      ensures TurnOk(cfg, l, l', next, IsDue(entries[at], now))
      ensures next == Again ==> l.attempted < l'.attempted
      ensures Tallied(outcomes, l) ==> Tallied(outcomes, l')
      ensures Path(cfg, t, Solo(old(State()), t, Shape(now, ids, PhaseAt(l, Again), l)), labels,
                   Solo(State(), t, Shape(now, ids, PhaseAt(l', next), l')), Drawn(outcomes, l.calls, l'.calls))
    {
      hide RegistryOk, Path, Solo, IsDue;
      ghost var from := Solo(State(), t, Shape(now, ids, PhaseAt(l, Again), l));
      labels := [Choose(t, false)];
      var pending;
      l', next, pending := Chosen(t, id, now, l, at, ids);
      if pending.Some? {
        ghost var mid := Solo(State(), t, Shape(now, ids, Dispatching(l'.attempted, pending.value), l'));
        l', next := Settled(t, pending.value, outcomes(l.calls), now, l', at, ids);
        PathJoin(cfg, t, from, labels, mid, [Return(t, outcomes(l.calls))],
                 Solo(State(), t, Shape(now, ids, PhaseAt(l', next), l')), [], [outcomes(l.calls)]);
        labels := labels + [Return(t, outcomes(l.calls))];
        assert [] + [outcomes(l.calls)] == Drawn(outcomes, l.calls, l'.calls);
      }
    }

    // The dispatcher ran: its result is counted, applied and released.
    method Settled(t: TickId, p: Pending, outcome: Outcome, now: Instant, l: Local, ghost at: nat,
                   ghost ids: seq<ScheduleId>)
      returns (l': Local, next: Next)
      requires RegistryOk(cfg, State()) && live.Keys == {p.serial} && l.attempted <= cfg.maxCatchUp && l.examined
      requires IndexOf(entries, p.id) == Some(at) && Pins(entries[at], p, now)
      modifies this
      ensures Idle() && IndexOf(entries, p.id) == Some(at) && SameExcept(old(entries), entries, at)
      ensures l.attempted <= l'.attempted <= cfg.maxCatchUp && l'.calls == l.calls && l'.remaining == l.remaining
      ensures l'.report.skipped - l.report.skipped == l'.attempted - l.attempted
      ensures l'.report.dispatched == l.report.dispatched + (if outcome == Confirmed then 1 else 0)
      ensures l'.report.notStarted == l.report.notStarted + (if outcome == NotStarted then 1 else 0)
      ensures l'.report.reconciliation == l.report.reconciliation + (if outcome == Unknown then 1 else 0)
      ensures l'.report.saturated == l.report.saturated
      ensures next == (if outcome == Confirmed then Again else Close)
      ensures outcome == Unknown ==> !IsDue(entries[at], now)
      ensures Path(cfg, t, Solo(old(State()), t, Shape(now, ids, Dispatching(l.attempted, p), l)),
                   [Return(t, outcome)], Solo(State(), t, Shape(now, ids, PhaseAt(l', next), l')), [outcome])
    {
      hide RegistryOk, SettleSection, Path, Solo, IsDue;
      var limit := Monus(cfg.maxCatchUp, l.attempted);
      SettleAlone(cfg, State(), p, outcome, now, limit, at);
      SoloReturn(cfg, State(), t, Shape(now, ids, Dispatching(l.attempted, p), l), outcome);
      var applied, dues := ApplyLocked(p, outcome, now, limit);
      var report := CountOutcome(l.report, outcome);
      l' := l.(report := report.(skipped := report.skipped + |dues|), attempted := l.attempted + |dues|);
      next := if !applied then Leave else if outcome == Confirmed then Again else Close;
    }

    // Drives one schedule for this tick.
    method ProcessEntry(t: TickId, id: ScheduleId, now: Instant, outcomes: nat -> Outcome, l: Local, ghost at: nat,
                        ghost ids: seq<ScheduleId>)
      returns (l': Local, ghost labels: seq<Label>)
      requires Idle() && IndexOf(entries, id) == Some(at) && l.attempted == 0 && !l.examined
      requires ids != [] && ids[0] == id
      modifies this
      ensures Idle() && SameExcept(old(entries), entries, at)
      ensures 0 <= l'.Work() - l.Work() <= cfg.maxCatchUp && l.calls <= l'.calls
      ensures l'.remaining + l'.calls == l.remaining + l.calls
      ensures Tallied(outcomes, l) ==> Tallied(outcomes, l')
      ensures l'.report.notStarted >= l.report.notStarted
      ensures l.report.saturated ==> l'.report.saturated
      ensures l'.report.saturated ==> l.report.saturated || IsDue(entries[at], now)
      ensures IsDue(entries[at], now) ==>
        l'.report.saturated || l'.remaining == 0 || l'.report.notStarted > l.report.notStarted
      ensures Path(cfg, t, Solo(old(State()), t, Shape(now, ids, Ready, l)), labels,
                   Solo(State(), t, Shape(now, ids, Leaving, l')), Drawn(outcomes, l.calls, l'.calls))
    {
      hide RegistryOk, Path, Solo, IsDue, Count;
      ghost var from := Solo(State(), t, Shape(now, ids, Ready, l));
      SoloAdvance(cfg, State(), t, Shape(now, ids, Ready, l), Shape(now, ids, PhaseAt(l, Again), l));
      labels := [Advance(t, false)];
      l' := l;
      var next := Again;
      while next == Again
        invariant Idle() && IndexOf(entries, id) == Some(at) && SameExcept(old(entries), entries, at)
        invariant TurnOk(cfg, l, l', next, IsDue(entries[at], now))
        invariant Tallied(outcomes, l) ==> Tallied(outcomes, l')
        invariant Path(cfg, t, from, labels, Solo(State(), t, Shape(now, ids, PhaseAt(l', next), l')),
                       Drawn(outcomes, l.calls, l'.calls))
        decreases next == Again, cfg.maxCatchUp - l'.attempted
      {
        ghost var was, mid := l', Solo(State(), t, Shape(now, ids, PhaseAt(l', next), l'));
        ghost var more;
        l', next, more := Turn(t, id, now, outcomes, l', at, ids);
        PathJoin(cfg, t, from, labels, mid, more, Solo(State(), t, Shape(now, ids, PhaseAt(l', next), l')),
                 Drawn(outcomes, l.calls, was.calls), Drawn(outcomes, was.calls, l'.calls));
        DrawnConcat(outcomes, l.calls, was.calls, l'.calls);
        labels := labels + more;
      }
      // Saturation means the per-schedule bound left due work behind.
      if next == Close {
        ghost var was := l';
        var found := FindEntry(entries, id);
        if found.Some? && l'.attempted >= cfg.maxCatchUp && IsDue(entries[found.value], now) {
          l' := l'.(report := l'.report.(saturated := true));
        }
        SoloAdvance(cfg, State(), t, Shape(now, ids, Closing(was.attempted), was), Shape(now, ids, Leaving, l'));
        PathJoin(cfg, t, from, labels, Solo(State(), t, Shape(now, ids, Closing(was.attempted), was)),
                 [Advance(t, false)], Solo(State(), t, Shape(now, ids, Leaving, l')),
                 Drawn(outcomes, l.calls, l'.calls), []);
        assert Drawn(outcomes, l.calls, l'.calls) + [] == Drawn(outcomes, l.calls, l'.calls);
        labels := labels + [Advance(t, false)];
      }
    }

    method VisitEntry(t: TickId, n: nat, now: Instant, outcomes: nat -> Outcome, l: Local, ids: seq<ScheduleId>)
      returns (l': Local, ghost labels: seq<Label>)
      requires Idle() && n < |entries| && l.remaining > 0 && Explained(entries, now, n, l)
      requires ids != [] && entries[n].id == ids[0]
      modifies this
      ensures Idle() && Explained(entries, now, n + 1, l')
      ensures |entries| == |old(entries)| && forall i :: 0 <= i < |entries| ==> entries[i].id == old(entries)[i].id
      ensures 0 <= l'.Work() - l.Work() <= cfg.maxCatchUp && l.calls <= l'.calls
      ensures l'.remaining + l'.calls == l.remaining + l.calls
      ensures Tallied(outcomes, l) ==> Tallied(outcomes, l')
      ensures Path(cfg, t, Solo(old(State()), t, Shape(now, ids, Ready, l)), labels,
                   Solo(State(), t, Shape(now, ids, Leaving, l')), Drawn(outcomes, l.calls, l'.calls))
    {
      LookupIs(entries, n);
      hide RegistryOk, Path, Solo, IsDue, Count;
      l', labels := ProcessEntry(t, ids[0], now, outcomes, l.(attempted := 0, examined := false), n, ids);
      VisitExplains(old(entries), entries, now, n, l, l');
    }

    // One wall-clock tick that runs alone, with an arbitrary dispatcher: each counter is the number
    // of calls with that result, the tick is saturated exactly when due work remains, unless a
    // dispatch that never started already leaves its own occurrence due, and the whole tick is a
    // run of the state machine that leads to the same registry and the same report.
    method Tick(t: TickId, now: Instant, outcomes: nat -> Outcome)
      returns (report: Report, calls: nat, ghost work: seq<nat>, ghost labels: seq<Label>)
      requires ValidConfig(cfg) && Idle()
      modifies this
      ensures Idle() && IdsOf(entries) == IdsOf(old(entries))
      ensures report.dispatched == Count(outcomes, calls, Confirmed)
      ensures report.notStarted == Count(outcomes, calls, NotStarted)
      ensures report.reconciliation == Count(outcomes, calls, Unknown)
      ensures calls == report.dispatched + report.notStarted + report.reconciliation <= cfg.maxDispatches
      ensures |work| <= |entries| && (forall w <- work :: w <= cfg.maxCatchUp) && Sum(work) == calls + report.skipped
      ensures report.saturated ==> EntriesHaveDue(entries, now)
      ensures report.notStarted == 0 && EntriesHaveDue(entries, now) ==> report.saturated
      ensures StepsOf(t, labels) && Results(labels) == Drawn(outcomes, 0, calls)
      ensures var (after, events) := Exec(cfg, Sys(old(State()), map[]), labels);
        after == Sys(State(), map[]) && events != [] && events[|events| - 1] == Reported(t, report)
    {
      hide RegistryOk, Path, Solo, IsDue, Count, Exec;
      var ids := IdsOf(entries);
      var l := Local(0, false, cfg.maxDispatches, EmptyReport(), 0);
      var n := 0;
      work := [];
      ghost var from := Sys(State(), map[]);
      ghost var k := Shape(now, ids, Ready, l);
      SoloStart(cfg, State(), t, now);
      labels := [Start(t, now)];
      NothingTallied(outcomes, l);
      while n < |ids| && l.remaining > 0
        invariant n <= |ids| == |entries| && (forall i :: 0 <= i < |ids| ==> entries[i].id == ids[i]) && Idle()
        invariant l.remaining + l.calls == cfg.maxDispatches && Tallied(outcomes, l)
        invariant |work| == n && Sum(work) == l.Work() && forall w <- work :: w <= cfg.maxCatchUp
        invariant Explained(entries, now, n, l)
        invariant if l.remaining > 0 then k == Shape(now, ids[n..], Ready, l)
                  else k.phase == Leaving && k == Shape(now, k.ids, Leaving, l)
        invariant Path(cfg, t, from, labels, Solo(State(), t, k), Drawn(outcomes, 0, l.calls))
        decreases |ids| - n
      {
        ghost var was, mid := l, Solo(State(), t, k);
        ghost var more;
        assert ids[n..][0] == ids[n];
        l, more := VisitEntry(t, n, now, outcomes, l, ids[n..]);
        SumOfAppend(work, l.Work() - was.Work());
        work := work + [l.Work() - was.Work()];
        k := Shape(now, ids[n..], Leaving, l);
        PathJoin(cfg, t, from, labels, mid, more, Solo(State(), t, k),
                 Drawn(outcomes, 0, was.calls), Drawn(outcomes, was.calls, l.calls));
        DrawnConcat(outcomes, 0, was.calls, l.calls);
        labels := labels + more;
        if l.remaining > 0 {
          ghost var k' := Shape(now, ids[n + 1..], Ready, l);
          SoloAdvance(cfg, State(), t, k, k');
          PathJoin(cfg, t, from, labels, Solo(State(), t, k), [Advance(t, false)], Solo(State(), t, k'),
                   Drawn(outcomes, 0, l.calls), []);
          assert Drawn(outcomes, 0, l.calls) + [] == Drawn(outcomes, 0, l.calls);
          labels, k := labels + [Advance(t, false)], k';
        }
        n := n + 1;
      }
      report, calls := l.report, l.calls;
      if l.remaining == 0 {
        report := report.(saturated := report.saturated || EntriesHaveDue(entries, now));
      }
      CountsAddUp(outcomes, calls);
      SoloReport(cfg, State(), t, k, report, from, labels, Drawn(outcomes, 0, calls));
      labels := labels + [Advance(t, false)];
    }
  }
}
