// What a tick's report says about the run that produced it: every counter is a number of that
// tick's own steps, beside whatever else runs.
module SchedulerReports {
  import opened Prelude
  import opened ScheduleEntries
  import opened SchedulerRegistry
  import opened SchedulerMachine
  import opened SchedulerSafety
  import opened SchedulerRuns
  import opened SchedulerTheorems

  // Dispatcher results of one kind, dropped occurrences, schedules looked at, and the steps at
  // which a bound left due work behind.
  datatype Counter = ResultsOf(outcome: Outcome) | DroppedDues | Examinations | Overflows

  ghost predicate Awaits(s: Sys, t: TickId) {
    t in s.ticks && s.ticks[t].phase.Dispatching?
  }

  ghost predicate DueAt(e: Entry, now: Instant) {
    e.status == Active && e.next.Some? && e.next.value <= now
  }

  // The tick is about to decide for the first time on a schedule that is registered and Active.
  ghost predicate FirstLook(s: Sys, t: TickId) {
    && t in s.ticks && s.ticks[t].phase.Deciding? && !s.ticks[t].phase.examined && s.ticks[t].ids != []
    && exists e <- s.registry.entries :: e.id == s.ticks[t].ids[0] && e.status == Active
  }

  // The tick leaves a schedule at its catch-up bound, or ends at its dispatch bound, with work due.
  ghost predicate Overflow(cfg: Config, s: Sys, t: TickId) {
    && t in s.ticks
    && var k := s.ticks[t];
    && match k.phase
       case Closing(attempted) =>
         attempted >= cfg.maxCatchUp && k.ids != [] &&
         exists e <- s.registry.entries :: e.id == k.ids[0] && DueAt(e, k.now)
       case Leaving => k.remaining == 0 && exists e <- s.registry.entries :: DueAt(e, k.now)
       case _ => false
  }

  function DropsIn(events: seq<Event>): nat {
    if events == [] then 0
    else (if events[0].On? && events[0].event.Dropped? then 1 else 0) + DropsIn(events[1..])
  }

  // What the step from s adds to a counter of tick t.
  ghost function Adds(cfg: Config, s: Sys, l: Label, events: seq<Event>, t: TickId, c: Counter): nat {
    match c
    case ResultsOf(o) => if l == Return(t, o) && Awaits(s, t) then 1 else 0
    case DroppedDues => if (l.Choose? || l.Return?) && l.t == t then DropsIn(events) else 0
    case Examinations => if l.Choose? && l.t == t && FirstLook(s, t) then 1 else 0
    case Overflows => if l.Advance? && l.t == t && Overflow(cfg, s, t) then 1 else 0
  }

  ghost predicate Begins(s: Sys, l: Label, t: TickId) {
    l.Start? && l.t == t && t !in s.ticks
  }

  // The count over the steps of tick t before step n, from the step that began it.
  ghost function Counted(cfg: Config, r: Record, n: nat, t: TickId, c: Counter): nat
    requires n <= |r.labels| == |r.events| && |r.states| == |r.labels| + 1
  {
    if n == 0 || Begins(r.states[n - 1], r.labels[n - 1], t) then 0
    else Counted(cfg, r, n - 1, t, c) + Adds(cfg, r.states[n - 1], r.labels[n - 1], r.events[n - 1], t, c)
  }

  // The counter of a report that stands for c.
  function Shown(report: Report, c: Counter): nat {
    match c
    case ResultsOf(Confirmed) => report.dispatched
    case ResultsOf(NotStarted) => report.notStarted
    case ResultsOf(Unknown) => report.reconciliation
    case DroppedDues => report.skipped
    case Examinations => report.examined
    case Overflows => if report.saturated then 1 else 0
  }

  // The report counts what was added: exactly, or for saturation at least once.
  ghost predicate Grows(before: Report, after: Report, added: nat, c: Counter) {
    if c == Overflows then after.saturated <==> before.saturated || added > 0
    else Shown(after, c) == Shown(before, c) + added
  }

  lemma DropsInTagged(id: ScheduleId, dues: seq<Instant>)
    ensures DropsIn(Tag(id, Drops(dues))) == |dues|
    decreases |dues|
  {
    if dues != [] {
      DropsInTagged(id, dues[1..]);
      assert Tag(id, Drops(dues))[1..] == Tag(id, Drops(dues[1..]));
    }
  }

  lemma DropsInSettlement(id: ScheduleId, due: Instant, outcome: Outcome, dues: seq<Instant>)
    ensures DropsIn(Tag(id, [Settled(due, outcome)] + Drops(dues))) == |dues|
  {
    DropsInTagged(id, dues);
    assert Tag(id, [Settled(due, outcome)] + Drops(dues))[1..] == Tag(id, Drops(dues));
  }

  lemma RegisteredIs(entries: seq<Entry>, id: ScheduleId)
    requires DistinctIds(entries)
    ensures forall e <- entries :: e.id == id ==> Lookup(entries, id) == Some(e)
  {
    forall e <- entries | e.id == id ensures Lookup(entries, id) == Some(e) {
      var i :| 0 <= i < |entries| && entries[i] == e;
      LookupIs(entries, i);
    }
  }

  // A decision is taken exactly on a schedule that was examined before or is registered and Active.
  lemma AdmissionIs(cfg: Config, c: Registry, i: DecideInput)
    requires DistinctIds(c.entries)
    ensures var r := DecideSection(cfg, c, i);
      && (!i.examined ==> (r.admission.Decided? <==> exists e <- c.entries :: e.id == i.id && e.status == Active))
      && (r.admission.Decided? && r.admission.decision.Dispatch? ==> r.pending.Some?)
  {
    hide Decide;
    RegisteredIs(c.entries, i.id);
  }

  lemma DecisionShows(k: Tick, a: Admission, pending: Option<Pending>, c: Counter)
    requires k.phase.Deciding? && !(a.Decided? && a.decision.Saturated?)
    requires a.Decided? && a.decision.Dispatch? ==> pending.Some?
    ensures Grows(k.report, AfterDecision(k, a, pending).report,
                  match c
                  case ResultsOf(_) | Overflows => 0
                  case DroppedDues => if a.Decided? && a.decision.Skipped? then 1 else 0
                  case Examinations => if a.Decided? && !k.phase.examined then 1 else 0,
                  c)
  {
  }

  lemma ChooseShows(cfg: Config, s: Sys, t: TickId, shutdown: bool, c: Counter)
    requires Inv(cfg, s) && t in s.ticks
    requires forall ev <- Step(cfg, s, Choose(t, shutdown)).1 :: !Impossible(ev)
    ensures var (s', events) := Step(cfg, s, Choose(t, shutdown));
      && t in s'.ticks
      && Grows(s.ticks[t].report, s'.ticks[t].report, Adds(cfg, s, Choose(t, shutdown), events, t, c), c)
  {
    assert DistinctIds(s.registry.entries);
    hide Inv, DecideSection, AfterDecision, Overflow, Awaits;
    var k := s.ticks[t];
    if k.phase.Deciding? && k.ids != [] {
      var r := DecideSection(cfg, s.registry, InputFor(cfg, t, k, shutdown));
      AdmissionIs(cfg, s.registry, InputFor(cfg, t, k, shutdown));
      if r.admission.Decided? {
        var d := r.admission.decision;
        if d.Saturated? { assert Impossible(SlotRefused(k.ids[0])); }
        DropsInDecision(k.ids[0], d, k.now);
      }
      DecisionShows(k, r.admission, r.pending, c);
    }
  }

  lemma DropsInDecision(id: ScheduleId, d: Decision, now: Instant)
    ensures DropsIn(Tag(id, DecisionEvents(d, now))) == if d.Skipped? then 1 else 0
  {
    var tagged := Tag(id, DecisionEvents(d, now));
    assert |tagged| <= 1;
    if |tagged| == 1 { assert tagged[1..] == []; }
  }

  lemma ReturnShows(cfg: Config, s: Sys, t: TickId, outcome: Outcome, c: Counter)
    requires t in s.ticks
    requires forall ev <- Step(cfg, s, Return(t, outcome)).1 :: !Impossible(ev)
    ensures var (s', events) := Step(cfg, s, Return(t, outcome));
      && t in s'.ticks
      && Grows(s.ticks[t].report, s'.ticks[t].report, Adds(cfg, s, Return(t, outcome), events, t, c), c)
  {
    hide SettleSection, Lookup;
    var k := s.ticks[t];
    if k.phase.Dispatching? {
      var p := k.phase.pending;
      var r := SettleSection(cfg, s.registry, p, outcome, k.now, Monus(cfg.maxCatchUp, k.phase.attempted));
      if r.applied {
        DropsInSettlement(p.id, p.due, outcome, r.dues);
      } else {
        assert Impossible(StaleOutcome(p.id));
      }
    }
  }

  lemma AdvanceShows(cfg: Config, s: Sys, t: TickId, shutdown: bool, c: Counter)
    requires Inv(cfg, s) && t in s.ticks
    ensures var (s', events) := Step(cfg, s, Advance(t, shutdown));
      var added := Adds(cfg, s, Advance(t, shutdown), events, t, c);
      && (t in s'.ticks ==> Grows(s.ticks[t].report, s'.ticks[t].report, added, c))
      && (forall report :: Reported(t, report) in events ==> Grows(s.ticks[t].report, report, added, c))
  {
    assert DistinctIds(s.registry.entries);
    hide Inv, Lookup;
    var k := s.ticks[t];
    assert forall e <- s.registry.entries :: DueAt(e, k.now) <==> IsDue(e, k.now);
    if k.ids != [] { RegisteredIs(s.registry.entries, k.ids[0]); }
  }

  ghost predicate Drives(l: Label, t: TickId) {
    (l.Choose? || l.Return? || l.Advance?) && l.t == t
  }

  lemma OthersLeaveTickAlone(cfg: Config, s: Sys, l: Label, t: TickId)
    requires t in s.ticks && !Drives(l, t)
    ensures var (s', events) := Step(cfg, s, l);
      && (t in s'.ticks ==> s'.ticks[t] == s.ticks[t])
      && (forall report :: Reported(t, report) !in events)
  {
    hide DecideSection, SettleSection, ClosingSaturates, EntriesHaveDue, Rebuilt, IdsOf;
    hide AfterDecision, AfterReturn, AddSection, RemoveSection, SuspendSection, ResolveSection;
  }

  lemma StepShows(cfg: Config, s: Sys, l: Label, t: TickId, c: Counter)
    requires Inv(cfg, s) && LabelOk(l) && t in s.ticks
    ensures var (s', events) := Step(cfg, s, l);
      var added := Adds(cfg, s, l, events, t, c);
      && (t in s'.ticks ==> Grows(s.ticks[t].report, s'.ticks[t].report, added, c))
      && (forall report :: Reported(t, report) in events ==> Grows(s.ticks[t].report, report, added, c))
  {
    hide Inv, Step, FirstLook, Overflow, DropsIn, Awaits;
    StepKeeps(cfg, s, l);
    if !Drives(l, t) {
      OthersLeaveTickAlone(cfg, s, l, t);
    } else {
      match l
      case Choose(_, shutdown) => ChooseShows(cfg, s, t, shutdown, c); TurnsDoNotReport(cfg, s, l);
      case Return(_, outcome) => ReturnShows(cfg, s, t, outcome, c); TurnsDoNotReport(cfg, s, l);
      case Advance(_, shutdown) => AdvanceShows(cfg, s, t, shutdown, c);
    }
  }

  lemma TurnsDoNotReport(cfg: Config, s: Sys, l: Label)
    requires l.Choose? || l.Return?
    ensures forall ev <- Step(cfg, s, l).1 :: !ev.Reported?
  {
    hide DecideSection, SettleSection, AfterDecision, AfterReturn;
  }

  // While a tick is under way its report shows exactly what its steps added so far.
  lemma {:induction false} ReportKeepsCount(cfg: Config, r: Record, n: nat, t: TickId, c: Counter)
    requires IsRun(cfg, r) && n <= |r.labels| && t in r.states[n].ticks
    ensures Grows(EmptyReport(), r.states[n].ticks[t].report, Counted(cfg, r, n, t, c), c)
  {
    hide Step, Inv, Adds;
    if n > 0 {
      var s, l := r.states[n - 1], r.labels[n - 1];
      assert Step(cfg, s, l) == (r.states[n], r.events[n - 1]) && LabelOk(l);
      StateIsOk(cfg, r, n - 1);
      if t in s.ticks {
        ReportKeepsCount(cfg, r, n - 1, t, c);
        StepShows(cfg, s, l, t, c);
      } else {
        NewTickIsEmpty(cfg, s, l, t);
      }
    }
  }

  lemma NewTickIsEmpty(cfg: Config, s: Sys, l: Label, t: TickId)
    requires t !in s.ticks && t in Step(cfg, s, l).0.ticks
    ensures Begins(s, l, t) && Step(cfg, s, l).0.ticks[t].report == EmptyReport()
  {
  }

  lemma ReportedOnce(cfg: Config, s: Sys, l: Label, t: TickId, report: Report)
    requires Reported(t, report) in Step(cfg, s, l).1
    ensures t in s.ticks && t !in Step(cfg, s, l).0.ticks && l.Advance? && l.t == t
  {
  }

  lemma ReportCounts(cfg: Config, r: Record, m: nat, t: TickId, report: Report, c: Counter)
    requires IsRun(cfg, r) && m < |r.labels| && Reported(t, report) in r.events[m]
    ensures r.labels[m].Advance? && r.labels[m].t == t && t !in r.states[m + 1].ticks
    ensures Grows(EmptyReport(), report, Counted(cfg, r, m + 1, t, c), c)
  {
    hide Step, Inv, Adds;
    var s, l := r.states[m], r.labels[m];
    assert Step(cfg, s, l) == (r.states[m + 1], r.events[m]) && LabelOk(l);
    StateIsOk(cfg, r, m);
    ReportedOnce(cfg, s, l, t, report);
    ReportKeepsCount(cfg, r, m, t, c);
    StepShows(cfg, s, l, t, c);
  }

  // In every run, beside any other ticks, owner calls and restarts, a tick that reports has
  // counted its own steps: `dispatched`, `notStarted` and `reconciliation` are the numbers of its
  // Return labels with each outcome, `skipped` the occurrences its steps dropped, `examined` the
  // registered Active schedules it took up, and it is saturated exactly when at one of its steps
  // a bound left due work behind. Then the tick is over.
  lemma ReportsCountTheTick(cfg: Config, r: Record, m: nat, t: TickId, report: Report)
    requires IsRun(cfg, r) && m < |r.labels| && Reported(t, report) in r.events[m]
    ensures report.dispatched == Counted(cfg, r, m + 1, t, ResultsOf(Confirmed))
    ensures report.notStarted == Counted(cfg, r, m + 1, t, ResultsOf(NotStarted))
    ensures report.reconciliation == Counted(cfg, r, m + 1, t, ResultsOf(Unknown))
    ensures report.skipped == Counted(cfg, r, m + 1, t, DroppedDues)
    ensures report.examined == Counted(cfg, r, m + 1, t, Examinations)
    ensures report.saturated <==> Counted(cfg, r, m + 1, t, Overflows) > 0
    ensures r.labels[m].Advance? && r.labels[m].t == t && t !in r.states[m + 1].ticks
  {
    hide IsRun, Counted;
    ReportCounts(cfg, r, m, t, report, ResultsOf(Confirmed));
    ReportCounts(cfg, r, m, t, report, ResultsOf(NotStarted));
    ReportCounts(cfg, r, m, t, report, ResultsOf(Unknown));
    ReportCounts(cfg, r, m, t, report, DroppedDues);
    ReportCounts(cfg, r, m, t, report, Examinations);
    ReportCounts(cfg, r, m, t, report, Overflows);
  }
}
