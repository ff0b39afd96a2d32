// One tick with nothing beside it, as a path of the scheduler's state machine.
module SchedulerSolo {
  import opened Prelude
  import opened ScheduleEntries
  import opened SchedulerRegistry
  import opened SchedulerMachine

  ghost function Solo(c: Registry, t: TickId, k: Tick): Sys {
    Sys(c, map[t := k])
  }

  // The dispatcher results that a sequence of labels carries, in order.
  function Results(labels: seq<Label>): seq<Outcome> {
    if labels == [] then []
    else (if labels[0].Return? then [labels[0].outcome] else []) + Results(labels[1..])
  }

  ghost predicate StepsOf(t: TickId, labels: seq<Label>) {
    forall l <- labels ::
      && (l.Start? || l.Choose? || l.Return? || l.Advance?) && l.t == t
      && (l.Choose? || l.Advance? ==> !l.shutdown)
  }

  // These labels are steps of tick t, carry these results and lead from one state to another.
  ghost predicate Path(cfg: Config, t: TickId, from: Sys, labels: seq<Label>, to: Sys, results: seq<Outcome>) {
    StepsOf(t, labels) && Results(labels) == results && Exec(cfg, from, labels).0 == to
  }

  lemma {:induction false} ResultsConcat(a: seq<Label>, b: seq<Label>)
    ensures Results(a + b) == Results(a) + Results(b)
    decreases |a|
  {
    if a == [] {
      assert a + b == b;
    } else {
      ResultsConcat(a[1..], b);
      assert (a + b)[0] == a[0] && (a + b)[1..] == a[1..] + b;
    }
  }

  lemma {:induction false} ExecConcat(cfg: Config, s: Sys, a: seq<Label>, b: seq<Label>)
    ensures Exec(cfg, s, a + b) ==
      (Exec(cfg, Exec(cfg, s, a).0, b).0, Exec(cfg, s, a).1 + Exec(cfg, Exec(cfg, s, a).0, b).1)
    decreases |a|
  {
    hide Step;
    if a == [] {
      assert a + b == b && [] + Exec(cfg, s, b).1 == Exec(cfg, s, b).1;
    } else {
      var (s1, first) := Step(cfg, s, a[0]);
      ExecConcat(cfg, s1, a[1..], b);
      assert (a + b)[0] == a[0] && (a + b)[1..] == a[1..] + b;
      assert first + (Exec(cfg, s1, a[1..]).1 + Exec(cfg, Exec(cfg, s, a).0, b).1) ==
        (first + Exec(cfg, s1, a[1..]).1) + Exec(cfg, Exec(cfg, s, a).0, b).1;
    }
  }

  lemma PathJoin(cfg: Config, t: TickId, s0: Sys, a: seq<Label>, s1: Sys, b: seq<Label>, s2: Sys,
                 first: seq<Outcome>, rest: seq<Outcome>)
    requires Path(cfg, t, s0, a, s1, first) && Path(cfg, t, s1, b, s2, rest)
    ensures Path(cfg, t, s0, a + b, s2, first + rest)
  {
    hide Exec, Results;
    ResultsConcat(a, b);
    ExecConcat(cfg, s0, a, b);
  }

  lemma StepPath(cfg: Config, t: TickId, s: Sys, l: Label)
    requires StepsOf(t, [l])
    ensures Path(cfg, t, s, [l], Step(cfg, s, l).0, if l.Return? then [l.outcome] else [])
    ensures Exec(cfg, s, [l]).1 == Step(cfg, s, l).1
  {
    hide Step;
    assert [l][1..] == [];
    var (s', events) := Step(cfg, s, l);
    assert Exec(cfg, s', []) == (s', []) && events + [] == events;
    assert Results([]) == [] && forall o: seq<Outcome> :: o + [] == o;
  }

  // ---------------------------------------------------------------- one step of the lone tick

  lemma SoloChoose(cfg: Config, c: Registry, t: TickId, k: Tick)
    requires k.phase.Deciding? && k.ids != []
    ensures var r := DecideSection(cfg, c, InputFor(cfg, t, k, false));
      Path(cfg, t, Solo(c, t, k), [Choose(t, false)],
           Solo(r.registry, t, AfterDecision(k, r.admission, r.pending)), [])
  {
    hide DecideSection, AfterDecision, Exec;
    StepPath(cfg, t, Solo(c, t, k), Choose(t, false));
    var r := DecideSection(cfg, c, InputFor(cfg, t, k, false));
    var k' := AfterDecision(k, r.admission, r.pending);
    assert map[t := k][t := k'] == map[t := k'];
  }

  lemma SoloReturn(cfg: Config, c: Registry, t: TickId, k: Tick, outcome: Outcome)
    requires k.phase.Dispatching?
    ensures var r := SettleSection(cfg, c, k.phase.pending, outcome, k.now, Monus(cfg.maxCatchUp, k.phase.attempted));
      Path(cfg, t, Solo(c, t, k), [Return(t, outcome)],
           Solo(r.registry, t, AfterReturn(k, outcome, r)), [outcome])
  {
    hide SettleSection, AfterReturn, Exec;
    StepPath(cfg, t, Solo(c, t, k), Return(t, outcome));
    var r := SettleSection(cfg, c, k.phase.pending, outcome, k.now, Monus(cfg.maxCatchUp, k.phase.attempted));
    var k' := AfterReturn(k, outcome, r);
    assert map[t := k][t := k'] == map[t := k'];
  }

  // A tick takes up its next schedule, leaves it, or moves on to the one after it.
  lemma SoloAdvance(cfg: Config, c: Registry, t: TickId, k: Tick, k': Tick)
    requires k.ids != []
    requires match k.phase
      case Ready => k' == k.(phase := Deciding(0, false))
      case Closing(attempted) =>
        k' == k.(phase := Leaving, report := k.report.(saturated :=
          k.report.saturated || ClosingSaturates(cfg, c, k.ids[0], k.now, attempted)))
      case Leaving => k.remaining > 0 && k' == k.(phase := Ready, ids := k.ids[1..])
      case _ => false
    ensures Path(cfg, t, Solo(c, t, k), [Advance(t, false)], Solo(c, t, k'), [])
  {
    hide ClosingSaturates, Exec;
    StepPath(cfg, t, Solo(c, t, k), Advance(t, false));
    assert map[t := k][t := k'] == map[t := k'];
  }

  lemma SoloStart(cfg: Config, c: Registry, t: TickId, now: Instant)
    ensures Path(cfg, t, Sys(c, map[]), [Start(t, now)],
                 Solo(c, t, Tick(now, IdsOf(c.entries), Ready, cfg.maxDispatches, EmptyReport())), [])
  {
    hide Exec;
    StepPath(cfg, t, Sys(c, map[]), Start(t, now));
  }

  // A tick without a schedule left, or without budget left, reports and is gone.
  lemma SoloReport(cfg: Config, c: Registry, t: TickId, k: Tick, report: Report, from: Sys,
                   labels: seq<Label>, results: seq<Outcome>)
    requires Path(cfg, t, from, labels, Solo(c, t, k), results)
    requires match k.phase
      case Ready => k.ids == [] && report == k.report
      case Leaving =>
        k.remaining == 0 && report == k.report.(saturated := k.report.saturated || EntriesHaveDue(c.entries, k.now))
      case _ => false
    ensures StepsOf(t, labels + [Advance(t, false)]) && Results(labels + [Advance(t, false)]) == results
    ensures var (after, events) := Exec(cfg, from, labels + [Advance(t, false)]);
      after == Sys(c, map[]) && events != [] && events[|events| - 1] == Reported(t, report)
  {
    hide EntriesHaveDue, Exec, Results;
    var last := Advance(t, false);
    StepPath(cfg, t, Solo(c, t, k), last);
    assert map[t := k] - {t} == map[];
    assert Step(cfg, Solo(c, t, k), last) == (Sys(c, map[]), [Reported(t, report)]);
    PathJoin(cfg, t, from, labels, Solo(c, t, k), [last], Sys(c, map[]), results, []);
    assert results + [] == results;
    ExecConcat(cfg, from, labels, [last]);
  }
}
