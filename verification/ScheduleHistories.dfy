// What the events of one registration say about each other, over every finite life of it.
module ScheduleHistories {
  import opened Prelude
  import opened ScheduleEntries

  // ---------------------------------------------------------------- cursor accounting

  // Due instants the cursor moved past, in order: confirmed outcomes, dropped misfires, and
  // occurrences the owner confirmed.
  function Consumed(events: seq<EntryEvent>): seq<Instant> {
    if events == [] then []
    else
      var rest := Consumed(events[1..]);
      match events[0]
      case Settled(due, Confirmed) => [due] + rest
      case Dropped(due) => [due] + rest
      case OwnerConfirmed(due) => [due] + rest
      case _ => rest
  }

  // `dues` are exactly the successive plan occurrences that lead from cursor `from` to `to`.
  predicate Consumes(plan: Plan, from: Option<Instant>, dues: seq<Instant>, to: Option<Instant>)
    decreases |dues|
  {
    if dues == [] then from == to
    else from == Some(dues[0]) && Consumes(plan, Successor(plan, from), dues[1..], to)
  }

  function Iterate(plan: Plan, cursor: Option<Instant>, n: nat): Option<Instant>
    decreases n
  {
    if n == 0 then cursor else Iterate(plan, Successor(plan, cursor), n - 1)
  }

  lemma {:induction false} ConsumesIterates(plan: Plan, from: Option<Instant>, dues: seq<Instant>, to: Option<Instant>)
    requires Consumes(plan, from, dues, to)
    ensures to == Iterate(plan, from, |dues|)
    ensures forall i, j :: 0 <= i < j < |dues| ==> dues[i] < dues[j]
    ensures to.Some? && dues != [] ==> dues[|dues| - 1] < to.value
    decreases |dues|
  {
    if dues != [] {
      ConsumesIterates(plan, Successor(plan, from), dues[1..], to);
      forall j | 1 <= j < |dues| ensures dues[0] < dues[j] {
        assert dues[1..][0] <= dues[1..][j - 1];
      }
      assert forall i, j :: 1 <= i < j < |dues| ==> dues[i] == dues[1..][i - 1] && dues[j] == dues[1..][j - 1];
    }
  }

  lemma {:induction false} ConsumesConcat(plan: Plan, from: Option<Instant>, first: seq<Instant>, mid: Option<Instant>,
                       second: seq<Instant>, to: Option<Instant>)
    requires Consumes(plan, from, first, mid) && Consumes(plan, mid, second, to)
    ensures Consumes(plan, from, first + second, to)
    decreases |first|
  {
    if first == [] {
      assert first + second == second;
    } else {
      ConsumesConcat(plan, Successor(plan, from), first[1..], mid, second, to);
      assert (first + second)[1..] == first[1..] + second;
    }
  }

  lemma {:induction false} ConsumedConcat(first: seq<EntryEvent>, second: seq<EntryEvent>)
    ensures Consumed(first + second) == Consumed(first) + Consumed(second)
  {
    if first == [] {
      assert first + second == second;
    } else {
      ConsumedConcat(first[1..], second);
      assert (first + second)[1..] == first[1..] + second;
    }
  }

  lemma {:induction false} ConsumedDrops(dues: seq<Instant>)
    ensures Consumed(Drops(dues)) == dues
    decreases |dues|
  {
    if dues != [] {
      ConsumedDrops(dues[1..]);
      assert Drops(dues)[1..] == Drops(dues[1..]);
      assert dues == [dues[0]] + dues[1..];
    }
  }

  lemma {:induction false} SweepConsumes(cfg: Config, e: Entry, now: Instant, limit: nat)
    ensures var (r, dues) := Sweep(cfg, e, now, limit); Consumes(e.plan, e.next, dues, r.next)
    decreases limit
  {
    if limit > 0 && e.next.Some? && IsOverdue(now, e.next.value, cfg.grace) {
      SweepConsumes(cfg, AdvanceOnce(e), now, limit - 1);
      var (r, dues) := Sweep(cfg, AdvanceOnce(e), now, limit - 1);
      assert ([e.next.value] + dues)[1..] == dues;
    }
  }

  lemma StepConsumes(cfg: Config, e: Entry, a: EntryAction)
    requires WellFormed(e) && Enabled(e, a)
    ensures var (r, events) := EntryNext(cfg, e, a); Consumes(e.plan, e.next, Consumed(events), r.next)
  {
    if a.SettleNow? {
      var (r, dues) := Settle(cfg, e, a.outcome, a.misfired, a.now, a.limit);
      ConsumedConcat([Settled(e.next.value, a.outcome)], Drops(dues));
      ConsumedDrops(dues);
      if a.outcome == Confirmed {
        var advanced := AdvanceOnce(e.(token := None));
        if a.misfired && e.policy == FireOnce {
          var bounded := if advanced.next.Some? then advanced.(boundary := Some(a.now)) else advanced;
          SweepConsumes(cfg, bounded, a.now, a.limit);
        }
        assert Consumes(e.plan, e.next, [e.next.value], advanced.next);
        ConsumesConcat(e.plan, e.next, [e.next.value], advanced.next, dues, r.next);
      }
    }
  }

  // Over any life of a registration, the consumed dues are the plan's own occurrences from the
  // first cursor to the last one: none is lost, none is invented, none is taken twice.
  lemma {:induction false} CursorIsAccountedFor(cfg: Config, e: Entry, actions: seq<EntryAction>)
    requires WellFormed(e) && AllEnabled(cfg, e, actions)
    ensures var (r, events) := EntryRun(cfg, e, actions);
      && WellFormed(r) && r.id == e.id && r.plan == e.plan
      && Consumes(e.plan, e.next, Consumed(events), r.next)
    decreases |actions|
  {
    if actions != [] {
      var (e1, first) := EntryNext(cfg, e, actions[0]);
      EntryNextFacts(cfg, e, actions[0]);
      StepConsumes(cfg, e, actions[0]);
      CursorIsAccountedFor(cfg, e1, actions[1..]);
      var (r, rest) := EntryRun(cfg, e1, actions[1..]);
      ConsumedConcat(first, rest);
      ConsumesConcat(e.plan, e.next, Consumed(first), e1.next, Consumed(rest), r.next);
    }
  }

  // ---------------------------------------------------------------- repeated dispatch

  predicate Releases(ev: EntryEvent, due: Instant) {
    ev == Settled(due, NotStarted) || ev == OwnerRetry(due)
  }

  predicate Settles(ev: EntryEvent) {
    || (ev.Settled? && ev.outcome != Unknown)
    || ev.OwnerConfirmed? || ev.OwnerRetry?
  }

  // The occurrence `due` has been issued and is still unresolved, or the cursor is past it.
  predicate IssuedOrPast(e: Entry, due: Instant) {
    e.next.None? || due < e.next.value
    || (e.next.value == due && e.status == ReconciliationRequired)
  }

  // An occurrence that was issued is issued again only after it was reported not started or the
  // owner asked for that very occurrence to be retried.
  lemma {:induction false} ReissueNeedsRelease(cfg: Config, e: Entry, due: Instant, actions: seq<EntryAction>)
    requires WellFormed(e) && IssuedOrPast(e, due) && AllEnabled(cfg, e, actions)
    requires forall ev <- EntryRun(cfg, e, actions).1 :: !Releases(ev, due)
    ensures forall ev <- EntryRun(cfg, e, actions).1 :: ev.Issued? ==> due < ev.due
    decreases |actions|
  {
    if actions != [] {
      var (e1, first) := EntryNext(cfg, e, actions[0]);
      var rest := EntryRun(cfg, e1, actions[1..]).1;
      EntryNextFacts(cfg, e, actions[0]);
      assert forall ev <- first :: ev in first + rest;
      assert IssuedOrPast(e1, due) by { StepKeepsIssuedOrPast(cfg, e, due, actions[0]); }
      assert forall ev <- rest :: ev in first + rest;
      ReissueNeedsRelease(cfg, e1, due, actions[1..]);
    }
  }

  lemma StepKeepsIssuedOrPast(cfg: Config, e: Entry, due: Instant, a: EntryAction)
    requires WellFormed(e) && Enabled(e, a) && IssuedOrPast(e, due)
    requires forall ev <- EntryNext(cfg, e, a).1 :: !Releases(ev, due)
    ensures IssuedOrPast(EntryNext(cfg, e, a).0, due)
  {
    var events := EntryNext(cfg, e, a).1;
    assert events != [] ==> events[0] in events;
    EntryNextFacts(cfg, e, a);
  }

  lemma StepUnresolved(cfg: Config, e: Entry, a: EntryAction)
    requires e.status == ReconciliationRequired && Enabled(e, a)
    requires forall ev <- EntryNext(cfg, e, a).1 :: !Settles(ev)
    ensures forall ev <- EntryNext(cfg, e, a).1 :: !ev.Issued?
    ensures var r := EntryNext(cfg, e, a).0;
      && r.status == ReconciliationRequired && r.next == e.next && r.boundary == e.boundary
      && (r.policy == e.policy || a == RestoreNow(r.policy))
  {
    var events := EntryNext(cfg, e, a).1;
    assert events != [] ==> events[0] in events;
  }

  // While an issued occurrence is unresolved, nothing is issued for the schedule and neither the
  // cursor nor the boundary moves; a lost outcome, a dropped tick or a restart does not end that.
  lemma {:induction false} UnresolvedBlocks(cfg: Config, e: Entry, actions: seq<EntryAction>)
    requires WellFormed(e) && e.status == ReconciliationRequired && AllEnabled(cfg, e, actions)
    requires forall ev <- EntryRun(cfg, e, actions).1 :: !Settles(ev)
    ensures forall ev <- EntryRun(cfg, e, actions).1 :: !ev.Issued?
    ensures var r := EntryRun(cfg, e, actions).0;
      && r.status == ReconciliationRequired && r.next == e.next && r.boundary == e.boundary
      && (KeepsPolicy(actions, e.policy) ==> r.policy == e.policy)
    decreases |actions|
  {
    if actions != [] {
      var (e1, first) := EntryNext(cfg, e, actions[0]);
      var rest := EntryRun(cfg, e1, actions[1..]).1;
      EntryNextFacts(cfg, e, actions[0]);
      assert forall ev <- first :: ev in first + rest;
      StepUnresolved(cfg, e, actions[0]);
      assert actions[0] in actions;
      assert forall ev <- rest :: ev in first + rest;
      UnresolvedBlocks(cfg, e1, actions[1..]);
    }
  }

  // ---------------------------------------------------------------- abandoned backlog

  predicate KeepsPolicy(actions: seq<EntryAction>, policy: MisfirePolicy) {
    forall a <- actions :: a.RestoreNow? ==> a.policy == policy
  }

  // Everything the entry could still issue is either on time at `instant` or will be dropped by
  // the boundary the entry carries.
  predicate AbandonedThrough(cfg: Config, e: Entry, instant: Instant) {
    || e.next.None?
    || !IsOverdue(instant, e.next.value, cfg.grace)
    || (e.policy == FireOnce && e.boundary.Some? && instant <= e.boundary.value
        && (e.status == Active || e.status == Paused))
  }

  lemma StepKeepsAbandoned(cfg: Config, e: Entry, instant: Instant, a: EntryAction)
    requires WellFormed(e) && Enabled(e, a) && AbandonedThrough(cfg, e, instant)
    requires a.RestoreNow? ==> a.policy == e.policy
    ensures AbandonedThrough(cfg, EntryNext(cfg, e, a).0, instant)
    ensures forall ev <- EntryNext(cfg, e, a).1 :: ev.Issued? ==> !IsOverdue(instant, ev.due, cfg.grace)
  {
    EntryNextFacts(cfg, e, a);
  }

  lemma {:induction false} AbandonedStaysAbandoned(cfg: Config, e: Entry, instant: Instant, actions: seq<EntryAction>)
    requires WellFormed(e) && AbandonedThrough(cfg, e, instant) && AllEnabled(cfg, e, actions)
    requires KeepsPolicy(actions, e.policy)
    ensures forall ev <- EntryRun(cfg, e, actions).1 :: ev.Issued? ==> !IsOverdue(instant, ev.due, cfg.grace)
    decreases |actions|
  {
    if actions != [] {
      var (e1, first) := EntryNext(cfg, e, actions[0]);
      assert actions[0] in actions;
      EntryNextFacts(cfg, e, actions[0]);
      StepKeepsAbandoned(cfg, e, instant, actions[0]);
      assert KeepsPolicy(actions[1..], e1.policy);
      AbandonedStaysAbandoned(cfg, e1, instant, actions[1..]);
    }
  }

  // Confirming a FireOnce misfire that was issued at `instant` abandons the backlog at `instant`,
  // whether the dispatcher confirms it or the owner does.
  lemma ConfirmationAbandons(cfg: Config, e: Entry, instant: Instant, a: EntryAction)
    requires WellFormed(e) && Enabled(e, a)
    requires e.policy == FireOnce && e.status == ReconciliationRequired && e.boundary == Some(instant)
    requires a == ResolveNow(ResolveConfirmed) || (a.SettleNow? && a.outcome == Confirmed)
    ensures AbandonedThrough(cfg, EntryNext(cfg, e, a).0, instant)
  {
    EntryNextFacts(cfg, e, a);
  }

  // ---------------------------------------------------------------- what the policies allow

  // Why an action may emit an event. Only due occurrences are issued, and never an overdue one under
  // the skipping policy. An occurrence is dropped only by the skipping policy, overdue at that
  // instant, or under FireOnce, overdue at the instant of the misfire that stands for its backlog.
  ghost predicate Justified(cfg: Config, e: Entry, a: EntryAction, ev: EntryEvent) {
    match ev
    case Issued(due, now, misfired) =>
      && a.DecideNow? && now == a.budget.now && e.status == Active && e.next == Some(due) && due <= now
      && (misfired <==> now - due > cfg.grace) && (e.policy == SkipMisfires ==> !misfired)
      && a.budget.open && a.budget.hasCapacity && !a.budget.shutdown
    case Dropped(due) =>
      || (e.policy == SkipMisfires && a.DecideNow? && e.next == Some(due) && a.budget.now - due > cfg.grace)
      || (e.policy == FireOnce && e.boundary.Some? && e.boundary.value - due > cfg.grace)
    case Settled(due, _) => e.next == Some(due)
    case OwnerConfirmed(due) => e.next == Some(due)
    case OwnerRetry(due) => e.next == Some(due)
  }

  lemma {:induction false} SweepDropsOverdue(cfg: Config, e: Entry, now: Instant, limit: nat)
    ensures forall due <- Sweep(cfg, e, now, limit).1 :: IsOverdue(now, due, cfg.grace)
    decreases limit
  {
    if limit > 0 && e.next.Some? && IsOverdue(now, e.next.value, cfg.grace) {
      SweepDropsOverdue(cfg, AdvanceOnce(e), now, limit - 1);
    }
  }

  lemma EventsAreJustified(cfg: Config, e: Entry, a: EntryAction, ev: EntryEvent)
    requires Enabled(e, a) && ev in EntryNext(cfg, e, a).1
    ensures Justified(cfg, e, a, ev)
  {
    if a.SettleNow? && a.outcome == Confirmed && a.misfired && e.policy == FireOnce {
      var advanced := AdvanceOnce(e.(token := None));
      var bounded := if advanced.next.Some? then advanced.(boundary := Some(a.now)) else advanced;
      SweepDropsOverdue(cfg, bounded, a.now, a.limit);
      var dues := Settle(cfg, e, a.outcome, a.misfired, a.now, a.limit).1;
      if ev.Dropped? {
        var i :| 0 <= i < |Drops(dues)| && Drops(dues)[i] == ev;
        assert dues[i] in dues;
      }
    }
  }

  // An entry that still owes its occurrence, with nothing standing for it.
  predicate Offers(e: Entry, due: Instant) {
    e.status == Active && e.next == Some(due) && e.boundary == None
  }

  // An occurrence that never started, or that the owner wants retried, is offered again.
  lemma ReleasedIsOffered(cfg: Config, e: Entry, a: EntryAction, ev: EntryEvent)
    requires Enabled(e, a) && ev in EntryNext(cfg, e, a).1 && Releases(ev, ev.due)
    ensures Offers(EntryNext(cfg, e, a).0, ev.due)
  {
  }

  // An offered occurrence is dispatched by the first decision that has room at or after its due
  // instant, unless the skipping policy finds it overdue.
  lemma OfferedIsDispatched(cfg: Config, e: Entry, due: Instant, b: Budget)
    requires Offers(e, due) && b.open && b.hasCapacity && !b.shutdown && due <= b.now
    ensures Decide(cfg, e, b).1 ==
            if e.policy == SkipMisfires && b.now - due > cfg.grace then Skipped(due)
            else Dispatch(due, b.now - due > cfg.grace)
  {
  }
}
