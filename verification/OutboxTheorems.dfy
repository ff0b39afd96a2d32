// The outbox relay's promises over recorded histories: any finite interleaving of relay runs,
// insertions, injected store failures and dropped runs, over any initial store.
module OutboxTheorems {
  import opened Prelude
  import opened OutboxStore
  import opened OutboxRelay
  import opened OutboxRuns

  datatype Trace = Trace(states: seq<Sys>, labels: seq<Label>, events: seq<seq<Event>>)

  // Step m leads from states[m] to states[m + 1] and emits events[m].
  ghost predicate IsTrace(t: Trace) {
    && |t.states| == |t.labels| + 1 && |t.events| == |t.labels|
    && t.states[0].runs == map[] && t.states[0].delivered == {}
    && forall m :: 0 <= m < |t.labels| ==>
         Enabled(t.states[m], t.labels[m]) && Step(t.states[m], t.labels[m]) == (t.states[m + 1], t.events[m])
  }

  lemma {:induction false} StateIsOk(t: Trace, n: nat)
    requires IsTrace(t) && n <= |t.labels|
    ensures Inv(t.states[n])
    decreases n
  {
    hide Step, Enabled;
    if n == 0 {
    } else {
      hide Inv;
      StateIsOk(t, n - 1);
      assert Enabled(t.states[n - 1], t.labels[n - 1]);
      StepKeeps(t.states[n - 1], t.labels[n - 1]);
    }
  }

  lemma StepOk(t: Trace, m: nat)
    requires IsTrace(t) && m < |t.labels|
    ensures t.states[m].delivered <= t.states[m + 1].delivered
    ensures forall ev <- t.events[m] ::
              && !Impossible(ev)
              && (ev.HandedOver? ==> ev.id !in t.states[m].delivered)
              && (ev.Answered? && Final(ev.policy, ev.answer) ==> ev.id in t.states[m + 1].delivered)
  {
    hide Step, Enabled, Inv, Impossible;
    StateIsOk(t, m);
    assert Enabled(t.states[m], t.labels[m]);
    StepKeeps(t.states[m], t.labels[m]);
  }

  lemma {:induction false} DeliveredGrows(t: Trace, a: nat, b: nat)
    requires IsTrace(t) && a <= b <= |t.labels|
    ensures t.states[a].delivered <= t.states[b].delivered
    decreases b
  {
    if a < b {
      hide IsTrace;
      assert |t.states| == |t.labels| + 1 by { TraceShape(t); }
      DeliveredGrows(t, a, b - 1);
      StepOk(t, b - 1);
    }
  }

  lemma TraceShape(t: Trace)
    requires IsTrace(t)
    ensures |t.states| == |t.labels| + 1 && |t.events| == |t.labels|
  {
  }

  // ---------------------------------------------------------------- at most one effective delivery

  // Once the producer answered Confirmed for an entry, or OutcomeUnknown to a run that does not retry
  // unknown outcomes, no run, present or future, whatever its policy, hands that entry to a producer
  // again: not after a refused mark, not after a dropped run, not after any release.
  lemma NeverDeliveredTwice(t: Trace, i: nat, k: nat, first: Event, second: Event)
    requires IsTrace(t) && i < k < |t.labels|
    requires |t.events| == |t.labels| && first in t.events[i] && second in t.events[k]
    requires first.Answered? && Final(first.policy, first.answer) && second.HandedOver?
    ensures first.id != second.id
  {
    hide IsTrace;
    TraceShape(t);
    StepOk(t, i);
    DeliveredGrows(t, i + 1, k);
    StepOk(t, k);
  }

  // A run's mark or release of an entry it claimed is never refused as unknown or as an invalid
  // transition: the only refusals are injected ones.
  lemma MarksAreNeverInvalid(t: Trace, m: nat, ev: Event)
    requires IsTrace(t) && m < |t.labels|
    requires |t.events| == |t.labels| && ev in t.events[m] && ev.MarkRefused?
    ensures ev.error.Injected?
  {
    hide IsTrace;
    StepOk(t, m);
  }

  // Every report of every run accounts for the whole batch, whatever the other runs did meanwhile.
  lemma ReportsAccountForTheBatch(t: Trace, m: nat, ev: Event)
    requires IsTrace(t) && m < |t.labels|
    requires |t.events| == |t.labels| && ev in t.events[m] && ev.Finished?
    ensures ev.report.claimed == Accounted(ev.report) + Residue(ev.ending)
  {
    hide IsTrace;
    StepOk(t, m);
  }

  // ---------------------------------------------------------------- repeated hand-over

  // First position of a batch that its run has not handed to the producer.
  function HandFrom(run: Run): nat {
    if run.phase.AtProducer? || run.phase.Marking? then run.at + 1 else run.at
  }

  // The entry is not pending, and no live run has it still ahead.
  ghost predicate OutOfReach(s: Sys, id: OutboxId) {
    && id in s.store.records && s.store.records[id].state != Pending
    && forall r <- s.runs :: forall k :: HandFrom(s.runs[r]) <= k < |s.runs[r].ids| ==> s.runs[r].ids[k] != id
  }

  // This step persists an answer for the entry that makes it pending again: a producer error or an
  // unknown outcome under a policy that retries it.
  ghost predicate RetriesEntry(s: Sys, l: Label, id: OutboxId) {
    && l.Mark? && Enabled(s, l)
    && var run := s.runs[l.run];
       && run.ids[run.at] == id
       && ((run.phase.answer == Unknown && run.policy.outcomeUnknown == Retry) ||
           (run.phase.answer == Error && run.policy.producerError == Retry))
       && MarkSection(s.store, id, run.policy, run.phase.answer).1.Ok?
  }

  lemma HandedIsOutOfReach(s: Sys, r: nat)
    requires Inv(s) && Enabled(s, HandOver(r))
    ensures OutOfReach(Step(s, HandOver(r)).0, s.runs[r].ids[s.runs[r].at])
  {
    var after, id := Step(s, HandOver(r)).0, s.runs[r].ids[s.runs[r].at];
    assert RunOk(s.store, s.delivered, s.runs[r]);
    forall q <- after.runs, k | HandFrom(after.runs[q]) <= k < |after.runs[q].ids| ensures after.runs[q].ids[k] != id {
      if q != r { assert Disjoint(s.runs[r], s.runs[q]); }
    }
  }

  lemma MarkKeepsOutOfReach(s: Sys, r: nat, id: OutboxId)
    requires Inv(s) && Enabled(s, Mark(r)) && OutOfReach(s, id) && !RetriesEntry(s, Mark(r), id)
    ensures OutOfReach(StepMark(s, r).0, id)
  {
    var run := s.runs[r];
    var mine := run.ids[run.at];
    assert RunOk(s.store, s.delivered, run);
    MarkFacts(s.store, mine, run.policy, run.phase.answer);
    MarkCounts(run, mine, MarkSection(s.store, mine, run.policy, run.phase.answer).1);
    hide MarkSection, AfterMark, RunOk, Inv, Accounted, PhaseResidue;
  }

  lemma ReleaseKeepsOutOfReach(s: Sys, r: nat, id: OutboxId)
    requires Inv(s) && Enabled(s, Release(r)) && OutOfReach(s, id)
    ensures OutOfReach(StepRelease(s, r).0, id)
  {
    var run := s.runs[r];
    var mine := run.ids[run.at];
    assert RunOk(s.store, s.delivered, run);
    ReleaseFacts(s.store, mine);
    ReleaseCounts(run, MarkFailedSection(s.store, mine, Failure(NotAttempted, Retry)).1);
    hide MarkFailedSection, AfterRelease, RunOk, Inv, Accounted, PhaseResidue;
  }

  lemma BeginKeepsOutOfReach(s: Sys, r: nat, policy: Policy, limit: nat, ids: seq<OutboxId>, id: OutboxId)
    requires Enabled(s, Begin(r, policy, limit, ids)) && OutOfReach(s, id)
    ensures OutOfReach(StepBegin(s, r, policy, ids).0, id)
  {
    if !Faulty(s.store, ClaimPending) {
      assert forall x <- ids :: s.store.records[x].state == Pending;
    }
  }

  lemma StepKeepsOutOfReach(s: Sys, l: Label, id: OutboxId)
    requires Inv(s) && Enabled(s, l) && OutOfReach(s, id) && !RetriesEntry(s, l, id)
    ensures OutOfReach(Step(s, l).0, id)
    ensures forall ev <- Step(s, l).1 :: ev.HandedOver? ==> ev.id != id
  {
    match l {
      case Begin(r, policy, limit, ids) => BeginKeepsOutOfReach(s, r, policy, limit, ids, id);
      case Mark(r) => { MarkKeepsOutOfReach(s, r, id); MarkKeeps(s, r); }
      case Release(r) => { ReleaseKeepsOutOfReach(s, r, id); ReleaseKeeps(s, r); }
      case InsertEntry(_) =>
      case Inject(_, _) =>
      case HandOver(r) =>
      case Reply(r, _) =>
      case Finish(r) =>
      case Drop(r) =>
    }
  }

  lemma {:induction false} StaysOutOfReach(t: Trace, a: nat, b: nat, id: OutboxId)
    requires IsTrace(t) && a <= b <= |t.labels| && |t.states| == |t.labels| + 1 && OutOfReach(t.states[a], id)
    requires forall m :: a <= m < b ==> !RetriesEntry(t.states[m], t.labels[m], id)
    ensures OutOfReach(t.states[b], id)
    decreases b
  {
    if a < b {
      hide Step, Enabled, Inv, OutOfReach, RetriesEntry;
      StaysOutOfReach(t, a, b - 1, id);
      StateIsOk(t, b - 1);
      assert Enabled(t.states[b - 1], t.labels[b - 1]) && Step(t.states[b - 1], t.labels[b - 1]).0 == t.states[b];
      StepKeepsOutOfReach(t.states[b - 1], t.labels[b - 1], id);
    }
  }

  lemma HandOverIs(s: Sys, l: Label, ev: Event)
    requires Enabled(s, l) && ev in Step(s, l).1 && ev.HandedOver?
    ensures l == HandOver(ev.run) && s.runs[ev.run].ids[s.runs[ev.run].at] == ev.id
  {
    hide IsClaim, MarkSection, MarkFailedSection, InsertSection;
  }

  // Between two hand-overs of one entry, an answer that retries it was persisted. So an entry whose
  // run was dropped while the producer had it, or whose mark was refused, is never handed out again,
  // by any run, whatever the policies.
  lemma SecondHandOverNeedsRetry(t: Trace, i: nat, k: nat, first: Event, second: Event)
    requires IsTrace(t) && i < k < |t.labels| && |t.states| == |t.labels| + 1 && |t.events| == |t.labels|
    requires first in t.events[i] && second in t.events[k] && first.HandedOver? && second.HandedOver?
    requires first.id == second.id
    ensures exists m :: i < m < k && RetriesEntry(t.states[m], t.labels[m], first.id)
  {
    hide Step, Enabled, Inv, OutOfReach, RetriesEntry;
    assert Enabled(t.states[i], t.labels[i]) && Step(t.states[i], t.labels[i]) == (t.states[i + 1], t.events[i]);
    assert Enabled(t.states[k], t.labels[k]) && Step(t.states[k], t.labels[k]) == (t.states[k + 1], t.events[k]);
    HandOverIs(t.states[i], t.labels[i], first);
    HandOverIs(t.states[k], t.labels[k], second);
    StateIsOk(t, i);
    HandedIsOutOfReach(t.states[i], first.run);
    if forall m :: i < m < k ==> !RetriesEntry(t.states[m], t.labels[m], first.id) {
      StaysOutOfReach(t, i + 1, k, first.id);
      StateIsOk(t, k);
      HandingIsNoRetry(t.states[k], second.run, first.id);
      StepKeepsOutOfReach(t.states[k], t.labels[k], first.id);
      assert false;
    }
  }

  lemma HandingIsNoRetry(s: Sys, r: nat, id: OutboxId)
    ensures !RetriesEntry(s, HandOver(r), id)
  {
  }

  // ---------------------------------------------------------------- settled entries stay settled

  predicate Settled(state: EntryState) {
    state == Published || state == AwaitingReconciliation || state == Failed
  }

  lemma StepKeepsSettled(s: Sys, l: Label, id: OutboxId)
    requires Inv(s) && Enabled(s, l) && id in s.store.records && Settled(s.store.records[id].state)
    ensures id in Step(s, l).0.store.records && Step(s, l).0.store.records[id] == s.store.records[id]
  {
    match l {
      case Mark(r) => {
        assert RunOk(s.store, s.delivered, s.runs[r]);
        MarkFacts(s.store, s.runs[r].ids[s.runs[r].at], s.runs[r].policy, s.runs[r].phase.answer);
      }
      case Release(r) => {
        assert RunOk(s.store, s.delivered, s.runs[r]);
        ReleaseFacts(s.store, s.runs[r].ids[s.runs[r].at]);
      }
      case Begin(r, policy, limit, ids) => {
        if !Faulty(s.store, ClaimPending) { assert forall x <- ids :: s.store.records[x].state == Pending; }
      }
      case _ =>
    }
  }

  // An entry that was published, set aside for reconciliation or failed for good never moves again,
  // and its record is never lost.
  lemma {:induction false} SettledStaysSettled(t: Trace, a: nat, b: nat, id: OutboxId)
    requires IsTrace(t) && a <= b <= |t.labels| && |t.states| == |t.labels| + 1
    requires id in t.states[a].store.records && Settled(t.states[a].store.records[id].state)
    ensures id in t.states[b].store.records && t.states[b].store.records[id] == t.states[a].store.records[id]
    decreases b
  {
    if a < b {
      hide Step, Enabled, Inv;
      SettledStaysSettled(t, a, b - 1, id);
      StateIsOk(t, b - 1);
      assert Enabled(t.states[b - 1], t.labels[b - 1]);
      StepKeepsSettled(t.states[b - 1], t.labels[b - 1], id);
    }
  }

  // ---------------------------------------------------------------- no claim is left behind

  ghost predicate Owns(run: Run, id: OutboxId) {
    exists k :: run.at <= k < |run.ids| && run.ids[k] == id
  }

  ghost predicate Owned(s: Sys, id: OutboxId) {
    exists r :: r in s.runs && Owns(s.runs[r], id)
  }

  // Every claimed entry is in the hands of a live run.
  ghost predicate ClaimsAreOwned(s: Sys) {
    forall id <- s.store.records :: s.store.records[id].state == Claimed ==> Owned(s, id)
  }

  // Run r is replaced by one that owns the same entries, except possibly its current one.
  lemma StillOwned(s: Sys, runs: map<nat, Run>, r: nat, id: OutboxId)
    requires r in s.runs && r in runs && runs == s.runs[r := runs[r]]
    requires runs[r].ids == s.runs[r].ids && s.runs[r].at <= runs[r].at <= s.runs[r].at + 1
    requires Owned(s, id)
    requires runs[r].at > s.runs[r].at ==> s.runs[r].at < |s.runs[r].ids| && id != s.runs[r].ids[s.runs[r].at]
    ensures Owned(s.(runs := runs), id)
  {
    var after := s.(runs := runs);
    var q :| q in s.runs && Owns(s.runs[q], id);
    var k :| s.runs[q].at <= k < |s.runs[q].ids| && s.runs[q].ids[k] == id;
    assert Owns(after.runs[q], id) by {
      assert after.runs[q].at <= k && after.runs[q].ids[k] == id;
    }
  }

  lemma BeginOwns(s: Sys, r: nat, policy: Policy, limit: nat, ids: seq<OutboxId>)
    requires ClaimsAreOwned(s) && Enabled(s, Begin(r, policy, limit, ids))
    ensures ClaimsAreOwned(StepBegin(s, r, policy, ids).0)
  {
    var after := StepBegin(s, r, policy, ids).0;
    forall id <- after.store.records | after.store.records[id].state == Claimed ensures Owned(after, id) {
      if !Faulty(s.store, ClaimPending) && id in ids {
        var k :| 0 <= k < |ids| && ids[k] == id;
        assert Owns(after.runs[r], id) by { assert after.runs[r].ids[k] == id; }
      } else {
        assert Owned(s, id);
        var q :| q in s.runs && Owns(s.runs[q], id);
        assert q in after.runs && Owns(after.runs[q], id);
      }
    }
  }

  lemma MarkOwns(s: Sys, r: nat)
    requires Inv(s) && ClaimsAreOwned(s) && Enabled(s, Mark(r)) && StepMark(s, r).1 == []
    ensures ClaimsAreOwned(StepMark(s, r).0)
  {
    var run := s.runs[r];
    var id := run.ids[run.at];
    var after := StepMark(s, r).0;
    assert RunOk(s.store, s.delivered, run);
    MarkFacts(s.store, id, run.policy, run.phase.answer);
    hide MarkSection, AfterMark, Inv, Owned, RunOk;
    assert after.runs[r].ids == run.ids && after.runs[r].at == run.at + 1 by {
      MarkCounts(run, id, MarkSection(s.store, id, run.policy, run.phase.answer).1);
    }
    forall x <- after.store.records | after.store.records[x].state == Claimed ensures Owned(after, x) {
      StillOwned(s, after.runs, r, x);
      SameRunsSameOwners(s.(runs := after.runs), after, x);
    }
  }

  lemma SameRunsSameOwners(s: Sys, after: Sys, id: OutboxId)
    requires s.runs == after.runs && Owned(s, id)
    ensures Owned(after, id)
  {
  }

  lemma ReleaseOwns(s: Sys, r: nat)
    requires Inv(s) && ClaimsAreOwned(s) && Enabled(s, Release(r)) && StepRelease(s, r).1 == []
    ensures ClaimsAreOwned(StepRelease(s, r).0)
  {
    var run := s.runs[r];
    var id := run.ids[run.at];
    var after := StepRelease(s, r).0;
    assert RunOk(s.store, s.delivered, run);
    assert OnlyMoves(s.store, after.store, id) by { ReleaseFacts(s.store, id); }
    assert after.store.records[id].state != Claimed;
    hide MarkFailedSection, Inv, Owned;
    forall x <- after.store.records | after.store.records[x].state == Claimed ensures Owned(after, x) {
      StillOwned(s, after.runs, r, x);
      SameRunsSameOwners(s.(runs := after.runs), after, x);
    }
  }

  lemma FinishOwns(s: Sys, r: nat)
    requires ClaimsAreOwned(s) && Enabled(s, Finish(r))
    ensures ClaimsAreOwned(Step(s, Finish(r)).0)
  {
    var after := Step(s, Finish(r)).0;
    forall id <- after.store.records | after.store.records[id].state == Claimed ensures Owned(after, id) {
      assert Owned(s, id);
      var q :| q in s.runs && Owns(s.runs[q], id);
      assert q != r;
      assert q in after.runs && Owns(after.runs[q], id);
    }
  }

  lemma PhaseOwns(s: Sys, r: nat, phase: Phase, delivered: set<OutboxId>)
    requires ClaimsAreOwned(s) && r in s.runs
    ensures ClaimsAreOwned(s.(runs := s.runs[r := s.runs[r].(phase := phase)], delivered := delivered))
  {
    var runs := s.runs[r := s.runs[r].(phase := phase)];
    forall id <- s.store.records | s.store.records[id].state == Claimed
      ensures Owned(s.(runs := runs, delivered := delivered), id)
    {
      StillOwned(s, runs, r, id);
      SameRunsSameOwners(s.(runs := runs), s.(runs := runs, delivered := delivered), id);
    }
  }

  lemma StoreOwns(s: Sys, store: Store)
    requires ClaimsAreOwned(s)
    requires forall id <- store.records :: store.records[id].state == Claimed ==>
               id in s.store.records && s.store.records[id].state == Claimed
    ensures ClaimsAreOwned(s.(store := store))
  {
    forall id <- store.records | store.records[id].state == Claimed ensures Owned(s.(store := store), id) {
      SameRunsSameOwners(s, s.(store := store), id);
    }
  }

  lemma StepOwns(s: Sys, l: Label)
    requires Inv(s) && ClaimsAreOwned(s) && Enabled(s, l) && !l.Drop?
    requires forall ev <- Step(s, l).1 :: !ev.MarkRefused?
    ensures ClaimsAreOwned(Step(s, l).0)
  {
    hide Inv, ClaimsAreOwned, IsClaim, MarkSection, MarkFailedSection;
    match l {
      case InsertEntry(entry) => StoreOwns(s, InsertSection(s.store, entry).0);
      case Inject(op, times) => StoreOwns(s, s.store.(faults := s.store.faults[op := times]));
      case Begin(r, policy, limit, ids) => BeginOwns(s, r, policy, limit, ids);
      case HandOver(r) => PhaseOwns(s, r, AtProducer, s.delivered);
      case Reply(r, answer) => PhaseOwns(s, r, Marking(answer), Step(s, l).0.delivered);
      case Mark(r) => { NoRefusal(StepMark(s, r).1); MarkOwns(s, r); }
      case Release(r) => { NoRefusal(StepRelease(s, r).1); ReleaseOwns(s, r); }
      case Finish(r) => FinishOwns(s, r);
    }
  }

  lemma NoRefusal(events: seq<Event>)
    requires forall ev <- events :: !ev.MarkRefused?
    requires |events| <= 1 && (events != [] ==> events[0].MarkRefused?)
    ensures events == []
  {
  }

  // A history without dropped runs and refused marks leaves no claim behind, on any error path: every
  // claimed entry is held by a live run, and when no run is live nothing is claimed.
  lemma {:induction false} NoClaimIsLeftBehind(t: Trace, n: nat)
    requires IsTrace(t) && n <= |t.labels| && |t.states| == |t.labels| + 1 && |t.events| == |t.labels|
    requires forall id <- t.states[0].store.records :: t.states[0].store.records[id].state != Claimed
    requires forall m :: 0 <= m < n ==> !t.labels[m].Drop? && forall ev <- t.events[m] :: !ev.MarkRefused?
    ensures ClaimsAreOwned(t.states[n])
    ensures t.states[n].runs == map[] ==>
              forall id <- t.states[n].store.records :: t.states[n].store.records[id].state != Claimed
    decreases n
  {
    if n > 0 {
      NoClaimIsLeftBehind(t, n - 1);
      StateIsOk(t, n - 1);
      assert Enabled(t.states[n - 1], t.labels[n - 1]);
      assert Step(t.states[n - 1], t.labels[n - 1]) == (t.states[n], t.events[n - 1]);
      hide Step, Enabled, Inv;
      StepOwns(t.states[n - 1], t.labels[n - 1]);
    }
  }

  // ---------------------------------------------------------------- the policy decides

  ghost predicate Uses(t: Trace, policy: Policy) {
    forall m :: 0 <= m < |t.labels| && t.labels[m].Begin? ==> t.labels[m].policy == policy
  }

  ghost predicate Repeats(t: Trace) {
    exists i, k, first: Event, second: Event ::
      && 0 <= i < k < |t.events| && first in t.events[i] && second in t.events[k]
      && first.Answered? && first.answer != Error && second.HandedOver? && first.id == second.id
  }

  ghost predicate Excludes(policy: Policy) {
    forall t :: IsTrace(t) && Uses(t, policy) ==> !Repeats(t)
  }

  // A store with one entry: pending with no run, or claimed by run r.
  ghost function Idle(attempts: nat, last: Option<Failure>, delivered: set<OutboxId>): Sys {
    Sys(Store(map[0 := Record(Entry(0, "m", 0, attempts), Pending, last)], map[]), map[], delivered)
  }

  ghost function Held(policy: Policy, r: nat, attempts: nat, last: Option<Failure>, phase: Phase,
                      delivered: set<OutboxId>): Sys {
    Sys(Store(map[0 := Record(Entry(0, "m", 0, attempts), Claimed, last)], map[]),
        map[r := Run(policy, [0], 0, phase, NewReport(1))], delivered)
  }

  lemma BeginOnIdle(policy: Policy, r: nat, attempts: nat, last: Option<Failure>, delivered: set<OutboxId>)
    requires attempts < 10
    ensures var s := Idle(attempts, last, delivered);
            && Enabled(s, Begin(r, policy, 1, [0]))
            && Step(s, Begin(r, policy, 1, [0])) == (Held(policy, r, attempts + 1, last, Ready, delivered), [])
  {
    var s := Idle(attempts, last, delivered);
    assert PendingIds(s.store.records) == {0};
    assert IsClaim(s.store.records, 1, [0]);
    assert ClaimAll(s.store.records, [0]) == Held(policy, r, attempts + 1, last, Ready, delivered).store.records;
  }

  lemma HandOverOnHeld(policy: Policy, r: nat, attempts: nat, last: Option<Failure>, delivered: set<OutboxId>)
    ensures var s := Held(policy, r, attempts, last, Ready, delivered);
            && Enabled(s, HandOver(r))
            && Step(s, HandOver(r)) == (Held(policy, r, attempts, last, AtProducer, delivered), [HandedOver(r, 0)])
  {
    assert Step(Held(policy, r, attempts, last, Ready, delivered), HandOver(r)).0.runs
        == Held(policy, r, attempts, last, AtProducer, delivered).runs;
  }

  lemma ReplyOnHeld(policy: Policy)
    requires policy.outcomeUnknown == Retry
    ensures var s := Held(policy, 0, 1, None, AtProducer, {});
            && Enabled(s, Reply(0, Unknown))
            && Step(s, Reply(0, Unknown)) ==
               (Held(policy, 0, 1, None, Marking(Unknown), {}), [Answered(0, 0, policy, Unknown)])
  {
    var after := Step(Held(policy, 0, 1, None, AtProducer, {}), Reply(0, Unknown)).0;
    assert after.runs == Held(policy, 0, 1, None, Marking(Unknown), {}).runs;
  }

  // The state after an unknown outcome was put back as pending.
  ghost function PutBack(policy: Policy): Sys {
    Idle(1, Some(Failure(OutcomeUnknown, Retry)), {}).(
      runs := map[0 := Run(policy, [0], 1, Ready, NewReport(1).(retryScheduled := 1))])
  }

  lemma MarkOnHeld(policy: Policy)
    requires policy.outcomeUnknown == Retry
    ensures var s := Held(policy, 0, 1, None, Marking(Unknown), {});
            Enabled(s, Mark(0)) && Step(s, Mark(0)) == (PutBack(policy), [])
  {
    var s := Held(policy, 0, 1, None, Marking(Unknown), {});
    assert MarkSection(s.store, 0, policy, Unknown).0.records == PutBack(policy).store.records;
    assert StepMark(s, 0).0.runs == PutBack(policy).runs;
  }

  lemma FinishPutBack(policy: Policy)
    ensures var s := PutBack(policy);
            && Enabled(s, Finish(0))
            && Step(s, Finish(0)).0 == Idle(1, Some(Failure(OutcomeUnknown, Retry)), {})
  {
  }

  lemma Extend(t: Trace, policy: Policy, l: Label, s: Sys, after: Sys, events: seq<Event>) returns (u: Trace)
    requires IsTrace(t) && Uses(t, policy) && (l.Begin? ==> l.policy == policy)
    requires |t.states| == |t.labels| + 1 && t.states[|t.labels|] == s
    requires Enabled(s, l) && Step(s, l) == (after, events)
    ensures IsTrace(u) && Uses(u, policy)
    ensures u == Trace(t.states + [after], t.labels + [l], t.events + [events])
    ensures |u.states| == |u.labels| + 1 && u.states[|u.labels|] == after
  {
    hide Step, Enabled;
    u := Trace(t.states + [after], t.labels + [l], t.events + [events]);
  }

  lemma EmptyTrace(policy: Policy) returns (t: Trace)
    ensures t == Trace([Idle(0, None, {})], [], []) && IsTrace(t) && Uses(t, policy)
  {
    t := Trace([Idle(0, None, {})], [], []);
  }

  // An entry is claimed, published and answered with an unknown outcome.
  lemma UnknownAnswer(policy: Policy) returns (t: Trace)
    requires policy.outcomeUnknown == Retry
    ensures IsTrace(t) && Uses(t, policy) && |t.labels| == 3 && |t.events| == 3 && |t.states| == 4
    ensures t.states[3] == Held(policy, 0, 1, None, Marking(Unknown), {})
    ensures Answered(0, 0, policy, Unknown) in t.events[2]
  {
    hide *;
    t := EmptyTrace(policy);
    BeginOnIdle(policy, 0, 0, None, {});
    t := Extend(t, policy, Begin(0, policy, 1, [0]), Idle(0, None, {}), Held(policy, 0, 1, None, Ready, {}), []);
    HandOverOnHeld(policy, 0, 1, None, {});
    t := Extend(t, policy, HandOver(0), Held(policy, 0, 1, None, Ready, {}),
                Held(policy, 0, 1, None, AtProducer, {}), [HandedOver(0, 0)]);
    ReplyOnHeld(policy);
    t := Extend(t, policy, Reply(0, Unknown), Held(policy, 0, 1, None, AtProducer, {}),
                Held(policy, 0, 1, None, Marking(Unknown), {}), [Answered(0, 0, policy, Unknown)]);
  }

  // A first pass whose unknown outcome was put back as pending.
  lemma FirstPass(policy: Policy) returns (t: Trace)
    requires policy.outcomeUnknown == Retry
    ensures IsTrace(t) && Uses(t, policy) && |t.labels| == 5 && |t.events| == 5 && |t.states| == 6
    ensures t.states[5] == Idle(1, Some(Failure(OutcomeUnknown, Retry)), {})
    ensures Answered(0, 0, policy, Unknown) in t.events[2]
  {
    hide *;
    t := UnknownAnswer(policy);
    MarkOnHeld(policy);
    t := Extend(t, policy, Mark(0), Held(policy, 0, 1, None, Marking(Unknown), {}), PutBack(policy), []);
    FinishPutBack(policy);
    var done := Step(PutBack(policy), Finish(0));
    t := Extend(t, policy, Finish(0), PutBack(policy), done.0, done.1);
  }

  // Retrying an unknown outcome does hand the same entry out again.
  lemma RetryRepeats(policy: Policy)
    requires policy.outcomeUnknown == Retry
    ensures exists t :: IsTrace(t) && Uses(t, policy) && Repeats(t)
  {
    hide *;
    var again := Some(Failure(OutcomeUnknown, Retry));
    var t := FirstPass(policy);
    BeginOnIdle(policy, 1, 1, again, {});
    t := Extend(t, policy, Begin(1, policy, 1, [0]), Idle(1, again, {}), Held(policy, 1, 2, again, Ready, {}), []);
    HandOverOnHeld(policy, 1, 2, again, {});
    t := Extend(t, policy, HandOver(1), Held(policy, 1, 2, again, Ready, {}),
                Held(policy, 1, 2, again, AtProducer, {}), [HandedOver(1, 0)]);
    assert HandedOver(1, 0) in t.events[6];
    RepeatsBetween(t, 2, 6, Answered(0, 0, policy, Unknown), HandedOver(1, 0));
  }

  lemma RepeatsBetween(t: Trace, i: nat, k: nat, first: Event, second: Event)
    requires i < k < |t.events| && first in t.events[i] && second in t.events[k]
    requires first.Answered? && first.answer != Error && second.HandedOver? && first.id == second.id
    ensures Repeats(t)
  {
  }

  lemma StepUses(s: Sys, l: Label, policy: Policy)
    requires Enabled(s, l) && (l.Begin? ==> l.policy == policy)
    requires forall r <- s.runs :: s.runs[r].policy == policy
    ensures forall r <- Step(s, l).0.runs :: Step(s, l).0.runs[r].policy == policy
    ensures forall ev <- Step(s, l).1 :: ev.Answered? ==> ev.policy == policy
  {
    hide IsClaim, MarkSection, MarkFailedSection, InsertSection;
  }

  lemma {:induction false} RunsUse(t: Trace, policy: Policy, n: nat)
    requires IsTrace(t) && Uses(t, policy) && n <= |t.labels|
    ensures forall r <- t.states[n].runs :: t.states[n].runs[r].policy == policy
    ensures forall m, ev :: 0 <= m < n && ev in t.events[m] && ev.Answered? ==> ev.policy == policy
    decreases n
  {
    if n > 0 {
      hide Step, Enabled;
      RunsUse(t, policy, n - 1);
      assert Enabled(t.states[n - 1], t.labels[n - 1]);
      assert Step(t.states[n - 1], t.labels[n - 1]) == (t.states[n], t.events[n - 1]);
      StepUses(t.states[n - 1], t.labels[n - 1], policy);
    }
  }

  lemma NotAgainUnderPolicy(t: Trace, policy: Policy, i: nat, k: nat, first: Event, second: Event)
    requires IsTrace(t) && Uses(t, policy) && policy.outcomeUnknown != Retry
    requires i < k < |t.events| && first in t.events[i] && second in t.events[k]
    requires first.Answered? && first.answer != Error && second.HandedOver?
    ensures first.id != second.id
  {
    hide IsTrace, Uses;
    TraceShape(t);
    RunsUse(t, policy, |t.labels|);
    assert first.policy == policy;
    NeverDeliveredTwice(t, i, k, first, second);
  }

  lemma ExcludedUnderPolicy(t: Trace, policy: Policy)
    requires IsTrace(t) && Uses(t, policy) && policy.outcomeUnknown != Retry
    ensures !Repeats(t)
  {
    hide IsTrace, Uses;
    forall i, k, first: Event, second: Event
      | 0 <= i < k < |t.events| && first in t.events[i] && second in t.events[k]
        && first.Answered? && first.answer != Error && second.HandedOver?
      ensures first.id != second.id
    {
      NotAgainUnderPolicy(t, policy, i, k, first, second);
    }
  }

  // The policy alone decides: repeated delivery is excluded over all histories exactly when an
  // unknown outcome is not retried.
  lemma RepeatsExactlyWhenUnknownIsRetried(policy: Policy)
    ensures Excludes(policy) <==> policy.outcomeUnknown != Retry
  {
    hide IsTrace, Uses, Repeats;
    if policy.outcomeUnknown == Retry {
      RetryRepeats(policy);
    } else {
      forall t | IsTrace(t) && Uses(t, policy) ensures !Repeats(t) {
        ExcludedUnderPolicy(t, policy);
      }
    }
  }
}
