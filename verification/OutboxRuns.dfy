// Any number of relay runs interleaved over one in-memory outbox, with entries being inserted,
// store failures being injected at any moment and runs being dropped where they stand. Every label
// is one store operation, or one exchange with the producer.
module OutboxRuns {
  import opened Prelude
  import opened OutboxStore
  import opened OutboxRelay

  // Where a run stands at the entry it has reached.
  datatype Phase =
    | Ready                             // about to hand it to the producer
    | AtProducer                        // the producer has it
    | Marking(answer: Answer)           // the producer answered, nothing persisted yet
    | Releasing(error: RelayError)      // giving it back unattempted

  datatype Run = Run(policy: Policy, ids: seq<OutboxId>, at: nat, phase: Phase, report: Report)

  // `delivered` records the entries whose publication was answered for good; no step reads it.
  datatype Sys = Sys(store: Store, runs: map<nat, Run>, delivered: set<OutboxId>)

  // Answers after which the entry must not be published again: a confirmation always, an unknown
  // outcome unless the run's policy opts into retrying it.
  predicate Final(policy: Policy, answer: Answer) {
    answer == Confirmed || (answer == Unknown && policy.outcomeUnknown != Retry)
  }

  datatype Label =
    | InsertEntry(entry: Entry)
    | Inject(operation: Operation, times: nat)
    | Begin(run: nat, policy: Policy, limit: nat, ids: seq<OutboxId>)
    | HandOver(run: nat)
    | Reply(run: nat, answer: Answer)
    | Mark(run: nat)
    | Release(run: nat)
    | Finish(run: nat)
    | Drop(run: nat)

  datatype Event =
    | ClaimRefused(run: nat, error: StoreError)
    | HandedOver(run: nat, id: OutboxId)
    | Answered(run: nat, id: OutboxId, policy: Policy, answer: Answer)
    | MarkRefused(run: nat, id: OutboxId, error: StoreError)
    | Finished(run: nat, report: Report, ending: Option<RelayError>)

  // ---------------------------------------------------------------- steps

  function MarkSection(store: Store, id: OutboxId, policy: Policy, answer: Answer): (Store, Result<(), StoreError>) {
    match answer
    case Confirmed => MarkPublishedSection(store, id)
    case Unknown => MarkFailedSection(store, id, Failure(OutcomeUnknown, policy.outcomeUnknown))
    case Error => MarkFailedSection(store, id, Failure(ProducerError, policy.producerError))
  }

  // The run after its mark: it goes on to the next entry, or starts releasing what is left.
  function AfterMark(run: Run, id: OutboxId, answer: Answer, result: Result<(), StoreError>): Run {
    var next := run.(at := run.at + 1);
    match (answer, result)
    case (Confirmed, Ok(_)) => next.(phase := Ready, report := run.report.(published := run.report.published + 1))
    case (Unknown, Ok(_)) =>
      next.(phase := Ready, report := RecordDisposition(run.report, run.policy.outcomeUnknown))
    case (Error, Ok(_)) =>
      next.(phase := Releasing(PublishFailed(id)), report := RecordDisposition(run.report, run.policy.producerError))
    case (Confirmed, Err(e)) => next.(phase := Releasing(StoreFailed(MarkPublished, e)))
    case (Unknown, Err(e)) => next.(phase := Releasing(StoreFailed(MarkFailed, e)))
    case (Error, Err(e)) => next.(phase := Releasing(PublishAndStoreFailed(id, e)))
  }

  function AfterRelease(run: Run, result: Result<(), StoreError>): Run {
    run.(at := run.at + 1,
         report := if result.Ok? then RecordDisposition(run.report, Retry)
                   else run.report.(unreleasedClaims := run.report.unreleasedClaims + 1))
  }

  function Refusals(run: nat, id: OutboxId, result: Result<(), StoreError>): seq<Event> {
    if result.Err? then [MarkRefused(run, id, result.error)] else []
  }

  ghost predicate Enabled(s: Sys, l: Label) {
    match l
    case InsertEntry(_) => true
    case Inject(_, _) => true
    case Begin(r, _, limit, ids) =>
      r !in s.runs && (Faulty(s.store, ClaimPending) || IsClaim(s.store.records, limit, ids))
    case HandOver(r) => r in s.runs && s.runs[r].phase == Ready && s.runs[r].at < |s.runs[r].ids|
    case Reply(r, _) => r in s.runs && s.runs[r].phase == AtProducer && s.runs[r].at < |s.runs[r].ids|
    case Mark(r) => r in s.runs && s.runs[r].phase.Marking? && s.runs[r].at < |s.runs[r].ids|
    case Release(r) => r in s.runs && s.runs[r].phase.Releasing? && s.runs[r].at < |s.runs[r].ids|
    case Finish(r) =>
      && r in s.runs && (s.runs[r].phase == Ready || s.runs[r].phase.Releasing?)
      && s.runs[r].at == |s.runs[r].ids|
    case Drop(r) => r in s.runs
  }

  ghost function StepMark(s: Sys, r: nat): (Sys, seq<Event>)
    requires Enabled(s, Mark(r))
  {
    var run := s.runs[r];
    var id := run.ids[run.at];
    var (store, result) := MarkSection(s.store, id, run.policy, run.phase.answer);
    (s.(store := store, runs := s.runs[r := AfterMark(run, id, run.phase.answer, result)]), Refusals(r, id, result))
  }

  ghost function StepRelease(s: Sys, r: nat): (Sys, seq<Event>)
    requires Enabled(s, Release(r))
  {
    var run := s.runs[r];
    var id := run.ids[run.at];
    var (store, result) := MarkFailedSection(s.store, id, Failure(NotAttempted, Retry));
    (s.(store := store, runs := s.runs[r := AfterRelease(run, result)]), Refusals(r, id, result))
  }

  ghost function StepBegin(s: Sys, r: nat, policy: Policy, ids: seq<OutboxId>): (Sys, seq<Event>) {
    if Faulty(s.store, ClaimPending) then
      (s.(store := Spend(s.store, ClaimPending)), [ClaimRefused(r, Injected(ClaimPending))])
    else
      (s.(store := s.store.(records := ClaimAll(s.store.records, ids)),
          runs := s.runs[r := Run(policy, ids, 0, Ready, NewReport(|ids|))]), [])
  }

  ghost function Step(s: Sys, l: Label): (Sys, seq<Event>)
    requires Enabled(s, l)
  {
    match l
    case InsertEntry(entry) => (s.(store := InsertSection(s.store, entry).0), [])
    case Inject(op, times) => (s.(store := s.store.(faults := s.store.faults[op := times])), [])
    case Begin(r, policy, _, ids) => StepBegin(s, r, policy, ids)
    case HandOver(r) =>
      (s.(runs := s.runs[r := s.runs[r].(phase := AtProducer)]), [HandedOver(r, s.runs[r].ids[s.runs[r].at])])
    case Reply(r, answer) =>
      var id := s.runs[r].ids[s.runs[r].at];
      (s.(runs := s.runs[r := s.runs[r].(phase := Marking(answer))],
          delivered := if Final(s.runs[r].policy, answer) then s.delivered + {id} else s.delivered),
       [Answered(r, id, s.runs[r].policy, answer)])
    case Mark(r) => StepMark(s, r)
    case Release(r) => StepRelease(s, r)
    case Finish(r) =>
      var run := s.runs[r];
      (s.(runs := s.runs - {r}),
       [Finished(r, run.report, if run.phase.Releasing? then Some(run.phase.error) else None)])
    case Drop(r) => (s.(runs := s.runs - {r}), [])
  }

  // ---------------------------------------------------------------- what every state keeps

  // First position of the batch that was not yet handed to the producer with an effect.
  function FreshFrom(run: Run): nat {
    if run.phase.Marking? && Final(run.policy, run.phase.answer) then run.at + 1 else run.at
  }

  function PhaseResidue(run: Run): nat {
    if run.phase.Releasing? then Residue(Some(run.phase.error)) else 0
  }

  ghost predicate RunOk(store: Store, delivered: set<OutboxId>, run: Run) {
    && run.at <= |run.ids| && (run.phase.AtProducer? || run.phase.Marking? ==> run.at < |run.ids|)
    && (forall i, j :: 0 <= i < j < |run.ids| ==> run.ids[i] != run.ids[j])
    && (forall k :: run.at <= k < |run.ids| ==>
          run.ids[k] in store.records && store.records[run.ids[k]].state == Claimed)
    && (forall k :: FreshFrom(run) <= k < |run.ids| ==> run.ids[k] !in delivered)
    && run.report.claimed == |run.ids| && run.at == Accounted(run.report) + PhaseResidue(run)
  }

  ghost predicate Disjoint(a: Run, b: Run) {
    forall i, j :: a.at <= i < |a.ids| && b.at <= j < |b.ids| ==> a.ids[i] != b.ids[j]
  }

  ghost predicate DeliveredOk(store: Store, delivered: set<OutboxId>) {
    forall id <- delivered :: id in store.records && store.records[id].state != Pending
  }

  ghost predicate Inv(s: Sys) {
    && DeliveredOk(s.store, s.delivered)
    && (forall r <- s.runs :: RunOk(s.store, s.delivered, s.runs[r]))
    && (forall r, q :: r in s.runs && q in s.runs && r != q ==> Disjoint(s.runs[r], s.runs[q]))
  }

  // Marks only move the entry at hand.
  ghost predicate OnlyMoves(before: Store, after: Store, id: OutboxId) {
    && after.records.Keys == before.records.Keys
    && forall x <- before.records :: x != id ==> after.records[x] == before.records[x]
  }

  // One run moves forward over the entry it has reached; nobody else is affected.
  lemma Forward(s: Sys, r: nat, run: Run, store: Store, delivered: set<OutboxId>)
    requires Inv(s) && r in s.runs && s.runs[r].at < |s.runs[r].ids|
    requires run.ids == s.runs[r].ids && run.at >= s.runs[r].at
    requires OnlyMoves(s.store, store, s.runs[r].ids[s.runs[r].at])
    requires delivered <= s.delivered + {s.runs[r].ids[s.runs[r].at]}
    requires RunOk(store, delivered, run) && DeliveredOk(store, delivered)
    ensures Inv(Sys(store, s.runs[r := run], delivered))
  {
    hide RunOk, OnlyMoves, DeliveredOk;
    var after := Sys(store, s.runs[r := run], delivered);
    forall q <- after.runs ensures RunOk(after.store, after.delivered, after.runs[q]) {
      if q != r { OtherRunOk(s, after, r, q); }
    }
    forall a, b | a in after.runs && b in after.runs && a != b ensures Disjoint(after.runs[a], after.runs[b]) {
      assert Disjoint(s.runs[a], s.runs[b]);
    }
  }

  lemma OtherRunOk(s: Sys, after: Sys, r: nat, q: nat)
    requires Inv(s) && r in s.runs && q in s.runs && q != r && s.runs[r].at < |s.runs[r].ids|
    requires OnlyMoves(s.store, after.store, s.runs[r].ids[s.runs[r].at])
    requires after.delivered <= s.delivered + {s.runs[r].ids[s.runs[r].at]}
    ensures RunOk(after.store, after.delivered, s.runs[q])
  {
    assert Disjoint(s.runs[r], s.runs[q]) && RunOk(s.store, s.delivered, s.runs[q]);
    forall k | s.runs[q].at <= k < |s.runs[q].ids|
      ensures s.runs[q].ids[k] in after.store.records && after.store.records[s.runs[q].ids[k]].state == Claimed
      ensures s.runs[q].ids[k] != s.runs[r].ids[s.runs[r].at]
    {
      assert s.runs[r].ids[s.runs[r].at] != s.runs[q].ids[k];
    }
  }

  // Runs are untouched and no claimed or delivered record changes.
  lemma StoreGrows(s: Sys, after: Sys)
    requires Inv(s) && after.runs == s.runs && after.delivered == s.delivered
    requires forall id <- s.store.records :: id in after.store.records && after.store.records[id] == s.store.records[id]
    ensures Inv(after)
  {
    forall q <- s.runs ensures RunOk(after.store, after.delivered, after.runs[q]) {
      assert RunOk(s.store, s.delivered, s.runs[q]);
    }
  }

  lemma LeavingKeeps(s: Sys, r: nat)
    requires Inv(s) && r in s.runs
    ensures Inv(s.(runs := s.runs - {r}))
  {
  }

  // What a claim may hand out is held by nobody and was never delivered.
  lemma ClaimIsFresh(s: Sys, ids: seq<OutboxId>, q: nat)
    requires Inv(s) && q in s.runs
    requires forall id <- ids :: id in s.store.records && s.store.records[id].state == Pending
    ensures RunOk(s.store.(records := ClaimAll(s.store.records, ids)), s.delivered, s.runs[q])
    ensures forall k :: s.runs[q].at <= k < |s.runs[q].ids| ==> s.runs[q].ids[k] !in ids
  {
    assert RunOk(s.store, s.delivered, s.runs[q]);
  }

  lemma NewRunOk(s: Sys, policy: Policy, limit: nat, ids: seq<OutboxId>)
    requires Inv(s) && IsClaim(s.store.records, limit, ids)
    ensures var store := s.store.(records := ClaimAll(s.store.records, ids));
            RunOk(store, s.delivered, Run(policy, ids, 0, Ready, NewReport(|ids|))) && DeliveredOk(store, s.delivered)
  {
  }

  lemma BeginKeeps(s: Sys, r: nat, policy: Policy, limit: nat, ids: seq<OutboxId>)
    requires Inv(s) && Enabled(s, Begin(r, policy, limit, ids))
    ensures Inv(StepBegin(s, r, policy, ids).0)
  {
    var after := StepBegin(s, r, policy, ids).0;
    if Faulty(s.store, ClaimPending) {
      StoreGrows(s, after);
    } else {
      assert forall id <- ids :: id in s.store.records && s.store.records[id].state == Pending;
      NewRunOk(s, policy, limit, ids);
      hide RunOk, DeliveredOk, IsClaim, Faulty;
      forall q <- s.runs
        ensures RunOk(after.store, after.delivered, s.runs[q])
        ensures Disjoint(s.runs[q], after.runs[r]) && Disjoint(after.runs[r], s.runs[q])
      {
        ClaimIsFresh(s, ids, q);
      }
    }
  }

  lemma HandOverKeeps(s: Sys, r: nat)
    requires Inv(s) && Enabled(s, HandOver(r))
    ensures Inv(Step(s, HandOver(r)).0)
    ensures s.runs[r].ids[s.runs[r].at] !in s.delivered
  {
    assert RunOk(s.store, s.delivered, s.runs[r]);
    Forward(s, r, s.runs[r].(phase := AtProducer), s.store, s.delivered);
  }

  lemma ReplyKeeps(s: Sys, r: nat, answer: Answer)
    requires Inv(s) && Enabled(s, Reply(r, answer))
    ensures Inv(Step(s, Reply(r, answer)).0)
  {
    assert RunOk(s.store, s.delivered, s.runs[r]);
    var after := Step(s, Reply(r, answer)).0;
    Forward(s, r, after.runs[r], s.store, after.delivered);
  }

  // A run's own entry is claimed, so only an injected failure can refuse its mark.
  lemma MarkFacts(s: Store, id: OutboxId, policy: Policy, answer: Answer)
    requires id in s.records && s.records[id].state == Claimed
    ensures var (after, result) := MarkSection(s, id, policy, answer);
            && OnlyMoves(s, after, id)
            && (result.Ok? ==> Persisted(after.records[id], policy, answer))
            && (result.Err? ==> result.error.Injected? && after.records == s.records)
  {
  }

  // Moving past the entry at hand keeps the run in order, whatever became of that entry.
  lemma PastEntry(before: Store, after: Store, delivered: set<OutboxId>, run: Run, next: Run)
    requires RunOk(before, delivered, run) && run.at < |run.ids| && !run.phase.AtProducer?
    requires OnlyMoves(before, after, run.ids[run.at])
    requires next == run.(at := run.at + 1, phase := next.phase, report := next.report)
    requires !next.phase.AtProducer? && !next.phase.Marking?
    requires next.report.claimed == run.report.claimed
    requires Accounted(next.report) + PhaseResidue(next) == Accounted(run.report) + PhaseResidue(run) + 1
    ensures RunOk(after, delivered, next)
  {
    hide Accounted, PhaseResidue;
    forall k | next.at <= k < |run.ids|
      ensures run.ids[k] in after.records && after.records[run.ids[k]].state == Claimed
    {
      assert run.ids[k] != run.ids[run.at];
    }
  }

  lemma MarkCounts(run: Run, id: OutboxId, result: Result<(), StoreError>)
    requires run.phase.Marking?
    ensures var next := AfterMark(run, id, run.phase.answer, result);
            && Accounted(next.report) + PhaseResidue(next) == Accounted(run.report) + PhaseResidue(run) + 1
            && next.report.claimed == run.report.claimed && (next.phase.Ready? || next.phase.Releasing?)
            && next == run.(at := run.at + 1, phase := next.phase, report := next.report)
  {
  }

  lemma ReleaseCounts(run: Run, result: Result<(), StoreError>)
    requires run.phase.Releasing?
    ensures var next := AfterRelease(run, result);
            && Accounted(next.report) + PhaseResidue(next) == Accounted(run.report) + PhaseResidue(run) + 1
            && next.report.claimed == run.report.claimed && next.phase == run.phase
            && next == run.(at := run.at + 1, phase := next.phase, report := next.report)
  {
  }

  lemma MarkKeeps(s: Sys, r: nat)
    requires Inv(s) && Enabled(s, Mark(r))
    ensures Inv(StepMark(s, r).0)
    ensures forall ev <- StepMark(s, r).1 :: ev.MarkRefused? && ev.error.Injected?
  {
    var run := s.runs[r];
    var id, answer := run.ids[run.at], run.phase.answer;
    var (store, result) := MarkSection(s.store, id, run.policy, answer);
    assert RunOk(s.store, s.delivered, run);
    MarkFacts(s.store, id, run.policy, answer);
    assert !Final(run.policy, answer) ==> id !in s.delivered;
    assert DeliveredOk(store, s.delivered);
    hide MarkSection, AfterMark, RunOk, DeliveredOk, Inv, Accounted, PhaseResidue;
    MarkCounts(run, id, result);
    PastEntry(s.store, store, s.delivered, run, AfterMark(run, id, answer, result));
    Forward(s, r, AfterMark(run, id, answer, result), store, s.delivered);
  }

  lemma ReleaseFacts(s: Store, id: OutboxId)
    requires id in s.records && s.records[id].state == Claimed
    ensures var (after, result) := MarkFailedSection(s, id, Failure(NotAttempted, Retry));
            && OnlyMoves(s, after, id)
            && (result.Err? ==> result.error.Injected? && after.records == s.records)
  {
  }

  lemma ReleaseKeeps(s: Sys, r: nat)
    requires Inv(s) && Enabled(s, Release(r))
    ensures Inv(StepRelease(s, r).0)
    ensures forall ev <- StepRelease(s, r).1 :: ev.MarkRefused? && ev.error.Injected?
  {
    var run := s.runs[r];
    var id := run.ids[run.at];
    var (store, result) := MarkFailedSection(s.store, id, Failure(NotAttempted, Retry));
    assert RunOk(s.store, s.delivered, run);
    ReleaseFacts(s.store, id);
    assert DeliveredOk(store, s.delivered);
    hide MarkFailedSection, AfterRelease, RunOk, DeliveredOk, Inv, Accounted, PhaseResidue;
    ReleaseCounts(run, result);
    PastEntry(s.store, store, s.delivered, run, AfterRelease(run, result));
    Forward(s, r, AfterRelease(run, result), store, s.delivered);
  }

  // What no step of any run may emit: a mark refused for any reason but an injected failure, or a
  // report that does not account for the whole batch.
  predicate Impossible(ev: Event) {
    || (ev.MarkRefused? && !ev.error.Injected?)
    || (ev.Finished? && ev.report.claimed != Accounted(ev.report) + Residue(ev.ending))
  }

  lemma StepKeeps(s: Sys, l: Label)
    requires Inv(s) && Enabled(s, l)
    ensures Inv(Step(s, l).0) && s.delivered <= Step(s, l).0.delivered
    ensures forall ev <- Step(s, l).1 :: !Impossible(ev)
    ensures forall ev <- Step(s, l).1 :: ev.HandedOver? ==> ev.id !in s.delivered
    ensures forall ev <- Step(s, l).1 :: ev.Answered? && Final(ev.policy, ev.answer) ==> ev.id in Step(s, l).0.delivered
  {
    match l {
      case InsertEntry(_) => StoreGrows(s, Step(s, l).0);
      case Inject(_, _) => StoreGrows(s, Step(s, l).0);
      case Begin(r, policy, limit, ids) => BeginKeeps(s, r, policy, limit, ids);
      case HandOver(r) => HandOverKeeps(s, r);
      case Reply(r, answer) => ReplyKeeps(s, r, answer);
      case Mark(r) => MarkKeeps(s, r);
      case Release(r) => ReleaseKeeps(s, r);
      case Finish(r) => { assert RunOk(s.store, s.delivered, s.runs[r]); LeavingKeeps(s, r); }
      case Drop(r) => LeavingKeeps(s, r);
    }
  }
}
