// One relay run over the in-memory outbox: claim a batch, publish each entry in order, persist
// what the producer answered, and give back the claims the run will not attempt.
module OutboxRelay {
  import opened Prelude
  import opened OutboxStore

  datatype Policy = Policy(producerError: Disposition, outcomeUnknown: Disposition)

  datatype Answer = Confirmed | Unknown | Error

  datatype Report = Report(
    claimed: nat,
    published: nat,
    retryScheduled: nat,
    awaitingReconciliation: nat,
    terminalFailures: nat,
    unreleasedClaims: nat)

  datatype RelayError =
    | StoreFailed(operation: Operation, source: StoreError)
    | PublishFailed(id: OutboxId)
    | PublishAndStoreFailed(id: OutboxId, source: StoreError)

  function NewReport(claimed: nat): Report {
    Report(claimed, 0, 0, 0, 0, 0)
  }

  function RecordDisposition(report: Report, disposition: Disposition): Report {
    match disposition
    case Retry => report.(retryScheduled := report.retryScheduled + 1)
    case Reconcile => report.(awaitingReconciliation := report.awaitingReconciliation + 1)
    case Terminal => report.(terminalFailures := report.terminalFailures + 1)
  }

  // Entries of the batch the report puts in some outcome.
  function Accounted(r: Report): nat {
    r.published + r.retryScheduled + r.awaitingReconciliation + r.terminalFailures + r.unreleasedClaims
  }

  // The one entry a run cannot account for: the entry whose own mark the store refused.
  function Residue(error: Option<RelayError>): nat {
    match error
    case Some(StoreFailed(op, _)) => if op == ClaimPending then 0 else 1
    case Some(PublishAndStoreFailed(_, _)) => 1
    case _ => 0
  }

  // ---------------------------------------------------------------- what the counters mean

  function CountIn(records: Records, ids: seq<OutboxId>, state: EntryState): nat {
    if ids == [] then 0
    else
      var last := ids[|ids| - 1];
      CountIn(records, ids[..|ids| - 1], state) + if last in records && records[last].state == state then 1 else 0
  }

  // The report's counters are the numbers of batch entries found in each lifecycle state.
  ghost predicate Tallies(records: Records, ids: seq<OutboxId>, report: Report, residue: nat) {
    && CountIn(records, ids, Published) == report.published
    && CountIn(records, ids, Pending) == report.retryScheduled
    && CountIn(records, ids, AwaitingReconciliation) == report.awaitingReconciliation
    && CountIn(records, ids, Failed) == report.terminalFailures
    && CountIn(records, ids, Claimed) == report.unreleasedClaims + residue
  }

  lemma {:induction false} CountFrame(before: Records, after: Records, ids: seq<OutboxId>, state: EntryState)
    requires forall id <- ids :: id in before && id in after && before[id].state == after[id].state
    ensures CountIn(before, ids, state) == CountIn(after, ids, state)
  {
    if ids != [] {
      CountFrame(before, after, ids[..|ids| - 1], state);
    }
  }

  lemma {:induction false} CountsPartition(records: Records, ids: seq<OutboxId>)
    requires forall id <- ids :: id in records
    ensures |ids| ==
            CountIn(records, ids, Pending) + CountIn(records, ids, Claimed) + CountIn(records, ids, Published)
            + CountIn(records, ids, AwaitingReconciliation) + CountIn(records, ids, Failed)
  {
    if ids != [] {
      CountsPartition(records, ids[..|ids| - 1]);
    }
  }

  lemma TalliesAccount(records: Records, ids: seq<OutboxId>, report: Report, residue: nat)
    requires forall id <- ids :: id in records
    requires Tallies(records, ids, report, residue)
    ensures |ids| == Accounted(report) + residue
  {
    CountsPartition(records, ids);
  }

  // The report after one more entry is found in `state`.
  function Counted(report: Report, state: EntryState): Report {
    match state
    case Published => report.(published := report.published + 1)
    case Pending => report.(retryScheduled := report.retryScheduled + 1)
    case AwaitingReconciliation => report.(awaitingReconciliation := report.awaitingReconciliation + 1)
    case Failed => report.(terminalFailures := report.terminalFailures + 1)
    case Claimed => report.(unreleasedClaims := report.unreleasedClaims + 1)
  }

  lemma TallyNext(before: Records, after: Records, ids: seq<OutboxId>, n: nat, report: Report, residue: nat)
    requires n < |ids| && ids[n] in after && ids[n] !in ids[..n]
    requires forall id <- ids[..n] :: id in before && id in after && before[id] == after[id]
    requires Tallies(before, ids[..n], report, residue)
    ensures Tallies(after, ids[..n + 1], Counted(report, after[ids[n]].state), residue)
    ensures after[ids[n]].state == Claimed ==> Tallies(after, ids[..n + 1], report, residue + 1)
  {
    assert ids[..n + 1][..n] == ids[..n];
    CountFrame(before, after, ids[..n], Published);
    CountFrame(before, after, ids[..n], Pending);
    CountFrame(before, after, ids[..n], AwaitingReconciliation);
    CountFrame(before, after, ids[..n], Failed);
    CountFrame(before, after, ids[..n], Claimed);
  }

  // The batch from position n on is still claimed, and the rest of the store is as it was.
  ghost predicate Holds(records: Records, start: Records, ids: seq<OutboxId>, n: nat) {
    && n <= |ids| && records.Keys == start.Keys
    && (forall i, j :: 0 <= i < j < |ids| ==> ids[i] != ids[j])
    && (forall id <- ids :: id in records)
    && (forall k :: n <= k < |ids| ==> records[ids[k]] == start[ids[k]] && start[ids[k]].state == Claimed)
    && (forall id <- records :: id !in ids ==> records[id] == start[id])
  }

  // One entry of the batch is settled: the others keep their place.
  lemma SettledNext(before: Records, after: Records, start: Records, ids: seq<OutboxId>, n: nat,
                    report: Report, residue: nat)
    requires Holds(before, start, ids, n) && n < |ids|
    requires Tallies(before, ids[..n], report, residue)
    requires after.Keys == before.Keys
    requires forall id <- before :: id != ids[n] ==> after[id] == before[id]
    ensures Holds(after, start, ids, n + 1)
    ensures Tallies(after, ids[..n + 1], Counted(report, after[ids[n]].state), residue)
    ensures after[ids[n]].state == Claimed ==> Tallies(after, ids[..n + 1], report, residue + 1)
  {
    forall id <- ids[..n] ensures id in before && id in after && before[id] == after[id] && id != ids[n] {
      var k :| 0 <= k < n && ids[k] == id;
    }
    TallyNext(before, after, ids, n, report, residue);
  }

  lemma HeldIsThere(records: Records, start: Records, ids: seq<OutboxId>, n: nat)
    requires Holds(records, start, ids, n)
    ensures forall id <- ids :: id in records
  {
  }

  lemma BatchIsHeld(records: Records, limit: nat, ids: seq<OutboxId>)
    requires IsClaim(records, limit, ids)
    ensures var claimed := ClaimAll(records, ids);
            Holds(claimed, claimed, ids, 0) && Tallies(claimed, [], NewReport(|ids|), 0)
  {
  }

  ghost predicate SentBy(record: Record, failure: Failure) {
    && record.lastFailure == Some(failure)
    && match failure.disposition
       case Retry => record.state == Pending
       case Reconcile => record.state == AwaitingReconciliation
       case Terminal => record.state == Failed
  }

  // A claim that was given back, or that the store refused to take back.
  ghost predicate GivenBack(record: Record) {
    SentBy(record, Failure(NotAttempted, Retry)) || record.state == Claimed
  }

  // A mark that succeeds moves the held entry to the state asked for; one that fails moves nothing.
  lemma MarkFailedOnHeld(s: Store, start: Records, ids: seq<OutboxId>, n: nat, failure: Failure,
                         report: Report, residue: nat)
    requires Holds(s.records, start, ids, n) && n < |ids|
    requires Tallies(s.records, ids[..n], report, residue)
    ensures var (after, result) := MarkFailedSection(s, ids[n], failure);
            && Holds(after.records, start, ids, n + 1)
            && (result.Ok? ==>
                  Tallies(after.records, ids[..n + 1], RecordDisposition(report, failure.disposition), residue))
            && (result.Err? ==> Tallies(after.records, ids[..n + 1], report, residue + 1))
            && (result.Err? ==> Tallies(after.records, ids[..n + 1], Counted(report, Claimed), residue))
            && SameBelow(s.records, after.records, ids, n) && ids[n] in after.records
            && (result.Ok? ==> SentBy(after.records[ids[n]], failure))
            && (result.Err? ==> result.error == Injected(MarkFailed) && after.records[ids[n]].state == Claimed)
  {
    var (after, result) := MarkFailedSection(s, ids[n], failure);
    SettledNext(s.records, after.records, start, ids, n, report, residue);
  }

  lemma MarkPublishedOnHeld(s: Store, start: Records, ids: seq<OutboxId>, n: nat, report: Report)
    requires Holds(s.records, start, ids, n) && n < |ids|
    requires Tallies(s.records, ids[..n], report, 0)
    ensures var (after, result) := MarkPublishedSection(s, ids[n]);
            && Holds(after.records, start, ids, n + 1)
            && (result.Ok? ==> Tallies(after.records, ids[..n + 1], Counted(report, Published), 0))
            && (result.Err? ==> Tallies(after.records, ids[..n + 1], report, 1))
            && SameBelow(s.records, after.records, ids, n) && ids[n] in after.records
            && (result.Ok? ==> after.records[ids[n]].state == Published && after.records[ids[n]].lastFailure == None)
            && (result.Err? ==> result.error == Injected(MarkPublished) && after.records[ids[n]].state == Claimed)
  {
    var (after, result) := MarkPublishedSection(s, ids[n]);
    SettledNext(s.records, after.records, start, ids, n, report, 0);
  }

  // What a finished batch says: everything is accounted for and nothing else moved.
  lemma BatchIsSettled(before: Records, start: Records, records: Records, ids: seq<OutboxId>,
                       report: Report, residue: nat)
    requires start == ClaimAll(before, ids)
    requires Holds(records, start, ids, |ids|) && Tallies(records, ids, report, residue)
    ensures |ids| == Accounted(report) + residue
    ensures records.Keys == before.Keys
    ensures forall id <- records :: id !in ids ==> records[id] == before[id]
  {
    TalliesAccount(records, ids, report, residue);
  }

  // ---------------------------------------------------------------- what the answers mean

  // What the producer answered is on record: a confirmation forgets earlier failures, and anything
  // else is kept as the failure that sent the entry where the policy wants it.
  ghost predicate Persisted(record: Record, policy: Policy, answer: Answer) {
    match answer
    case Confirmed => record.state == Published && record.lastFailure == None
    case Unknown => SentBy(record, Failure(OutcomeUnknown, policy.outcomeUnknown))
    case Error => SentBy(record, Failure(ProducerError, policy.producerError))
  }

  // The outcome of one attempt: what was persisted, and how the run ends if it ends here. A store
  // error is always one that was injected, and leaves the entry claimed.
  ghost predicate Attempted(record: Record, id: OutboxId, policy: Policy, answer: Answer,
                            error: Option<RelayError>) {
    match error
    case None => answer != Error && Persisted(record, policy, answer)
    case Some(PublishFailed(x)) => x == id && answer == Error && Persisted(record, policy, answer)
    case Some(PublishAndStoreFailed(x, source)) =>
      x == id && answer == Error && source == Injected(MarkFailed) && record.state == Claimed
    case Some(StoreFailed(op, source)) =>
      source == Injected(op) && record.state == Claimed
      && ((answer == Confirmed && op == MarkPublished) || (answer == Unknown && op == MarkFailed))
  }

  // How a whole batch ends: `reached` is the position the run stopped at, or the end of the batch.
  // Entries before it were persisted as answered, entries after it were released or stay claimed.
  ghost predicate Ended(records: Records, ids: seq<OutboxId>, reached: nat, policy: Policy,
                        producer: nat -> Answer, error: Option<RelayError>) {
    && reached <= |ids| && (forall id <- ids :: id in records)
    && (forall k :: 0 <= k < reached ==> Attempted(records[ids[k]], ids[k], policy, producer(k), None))
    && (reached == |ids| <==> error == None)
    && (reached < |ids| ==> Attempted(records[ids[reached]], ids[reached], policy, producer(reached), error))
    && (forall k :: reached < k < |ids| ==> GivenBack(records[ids[k]]))
  }

  // The settled prefix of a batch, as a loop carries it.
  ghost predicate Prefix(records: Records, ids: seq<OutboxId>, n: nat, policy: Policy, producer: nat -> Answer)
    requires n <= |ids|
  {
    forall k :: 0 <= k < n ==>
      ids[k] in records && Attempted(records[ids[k]], ids[k], policy, producer(k), None)
  }

  ghost predicate SameBelow(before: Records, after: Records, ids: seq<OutboxId>, n: nat)
    requires n <= |ids|
  {
    forall k :: 0 <= k < n ==> ids[k] in before && ids[k] in after && after[ids[k]] == before[ids[k]]
  }

  lemma PrefixNext(before: Records, after: Records, ids: seq<OutboxId>, n: nat, policy: Policy, producer: nat -> Answer)
    requires n < |ids| && Prefix(before, ids, n, policy, producer) && SameBelow(before, after, ids, n)
    requires ids[n] in after && Attempted(after[ids[n]], ids[n], policy, producer(n), None)
    ensures Prefix(after, ids, n + 1, policy, producer)
  {
    hide Attempted;
  }

  lemma PrefixIsEmpty(records: Records, ids: seq<OutboxId>, policy: Policy, producer: nat -> Answer)
    ensures Prefix(records, ids, 0, policy, producer)
  {
  }

  lemma BatchHasEnded(before: Records, persisted: Records, after: Records, start: Records, ids: seq<OutboxId>,
                      n: nat, policy: Policy, producer: nat -> Answer, error: Option<RelayError>)
    requires n < |ids| && Prefix(before, ids, n, policy, producer)
    requires SameBelow(before, persisted, ids, n) && SameBelow(persisted, after, ids, n + 1)
    requires error.Some? && ids[n] in persisted
    requires Attempted(persisted[ids[n]], ids[n], policy, producer(n), error)
    requires Holds(after, start, ids, |ids|)
    requires forall k :: n < k < |ids| ==> ids[k] in after && GivenBack(after[ids[k]])
    ensures Ended(after, ids, n, policy, producer, error)
  {
    hide Attempted;
    assert after[ids[n]] == persisted[ids[n]];
    forall k | 0 <= k < n ensures Attempted(after[ids[k]], ids[k], policy, producer(k), None) {
      assert after[ids[k]] == persisted[ids[k]] == before[ids[k]];
    }
  }

  lemma PrefixIsAll(records: Records, start: Records, ids: seq<OutboxId>, policy: Policy, producer: nat -> Answer)
    requires Prefix(records, ids, |ids|, policy, producer) && Holds(records, start, ids, |ids|)
    ensures Ended(records, ids, |ids|, policy, producer, None)
  {
    hide Attempted;
  }

  // ---------------------------------------------------------------- the run

  // Gives back every claim from position `from` on. The entries that could not be given back are
  // counted as unreleased.
  method ReleaseClaims(store: InMemoryOutboxStore, ids: seq<OutboxId>, from: nat, report0: Report,
                       ghost start: Records, ghost residue: nat)
    returns (report: Report)
    requires from <= |ids| && Holds(store.records, start, ids, from)
    requires Tallies(store.records, ids[..from], report0, residue)
    modifies store
    ensures Holds(store.records, start, ids, |ids|)
    ensures Tallies(store.records, ids, report, residue)
    ensures report.claimed == report0.claimed
    ensures SameBelow(old(store.records), store.records, ids, from)
    ensures forall k :: from <= k < |ids| ==>
              ids[k] in store.records && GivenBack(store.records[ids[k]])
  {
    hide Holds, Tallies, MarkFailedSection;
    report := report0;
    var n := from;
    assert SameBelow(store.records, store.records, ids, from) by { HeldIsThere(store.records, start, ids, from); }
    while n < |ids|
      invariant from <= n <= |ids| && Holds(store.records, start, ids, n)
      invariant SameBelow(old(store.records), store.records, ids, from)
      invariant forall k :: from <= k < n ==>
                  ids[k] in store.records && GivenBack(store.records[ids[k]])
      invariant Tallies(store.records, ids[..n], report, residue)
      invariant report.claimed == report0.claimed
    {
      MarkFailedOnHeld(store.State(), start, ids, n, Failure(NotAttempted, Retry), report, residue);
      var result := store.MarkAsFailed(ids[n], Failure(NotAttempted, Retry));
      if result.Ok? {
        report := RecordDisposition(report, Retry);
      } else {
        report := report.(unreleasedClaims := report.unreleasedClaims + 1);
      }
      n := n + 1;
    }
    assert ids[..n] == ids;
  }

  // Persists what the producer answered for the entry at position n. A producer error ends the run
  // even when it was persisted; a refused mark ends it and leaves that entry unaccounted for.
  method Persist(store: InMemoryOutboxStore, ids: seq<OutboxId>, n: nat, policy: Policy, answer: Answer,
                 report0: Report, ghost start: Records)
    returns (report: Report, error: Option<RelayError>)
    requires n < |ids| && Holds(store.records, start, ids, n)
    requires Tallies(store.records, ids[..n], report0, 0)
    modifies store
    ensures Holds(store.records, start, ids, n + 1)
    ensures Tallies(store.records, ids[..n + 1], report, Residue(error))
    ensures report.claimed == report0.claimed
    ensures SameBelow(old(store.records), store.records, ids, n)
    ensures ids[n] in store.records && Attempted(store.records[ids[n]], ids[n], policy, answer, error)
  {
    hide Holds, Tallies, MarkFailedSection, MarkPublishedSection;
    match answer
    case Confirmed =>
      MarkPublishedOnHeld(store.State(), start, ids, n, report0);
      var mark := store.MarkAsPublished(ids[n]);
      if mark.Err? { return report0, Some(StoreFailed(MarkPublished, mark.error)); }
      return report0.(published := report0.published + 1), None;
    case Unknown =>
      var failure := Failure(OutcomeUnknown, policy.outcomeUnknown);
      MarkFailedOnHeld(store.State(), start, ids, n, failure, report0, 0);
      var mark := store.MarkAsFailed(ids[n], failure);
      if mark.Err? { return report0, Some(StoreFailed(MarkFailed, mark.error)); }
      return RecordDisposition(report0, policy.outcomeUnknown), None;
    case Error =>
      var failure := Failure(ProducerError, policy.producerError);
      MarkFailedOnHeld(store.State(), start, ids, n, failure, report0, 0);
      var mark := store.MarkAsFailed(ids[n], failure);
      if mark.Err? { return report0, Some(PublishAndStoreFailed(ids[n], mark.error)); }
      return RecordDisposition(report0, policy.producerError), Some(PublishFailed(ids[n]));
  }

  // One relay run, alone on the store, against any producer (the answer to the n-th publication of
  // the run is producer(n)). `ids` is the batch it claimed.
  method RunOnce(store: InMemoryOutboxStore, batchSize: nat, policy: Policy, producer: nat -> Answer)
    returns (report: Report, error: Option<RelayError>, ids: seq<OutboxId>, reached: nat)
    modifies store
    ensures error == Some(StoreFailed(ClaimPending, Injected(ClaimPending)))
            <==> Faulty(old(store.State()), ClaimPending)
    ensures !Faulty(old(store.State()), ClaimPending) ==> IsClaim(old(store.records), batchSize, ids)
    // each answer is persisted as the policy says, up to the entry that ends the run
    ensures !Faulty(old(store.State()), ClaimPending) ==> Ended(store.records, ids, reached, policy, producer, error)
    // every claimed entry is accounted for, except the one whose own mark was refused
    ensures report.claimed == |ids| == Accounted(report) + Residue(error)
    // the counters are the numbers of batch entries in the matching states
    ensures Tallies(store.records, ids, report, Residue(error))
    // no other record moved
    ensures store.records.Keys == old(store.records).Keys
    ensures forall id <- store.records :: id !in ids ==> store.records[id] == old(store.records)[id]
  {
    hide Holds, IsClaim, Accounted;
    var claim := store.Claim(batchSize);
    if claim.Err? {
      assert Accounted(NewReport(0)) == 0 by { TalliesAccount(map[], [], NewReport(0), 0); }
      return NewReport(0), Some(StoreFailed(ClaimPending, claim.error)), [], 0;
    }
    hide Tallies, Faulty, Prefix, Ended, SameBelow;
    ids := claim.value;
    report, error, reached := NewReport(|ids|), None, 0;
    ghost var start := store.records;
    BatchIsHeld(old(store.records), batchSize, ids);
    assert Prefix(store.records, ids, 0, policy, producer) by { PrefixIsEmpty(store.records, ids, policy, producer); }
    while reached < |ids|
      invariant reached <= |ids| && report.claimed == |ids| && error == None
      invariant Holds(store.records, start, ids, reached)
      invariant Tallies(store.records, ids[..reached], report, 0)
      invariant Prefix(store.records, ids, reached, policy, producer)
    {
      ghost var before := store.records;
      report, error := Persist(store, ids, reached, policy, producer(reached), report, start);
      if error.Some? {
        ghost var persisted := store.records;
        report := ReleaseClaims(store, ids, reached + 1, report, start, Residue(error));
        BatchIsSettled(old(store.records), start, store.records, ids, report, Residue(error));
        BatchHasEnded(before, persisted, store.records, start, ids, reached, policy, producer, error);
        return;
      }
      PrefixNext(before, store.records, ids, reached, policy, producer);
      reached := reached + 1;
    }
    assert ids[..reached] == ids;
    BatchIsSettled(old(store.records), start, store.records, ids, report, 0);
    PrefixIsAll(store.records, start, ids, policy, producer);
  }
}
