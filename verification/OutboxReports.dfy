// What recorded outbox histories say about single entries and single runs: an entry's content and
// attempt count, and the counters and the ending of every report, as counts over labelled steps.
module OutboxReports {
  import opened Prelude
  import opened OutboxStore
  import opened OutboxRelay
  import opened OutboxRuns
  import opened OutboxTheorems

  // ---------------------------------------------------------------- one entry

  // This step claims the entry: a run begins, its claim is not made to fail, and it takes the entry.
  ghost predicate ClaimsEntry(s: Sys, l: Label, id: OutboxId) {
    && l.Begin? && id in l.ids
    && !(ClaimPending in s.store.faults && s.store.faults[ClaimPending] != 0)
  }

  ghost function Claims(t: Trace, a: nat, b: nat, id: OutboxId): nat
    requires a <= b <= |t.labels| && |t.states| == |t.labels| + 1
    decreases b
  {
    if a == b then 0
    else Claims(t, a, b - 1, id) + (if ClaimsEntry(t.states[b - 1], t.labels[b - 1], id) then 1 else 0)
  }

  lemma StepKeepsContent(s: Sys, l: Label, id: OutboxId)
    requires Enabled(s, l) && id in s.store.records
    ensures id in Step(s, l).0.store.records
    ensures var before, after := s.store.records[id].entry, Step(s, l).0.store.records[id].entry;
      && after.id == before.id && after.message == before.message && after.createdAt == before.createdAt
      && after.attempts ==
           if ClaimsEntry(s, l, id) then Min(before.attempts + 1, U32_LIMIT - 1) else before.attempts
  {
    hide IsClaim;
  }

  // A stored entry is never lost and keeps its identity, message and creation time; its attempts are
  // what they were plus one for every claim of it, up to the largest 32-bit number.
  lemma {:induction false} EntryKeepsContent(t: Trace, a: nat, b: nat, id: OutboxId)
    requires IsTrace(t) && a <= b <= |t.labels| && |t.states| == |t.labels| + 1
    requires id in t.states[a].store.records && t.states[a].store.records[id].entry.attempts < U32_LIMIT
    ensures id in t.states[b].store.records
    ensures var before, after := t.states[a].store.records[id].entry, t.states[b].store.records[id].entry;
      && after.id == before.id && after.message == before.message && after.createdAt == before.createdAt
      && after.attempts == Min(before.attempts + Claims(t, a, b, id), U32_LIMIT - 1)
    decreases b
  {
    hide Step, Enabled, ClaimsEntry;
    if a < b {
      EntryKeepsContent(t, a, b - 1, id);
      assert Enabled(t.states[b - 1], t.labels[b - 1]) && Step(t.states[b - 1], t.labels[b - 1]).0 == t.states[b];
      StepKeepsContent(t.states[b - 1], t.labels[b - 1], id);
    }
  }

  lemma InsertStores(s: Sys, entry: Entry)
    requires entry.id !in s.store.records && !(Insert in s.store.faults && s.store.faults[Insert] != 0)
    ensures Step(s, InsertEntry(entry)).0.store.records == s.store.records[entry.id := Record(entry, Pending, None)]
  {
  }

  lemma InsertRefused(s: Sys, entry: Entry)
    requires entry.id in s.store.records || (Insert in s.store.faults && s.store.faults[Insert] != 0)
    ensures Step(s, InsertEntry(entry)).0.store.records == s.store.records
  {
  }

  // An entry inserted at step m, with no failure planned and its identity free, is pending without
  // a failure right after, and is found in every later state with its identity, message and
  // creation time, its attempts grown by exactly its claims since. An insertion that fails, for a
  // planned failure or a known identity, changes no record.
  lemma InsertedEntryIsKept(t: Trace, m: nat, n: nat, entry: Entry)
    requires IsTrace(t) && m < n <= |t.labels| && |t.states| == |t.labels| + 1
    requires t.labels[m] == InsertEntry(entry) && entry.attempts < U32_LIMIT
    ensures var s := t.states[m].store;
      if entry.id in s.records || (Insert in s.faults && s.faults[Insert] != 0)
      then t.states[m + 1].store.records == s.records
      else
        && t.states[m + 1].store.records == s.records[entry.id := Record(entry, Pending, None)]
        && entry.id in t.states[n].store.records
        && var kept := t.states[n].store.records[entry.id].entry;
        && kept.id == entry.id && kept.message == entry.message && kept.createdAt == entry.createdAt
        && kept.attempts == Min(entry.attempts + Claims(t, m + 1, n, entry.id), U32_LIMIT - 1)
  {
    hide Step, Enabled, ClaimsEntry;
    var s := t.states[m];
    assert Enabled(s, t.labels[m]) && Step(s, t.labels[m]).0 == t.states[m + 1];
    if entry.id in s.store.records || (Insert in s.store.faults && s.store.faults[Insert] != 0) {
      InsertRefused(s, entry);
    } else {
      InsertStores(s, entry);
      EntryKeepsContent(t, m + 1, n, entry.id);
    }
  }

  // ---------------------------------------------------------------- one run

  // The run's own step on the entry it has reached.
  ghost predicate Handles(s: Sys, l: Label, r: nat) {
    (l == Mark(r) || l == Release(r)) && r in s.runs && s.runs[r].at < |s.runs[r].ids|
  }

  ghost function AtHand(s: Sys, r: nat): OutboxId
    requires r in s.runs && s.runs[r].at < |s.runs[r].ids|
  {
    s.runs[r].ids[s.runs[r].at]
  }

  // Entries that marks and releases of a run left in one lifecycle state; for entries left claimed
  // only releases count, since a refused mark is the run's ending and not a counter.
  ghost predicate Leaves(s: Sys, l: Label, after: Sys, r: nat, state: EntryState) {
    && Handles(s, l, r)
    && AtHand(s, r) in after.store.records && after.store.records[AtHand(s, r)].state == state
    && (state == Claimed ==> l.Release?)
  }

  ghost predicate Starts(s: Sys, l: Label, r: nat) {
    l.Begin? && l.run == r && r !in s.runs
  }

  ghost function Left(t: Trace, n: nat, r: nat, state: EntryState): nat
    requires n <= |t.labels| && |t.states| == |t.labels| + 1
  {
    if n == 0 || Starts(t.states[n - 1], t.labels[n - 1], r) then 0
    else
      Left(t, n - 1, r, state) + (if Leaves(t.states[n - 1], t.labels[n - 1], t.states[n], r, state) then 1 else 0)
  }

  function CounterOf(report: Report, state: EntryState): nat {
    match state
    case Published => report.published
    case Pending => report.retryScheduled
    case AwaitingReconciliation => report.awaitingReconciliation
    case Failed => report.terminalFailures
    case Claimed => report.unreleasedClaims
  }

  lemma EntryAtHandIsClaimed(s: Sys, r: nat)
    requires Inv(s) && r in s.runs && s.runs[r].at < |s.runs[r].ids|
    ensures AtHand(s, r) in s.store.records && s.store.records[AtHand(s, r)].state == Claimed
  {
    assert RunOk(s.store, s.delivered, s.runs[r]);
  }

  lemma MarkCountsLeft(s: Sys, r: nat, state: EntryState)
    requires Inv(s) && Enabled(s, Mark(r))
    ensures var after := Step(s, Mark(r)).0;
      && r in after.runs
      && CounterOf(after.runs[r].report, state) ==
           CounterOf(s.runs[r].report, state) + (if Leaves(s, Mark(r), after, r, state) then 1 else 0)
  {
    hide Inv, MarkSection;
    EntryAtHandIsClaimed(s, r);
    var run, id := s.runs[r], AtHand(s, r);
    var (store, result) := MarkSection(s.store, id, run.policy, run.phase.answer);
    MarkFacts(s.store, id, run.policy, run.phase.answer);
    assert Step(s, Mark(r)).0.store == store;
    assert Step(s, Mark(r)).0.runs[r] == AfterMark(run, id, run.phase.answer, result);
  }

  lemma ReleaseCountsLeft(s: Sys, r: nat, state: EntryState)
    requires Inv(s) && Enabled(s, Release(r))
    ensures var after := Step(s, Release(r)).0;
      && r in after.runs
      && CounterOf(after.runs[r].report, state) ==
           CounterOf(s.runs[r].report, state) + (if Leaves(s, Release(r), after, r, state) then 1 else 0)
  {
    hide Inv;
    EntryAtHandIsClaimed(s, r);
  }

  // Steps other than a run's own marks and releases leave its report and its ending alone.
  lemma OthersLeaveRunAlone(s: Sys, l: Label, r: nat)
    requires Enabled(s, l) && l != Mark(r) && l != Release(r)
    ensures var after := Step(s, l).0;
      && (r in s.runs && r in after.runs ==>
            && after.runs[r].report == s.runs[r].report
            && (after.runs[r].phase.Releasing? <==> s.runs[r].phase.Releasing?)
            && (after.runs[r].phase.Releasing? ==> after.runs[r].phase == s.runs[r].phase))
      && (r !in s.runs && r in after.runs ==>
            Starts(s, l, r) && after.runs[r].report == NewReport(|l.ids|) && after.runs[r].phase == Ready)
      && (forall ev <- Step(s, l).1 :: ev.Finished? && ev.run == r ==>
            && r in s.runs && r !in after.runs && ev.report == s.runs[r].report
            && ev.ending == if s.runs[r].phase.Releasing? then Some(s.runs[r].phase.error) else None)
  {
    hide IsClaim, MarkSection, MarkFailedSection, AfterMark, AfterRelease, ClaimAll, InsertSection;
  }

  lemma MarksDoNotFinish(s: Sys, l: Label)
    requires Enabled(s, l) && (l.Mark? || l.Release?)
    ensures forall ev <- Step(s, l).1 :: !ev.Finished?
  {
  }

  lemma StepCountsLeft(s: Sys, l: Label, r: nat, state: EntryState)
    requires Inv(s) && Enabled(s, l)
    ensures var after := Step(s, l).0;
      r in after.runs ==>
        if Starts(s, l, r) then CounterOf(after.runs[r].report, state) == 0
        else
          && r in s.runs
          && CounterOf(after.runs[r].report, state) ==
               CounterOf(s.runs[r].report, state) + (if Leaves(s, l, after, r, state) then 1 else 0)
  {
    hide Inv, Step;
    if l == Mark(r) {
      MarkCountsLeft(s, r, state);
    } else if l == Release(r) {
      ReleaseCountsLeft(s, r, state);
    } else {
      OthersLeaveRunAlone(s, l, r);
    }
  }

  lemma {:induction false} ReportKeepsCount(t: Trace, n: nat, r: nat, state: EntryState)
    requires IsTrace(t) && n <= |t.labels| && |t.states| == |t.labels| + 1 && r in t.states[n].runs
    ensures CounterOf(t.states[n].runs[r].report, state) == Left(t, n, r, state)
  {
    hide Step, Enabled, Inv, Leaves, CounterOf, Starts;
    if n > 0 {
      var s, l := t.states[n - 1], t.labels[n - 1];
      assert Enabled(s, l) && Step(s, l).0 == t.states[n];
      StateIsOk(t, n - 1);
      StepCountsLeft(s, l, r, state);
      if !Starts(s, l, r) { ReportKeepsCount(t, n - 1, r, state); }
    }
  }

  // In every history, whatever the other runs do meanwhile, a finished run's report counts its own
  // marks and releases by what they left in the store: published, retried, set aside and failed
  // entries, and claims it could not give back. Its batch is the one it claimed.
  lemma ReportsCountTheRun(t: Trace, m: nat, r: nat, report: Report, ending: Option<RelayError>)
    requires IsTrace(t) && m < |t.labels| && |t.states| == |t.labels| + 1 && |t.events| == |t.labels|
    requires Finished(r, report, ending) in t.events[m]
    ensures r in t.states[m].runs && report.claimed == |t.states[m].runs[r].ids|
    ensures report.published == Left(t, m, r, Published)
    ensures report.retryScheduled == Left(t, m, r, Pending)
    ensures report.awaitingReconciliation == Left(t, m, r, AwaitingReconciliation)
    ensures report.terminalFailures == Left(t, m, r, Failed)
    ensures report.unreleasedClaims == Left(t, m, r, Claimed)
  {
    FinishedIs(t, m, r, report, ending);
    hide IsTrace, Left;
    ReportKeepsCount(t, m, r, Published);
    ReportKeepsCount(t, m, r, Pending);
    ReportKeepsCount(t, m, r, AwaitingReconciliation);
    ReportKeepsCount(t, m, r, Failed);
    ReportKeepsCount(t, m, r, Claimed);
  }

  lemma FinishedIs(t: Trace, m: nat, r: nat, report: Report, ending: Option<RelayError>)
    requires IsTrace(t) && m < |t.labels| && |t.states| == |t.labels| + 1 && |t.events| == |t.labels|
    requires Finished(r, report, ending) in t.events[m]
    ensures r in t.states[m].runs && report == t.states[m].runs[r].report
    ensures report.claimed == |t.states[m].runs[r].ids|
    ensures ending == Ending(t.states[m].runs[r])
  {
    hide Step, Enabled;
    var s, l := t.states[m], t.labels[m];
    assert Enabled(s, l) && Step(s, l) == (t.states[m + 1], t.events[m]);
    StateIsOk(t, m);
    if l == Mark(r) || l == Release(r) { MarksDoNotFinish(s, l); }
    OthersLeaveRunAlone(s, l, r);
    assert RunOk(s.store, s.delivered, s.runs[r]);
  }

  // ---------------------------------------------------------------- how a run ends

  function Ending(run: Run): Option<RelayError> {
    if run.phase.Releasing? then Some(run.phase.error) else None
  }

  // A mark persists the answer as the policy says, or leaves the entry claimed when the store was
  // made to fail; and it decides whether and how the run ends.
  lemma MarkIsAttempt(s: Sys, r: nat)
    requires Inv(s) && Enabled(s, Mark(r))
    ensures var run, after := s.runs[r], Step(s, Mark(r)).0;
      var id := run.ids[run.at];
      && r in after.runs && id in after.store.records
      && Attempted(after.store.records[id], id, run.policy, run.phase.answer, Ending(after.runs[r]))
  {
    var run := s.runs[r];
    assert RunOk(s.store, s.delivered, run);
    MarkFacts(s.store, run.ids[run.at], run.policy, run.phase.answer);
  }

  // A run gives back an entry it will not attempt as not attempted and to be retried, and leaves it
  // claimed when the store was made to fail.
  lemma ReleasesGiveBack(t: Trace, m: nat, r: nat)
    requires IsTrace(t) && m < |t.labels| && |t.states| == |t.labels| + 1 && t.labels[m] == Release(r)
    ensures var s, after := t.states[m], t.states[m + 1];
      && r in s.runs && s.runs[r].at < |s.runs[r].ids|
      && var id := s.runs[r].ids[s.runs[r].at];
      && id in s.store.records && id in after.store.records
      && if MarkFailed in s.store.faults && s.store.faults[MarkFailed] != 0
         then after.store.records[id] == s.store.records[id] && s.store.records[id].state == Claimed
         else
           after.store.records[id] == Record(s.store.records[id].entry, Pending, Some(Failure(NotAttempted, Retry)))
  {
    StateIsOk(t, m);
    var s := t.states[m];
    assert Enabled(s, Release(r)) && Step(s, Release(r)).0 == t.states[m + 1];
    EntryAtHandIsClaimed(s, r);
  }

  lemma ReleaseKeepsEnding(s: Sys, r: nat)
    requires Enabled(s, Release(r))
    ensures r in Step(s, Release(r)).0.runs && Ending(Step(s, Release(r)).0.runs[r]) == Ending(s.runs[r])
  {
  }

  // Step k is a mark of run r that ended it with this error.
  ghost predicate EndedBy(t: Trace, k: nat, r: nat, error: RelayError)
    requires k < |t.labels| && |t.states| == |t.labels| + 1
  {
    && t.labels[k] == Mark(r) && Enabled(t.states[k], Mark(r))
    && var run := t.states[k].runs[r];
    && var id := run.ids[run.at];
    && id in t.states[k + 1].store.records
    && Attempted(t.states[k + 1].store.records[id], id, run.policy, run.phase.answer, Some(error))
  }

  lemma {:induction false} ReleasingWasEnded(t: Trace, n: nat, r: nat) returns (k: nat)
    requires IsTrace(t) && n <= |t.labels| && |t.states| == |t.labels| + 1
    requires r in t.states[n].runs && t.states[n].runs[r].phase.Releasing?
    ensures k < n && EndedBy(t, k, r, t.states[n].runs[r].phase.error)
  {
    hide Step, Enabled, Inv, Attempted;
    var s, l := t.states[n - 1], t.labels[n - 1];
    assert Enabled(s, l) && Step(s, l).0 == t.states[n];
    StateIsOk(t, n - 1);
    if l == Mark(r) {
      MarkIsAttempt(s, r);
      k := n - 1;
    } else {
      if l == Release(r) { ReleasingIsOfRun(s, r); ReleaseKeepsEnding(s, r); } else { OthersLeaveRunAlone(s, l, r); }
      k := ReleasingWasEnded(t, n - 1, r);
    }
  }

  lemma ReleasingIsOfRun(s: Sys, r: nat)
    requires Enabled(s, Release(r))
    ensures r in s.runs && s.runs[r].phase.Releasing?
  {
  }

  // A run that finishes with an error was ended by one of its marks, and the error names what
  // happened there: the producer failed for that entry, the store refused to record the answer, or
  // both. A run that finishes without one attempted its whole batch.
  lemma EndingsAreExplained(t: Trace, m: nat, r: nat, report: Report, ending: Option<RelayError>)
    requires IsTrace(t) && m < |t.labels| && |t.states| == |t.labels| + 1 && |t.events| == |t.labels|
    requires Finished(r, report, ending) in t.events[m]
    ensures ending.Some? ==> exists k :: 0 <= k < m && EndedBy(t, k, r, ending.value)
    ensures ending.None? ==>
      Left(t, m, r, Published) + Left(t, m, r, Pending) + Left(t, m, r, AwaitingReconciliation)
      + Left(t, m, r, Failed) + Left(t, m, r, Claimed) == report.claimed
  {
    FinishedIs(t, m, r, report, ending);
    ReportsCountTheRun(t, m, r, report, ending);
    ReportsAccountForTheBatch(t, m, Finished(r, report, ending));
    hide IsTrace, Left, EndedBy;
    if ending.Some? { var k := ReleasingWasEnded(t, m, r); }
  }
}
