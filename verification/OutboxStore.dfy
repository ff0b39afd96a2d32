// The in-memory outbox: lifecycle states, claims, marks and injected failures. One function per
// operation that runs under the store's lock, and the object whose methods implement them.
module OutboxStore {
  import opened Prelude

  type OutboxId = nat

  datatype EntryState = Pending | Claimed | Published | AwaitingReconciliation | Failed
  datatype Disposition = Retry | Reconcile | Terminal
  datatype FailureKind = ProducerError | OutcomeUnknown | NotAttempted
  datatype Failure = Failure(kind: FailureKind, disposition: Disposition)

  datatype Entry = Entry(id: OutboxId, message: string, createdAt: int, attempts: nat)
  datatype Record = Record(entry: Entry, state: EntryState, lastFailure: Option<Failure>)

  datatype Operation = Insert | ClaimPending | MarkPublished | MarkFailed
  datatype StoreError =
    | Injected(operation: Operation)
    | DuplicateOutbox(id: OutboxId)
    | OutboxNotFound(id: OutboxId)
    | InvalidTransition(id: OutboxId, state: EntryState)

  type Records = map<OutboxId, Record>

  datatype Store = Store(records: Records, faults: map<Operation, nat>)

  // ---------------------------------------------------------------- injected failures

  predicate Faulty(s: Store, op: Operation) {
    op in s.faults && s.faults[op] > 0
  }

  // Consumes one planned failure of `op`, if one is left.
  function Spend(s: Store, op: Operation): Store {
    if Faulty(s, op) then s.(faults := s.faults[op := s.faults[op] - 1]) else s
  }

  // ---------------------------------------------------------------- claim order

  // The order in which pending entries are claimed: oldest first, ties by identity.
  predicate Before(records: Records, a: OutboxId, b: OutboxId)
    requires a in records && b in records
  {
    var x, y := records[a].entry.createdAt, records[b].entry.createdAt;
    x < y || (x == y && a <= b)
  }

  function PendingIds(records: Records): set<OutboxId> {
    set id | id in records && records[id].state == Pending
  }

  ghost predicate InOrder(records: Records, ids: seq<OutboxId>) {
    && (forall id <- ids :: id in records)
    && (forall i, j :: 0 <= i < j < |ids| ==> ids[i] != ids[j] && Before(records, ids[i], ids[j]))
  }

  // `ids` is the batch a claim takes: the first `limit` pending entries in claim order.
  ghost predicate IsClaim(records: Records, limit: nat, ids: seq<OutboxId>) {
    && InOrder(records, ids)
    && (forall id <- ids :: id in PendingIds(records))
    && |ids| == Min(limit, |PendingIds(records)|)
    && (forall id <- ids, other <- PendingIds(records) :: other !in ids ==> Before(records, id, other))
  }

  // One entry is older than another, or as old with the smaller identity.
  ghost predicate Older(records: Records, a: OutboxId, b: OutboxId) {
    && a in records && b in records
    && (records[a].entry.createdAt != records[b].entry.createdAt ==>
          records[a].entry.createdAt < records[b].entry.createdAt)
    && (records[a].entry.createdAt == records[b].entry.createdAt ==> a < b)
  }

  // What claiming takes: distinct entries in order of age, and never one while an older one waits.
  lemma ClaimIsOldest(records: Records, limit: nat, ids: seq<OutboxId>)
    requires IsClaim(records, limit, ids)
    ensures forall i, j :: 0 <= i < j < |ids| ==> Older(records, ids[i], ids[j])
    ensures forall id <- ids, other <- records ::
      records[other].state == Pending && other !in ids ==> Older(records, id, other)
    ensures forall id <- ids ::
      && id in records && records[id].state == Pending
      && ClaimAll(records, ids)[id] == Record(
           records[id].entry.(attempts := Min(records[id].entry.attempts + 1, U32_LIMIT - 1)),
           Claimed, records[id].lastFailure)
  {
    forall id <- ids, other <- records | records[other].state == Pending && other !in ids
      ensures Older(records, id, other)
    {
      assert other in PendingIds(records);
    }
  }

  function ClaimOne(r: Record): Record {
    r.(state := Claimed, entry := r.entry.(attempts := SaturatingInc32(r.entry.attempts)))
  }

  function ClaimAll(records: Records, ids: seq<OutboxId>): (r: Records)
    ensures r.Keys == records.Keys
    ensures forall id <- records :: r[id] == if id in ids then ClaimOne(records[id]) else records[id]
  {
    map id | id in records :: if id in ids then ClaimOne(records[id]) else records[id]
  }

  // ---------------------------------------------------------------- operations

  function InsertSection(s0: Store, entry: Entry): (Store, Result<(), StoreError>) {
    if Faulty(s0, Insert) then (Spend(s0, Insert), Err(Injected(Insert)))
    else if entry.id in s0.records then (s0, Err(DuplicateOutbox(entry.id)))
    else (s0.(records := s0.records[entry.id := Record(entry, Pending, None)]), Ok(()))
  }

  function MarkPublishedSection(s: Store, id: OutboxId): (Store, Result<(), StoreError>) {
    if Faulty(s, MarkPublished) then (Spend(s, MarkPublished), Err(Injected(MarkPublished)))
    else if id !in s.records then (s, Err(OutboxNotFound(id)))
    else
      match s.records[id].state
      case Claimed =>
        (s.(records := s.records[id := s.records[id].(state := Published, lastFailure := None)]), Ok(()))
      case Published => (s, Ok(()))
      case observed => (s, Err(InvalidTransition(id, observed)))
  }

  function StateAfter(disposition: Disposition): EntryState {
    match disposition
    case Retry => Pending
    case Reconcile => AwaitingReconciliation
    case Terminal => Failed
  }

  function MarkFailedSection(s: Store, id: OutboxId, failure: Failure): (Store, Result<(), StoreError>) {
    if Faulty(s, MarkFailed) then (Spend(s, MarkFailed), Err(Injected(MarkFailed)))
    else if id !in s.records then (s, Err(OutboxNotFound(id)))
    else if s.records[id].state != Claimed then (s, Err(InvalidTransition(id, s.records[id].state)))
    else
      var moved := s.records[id].(state := StateAfter(failure.disposition), lastFailure := Some(failure));
      (s.(records := s.records[id := moved]), Ok(()))
  }

  // ---------------------------------------------------------------- claiming, as the store does it

  lemma SplicedIsInOrder(records: Records, ids: seq<OutboxId>, n: nat, id: OutboxId, r: seq<OutboxId>)
    requires InOrder(records, ids) && id in records && id !in ids && n <= |ids|
    requires forall i :: 0 <= i < n ==> Before(records, ids[i], id)
    requires n < |ids| ==> !Before(records, ids[n], id)
    requires r == ids[..n] + [id] + ids[n..]
    ensures InOrder(records, r)
  {
    forall k | 0 <= k < |r| ensures r[k] in records && (k != n ==> r[k] != id) {
      assert k < n ==> r[k] == ids[k];
      assert k > n ==> r[k] == ids[k - 1];
    }
    forall i, j | 0 <= i < j < |r| ensures r[i] != r[j] && Before(records, r[i], r[j]) {
      assert i < n ==> r[i] == ids[i];
      assert i > n ==> r[i] == ids[i - 1];
      assert j < n ==> r[j] == ids[j];
      assert j > n ==> r[j] == ids[j - 1];
      if i == n && j > n + 1 { assert Before(records, ids[n], ids[j - 1]); }
    }
  }

  // Inserts one identity at its place in claim order.
  method InsertInOrder(records: Records, ids: seq<OutboxId>, id: OutboxId) returns (r: seq<OutboxId>)
    requires InOrder(records, ids) && id in records && id !in ids
    ensures InOrder(records, r) && |r| == |ids| + 1
    ensures forall x :: x in r <==> x in ids || x == id
  {
    var n := 0;
    while n < |ids| && Before(records, ids[n], id)
      invariant n <= |ids|
      invariant forall i :: 0 <= i < n ==> Before(records, ids[i], id)
    {
      n := n + 1;
    }
    r := ids[..n] + [id] + ids[n..];
    SplicedIsInOrder(records, ids, n, id, r);
    assert ids == ids[..n] + ids[n..];
  }

  // Every pending entry, oldest first.
  method PendingInOrder(records: Records) returns (ids: seq<OutboxId>)
    ensures InOrder(records, ids)
    ensures forall id :: id in ids <==> id in PendingIds(records)
    ensures |ids| == |PendingIds(records)|
  {
    var rest := PendingIds(records);
    ids := [];
    while rest != {}
      invariant rest <= PendingIds(records)
      invariant InOrder(records, ids)
      invariant forall id :: id in ids <==> id in PendingIds(records) - rest
      invariant |ids| + |rest| == |PendingIds(records)|
      decreases |rest|
    {
      var id :| id in rest;
      ids := InsertInOrder(records, ids, id);
      rest := rest - {id};
    }
  }

  // The first `limit` of all pending entries, in order, are a claim.
  lemma PrefixIsClaim(records: Records, limit: nat, all: seq<OutboxId>)
    requires InOrder(records, all) && |all| == |PendingIds(records)|
    requires forall id :: id in all <==> id in PendingIds(records)
    ensures IsClaim(records, limit, all[..Min(limit, |all|)])
  {
    var ids := all[..Min(limit, |all|)];
    assert forall k :: 0 <= k < |ids| ==> ids[k] == all[k] && all[k] in ids;
    forall id <- ids, other <- PendingIds(records) | other !in ids ensures Before(records, id, other) {
      var i :| 0 <= i < |ids| && ids[i] == id;
      var j :| 0 <= j < |all| && all[j] == other;
    }
  }

  lemma NextOfOtherClaim(records: Records, limit: nat, a: seq<OutboxId>, b: seq<OutboxId>, k: nat)
    requires IsClaim(records, limit, a) && IsClaim(records, limit, b) && k < |a| == |b| && a[..k] == b[..k]
    ensures Before(records, b[k], a[k])
  {
    assert a[k] in a && b[k] in b;
    assert forall i :: 0 <= i < k ==> a[i] == a[..k][i] && b[i] == b[..k][i];
    if a[k] in b {
      var j :| 0 <= j < |b| && b[j] == a[k];
      assert j >= k;
    }
  }

  // A claim is determined by the store: there is one oldest batch.
  lemma {:induction false} ClaimIsUnique(records: Records, limit: nat, a: seq<OutboxId>, b: seq<OutboxId>, k: nat)
    requires IsClaim(records, limit, a) && IsClaim(records, limit, b) && k <= |a|
    ensures |a| == |b| && a[..k] == b[..k]
  {
    if k > 0 {
      ClaimIsUnique(records, limit, a, b, k - 1);
      NextOfOtherClaim(records, limit, a, b, k - 1);
      NextOfOtherClaim(records, limit, b, a, k - 1);
      assert a[..k] == a[..k - 1] + [a[k - 1]] && b[..k] == b[..k - 1] + [b[k - 1]];
    }
  }

  method ClaimEach(records: Records, ids: seq<OutboxId>) returns (r: Records)
    requires InOrder(records, ids)
    ensures r == ClaimAll(records, ids)
  {
    r := records;
    var n := 0;
    while n < |ids|
      invariant n <= |ids|
      invariant r == ClaimAll(records, ids[..n])
    {
      assert ids[..n + 1] == ids[..n] + [ids[n]];
      assert ids[n] !in ids[..n];
      r := r[ids[n] := ClaimOne(r[ids[n]])];
      n := n + 1;
    }
    assert ids[..n] == ids;
  }

  class InMemoryOutboxStore {
    var records: Records
    var faults: map<Operation, nat>

    function State(): Store
      reads this
    {
      Store(records, faults)
    }

    constructor ()
      ensures State() == Store(map[], map[])
    {
      records, faults := map[], map[];
    }

    method InjectFailure(op: Operation, times: nat)
      modifies this
      ensures State() == old(State()).(faults := old(faults)[op := times])
    {
      faults := faults[op := times];
    }

    // Consumes a planned failure; tells whether the operation must fail.
    method Check(op: Operation) returns (failing: bool)
      modifies this
      ensures failing == Faulty(old(State()), op) && State() == Spend(old(State()), op)
      ensures failing <==> op in old(faults) && old(faults)[op] != 0
      ensures records == old(records)
      ensures faults == if failing then old(faults)[op := old(faults)[op] - 1] else old(faults)
    {
      failing := op in faults && faults[op] > 0;
      if failing { faults := faults[op := faults[op] - 1]; }
    }

    method InsertEntry(entry: Entry) returns (r: Result<(), StoreError>)
      modifies this
      ensures (State(), r) == InsertSection(old(State()), entry)
      // it is stored as given, pending and without a failure, exactly when nothing is in the way
      ensures r.Ok? <==> !(Insert in old(faults) && old(faults)[Insert] != 0) && entry.id !in old(records)
      ensures r.Ok? ==>
        && records.Keys == old(records).Keys + {entry.id} && records[entry.id].entry == entry
        && records[entry.id].state == Pending && records[entry.id].lastFailure == None
        && (forall id <- old(records) :: records[id] == old(records)[id]) && faults == old(faults)
      ensures r.Err? ==> records == old(records)
      ensures r == Err(DuplicateOutbox(entry.id)) <==>
        !(Insert in old(faults) && old(faults)[Insert] != 0) && entry.id in old(records)
    {
      var failing := Check(Insert);
      if failing { return Err(Injected(Insert)); }
      if entry.id in records { return Err(DuplicateOutbox(entry.id)); }
      records := records[entry.id := Record(entry, Pending, None)];
      return Ok(());
    }

    // Claims the oldest pending entries. A planned failure claims nothing.
    method Claim(limit: nat) returns (r: Result<seq<OutboxId>, StoreError>)
      modifies this
      ensures r.Err? <==> Faulty(old(State()), ClaimPending)
      ensures r.Err? ==> r.error == Injected(ClaimPending) && State() == Spend(old(State()), ClaimPending)
      ensures r.Ok? ==>
        IsClaim(old(records), limit, r.value) && State() == old(State()).(records := ClaimAll(old(records), r.value))
      // oldest first, ties by identity, and none left out that comes before one taken
      ensures r.Ok? ==> forall i, j :: 0 <= i < j < |r.value| ==> Older(old(records), r.value[i], r.value[j])
      ensures r.Ok? ==> forall id <- r.value, other <- old(records) ::
        old(records)[other].state == Pending && other !in r.value ==> Older(old(records), id, other)
      ensures r.Ok? ==> forall id <- r.value ::
        && records[id].state == Claimed && records[id].lastFailure == old(records)[id].lastFailure
        && records[id].entry == old(records)[id].entry.(attempts := records[id].entry.attempts)
        && records[id].entry.attempts == Min(old(records)[id].entry.attempts + 1, U32_LIMIT - 1)
    {
      hide IsClaim, ClaimAll;
      var failing := Check(ClaimPending);
      if failing { return Err(Injected(ClaimPending)); }
      var ids := PendingInOrder(records);
      PrefixIsClaim(records, limit, ids);
      if |ids| > limit { ids := ids[..limit]; } else { assert ids[..|ids|] == ids; }
      ClaimIsOldest(records, limit, ids);
      records := ClaimEach(records, ids);
      return Ok(ids);
    }

    method MarkAsPublished(id: OutboxId) returns (r: Result<(), StoreError>)
      modifies this
      ensures (State(), r) == MarkPublishedSection(old(State()), id)
      ensures MarkPublished in old(faults) && old(faults)[MarkPublished] != 0 ==>
        r == Err(Injected(MarkPublished)) && records == old(records)
      // a claimed entry becomes published with its failure forgotten, a published one stays so
      ensures !(MarkPublished in old(faults) && old(faults)[MarkPublished] != 0) ==>
        && faults == old(faults)
        && if id !in old(records) then r == Err(OutboxNotFound(id)) && records == old(records)
           else
             var was := old(records)[id];
             if was.state == Claimed then r.Ok? && records == old(records)[id := Record(was.entry, Published, None)]
             else
               && records == old(records)
               && r == if was.state == Published then Ok(()) else Err(InvalidTransition(id, was.state))
    {
      var failing := Check(MarkPublished);
      if failing { return Err(Injected(MarkPublished)); }
      if id !in records { return Err(OutboxNotFound(id)); }
      match records[id].state
      case Claimed =>
        records := records[id := records[id].(state := Published, lastFailure := None)];
        return Ok(());
      case Published => return Ok(());
      case observed => return Err(InvalidTransition(id, observed));
    }

    method MarkAsFailed(id: OutboxId, failure: Failure) returns (r: Result<(), StoreError>)
      modifies this
      ensures (State(), r) == MarkFailedSection(old(State()), id, failure)
      ensures MarkFailed in old(faults) && old(faults)[MarkFailed] != 0 ==>
        r == Err(Injected(MarkFailed)) && records == old(records)
      // a claimed entry keeps its failure and goes where the failure's disposition sends it
      ensures !(MarkFailed in old(faults) && old(faults)[MarkFailed] != 0) ==>
        && faults == old(faults)
        && if id !in old(records) then r == Err(OutboxNotFound(id)) && records == old(records)
           else
             var was := old(records)[id];
             if was.state != Claimed then r == Err(InvalidTransition(id, was.state)) && records == old(records)
             else
               && r.Ok? && records.Keys == old(records).Keys
               && records == old(records)[id := Record(was.entry, records[id].state, Some(failure))]
               && match failure.disposition
                  case Retry => records[id].state == Pending
                  case Reconcile => records[id].state == AwaitingReconciliation
                  case Terminal => records[id].state == Failed
    {
      var failing := Check(MarkFailed);
      if failing { return Err(Injected(MarkFailed)); }
      if id !in records { return Err(OutboxNotFound(id)); }
      if records[id].state != Claimed { return Err(InvalidTransition(id, records[id].state)); }
      records := records[id := records[id].(state := StateAfter(failure.disposition), lastFailure := Some(failure))];
      return Ok(());
    }
  }
}
