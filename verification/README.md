# Verified model of the Plenora runtime tools

This project models, in Dafny, the parts of the Plenora runtime tools whose correctness depends on
more than one function at a time, and proves what those parts promise: over every input, over every
interleaving of concurrent callers, or over every history of answers from the outside world.

`dafny verify dfyconfig.toml` checks everything.

## What is modelled

**Scheduler** (`ScheduleEntries`, `ScheduleHistories`, `SchedulerRegistry`, `SchedulerMachine`,
`SchedulerSafety`, `SchedulerRuns`, `SchedulerTheorems`, `SchedulerReports`, `SchedulerSolo`,
`SchedulerObject`). A schedule has a cursor
(its next due occurrence), a status, a misfire boundary and a dispatch token. Ticks decide, dispatch
and settle occurrences; each holds the registry lock only for short sections, and awaits the
dispatcher in between. `SchedulerRegistry` has one pure function per lock-held section.
`SchedulerMachine` interleaves those sections for any number of ticks, drops ticks at the await,
lets the owner add, remove, pause, resume and resolve schedules, and rebuilds the scheduler from its
snapshots. `SchedulerTheorems` states the promises over recorded runs of that machine, and
`SchedulerReports` what each tick's report counts in such a run. `SchedulerObject` is the scheduler
as an object whose methods are the same sections, and a whole tick that runs alone, which is shown to
be a run of the machine (`SchedulerSolo`).

**Transactional outbox** (`OutboxStore`, `OutboxRelay`, `OutboxRuns`, `OutboxTheorems`,
`OutboxReports`). A relay run claims pending entries, hands them to a producer in order, persists what it answered and releases
what it will not attempt. `OutboxRelay` is one run against the in-memory store. `OutboxRuns`
interleaves any number of runs, insertions, injected store failures and dropped runs.

**Codecs** (`Text`, `Base64Url`, `Metadata`, `NatsHeaders`, `NatsRoundTrip`, `CapabilityCodec`).
Portable metadata is a byte-bounded map with namespaced keys. The NATS adapter carries it in headers
as unpadded base64url text (sections 3.2 and 5 of RFC 4648); text must be UTF-8 (section 4 of RFC
3629). The capability codec writes five reserved entries into a message and parses them back.
Strings are sequences of bytes throughout.

**In-memory broker and delivery bridge** (`FakeBroker`, `BrokerWorld`, `DeliveryBridge`,
`BridgeRuns`, `BridgeTheorems`). The broker queues deliveries, gives each to one owner and takes it
back unless it is settled for good. The bridge decodes a delivery, runs a handler under heartbeats
and settles it. `BrokerWorld` interleaves all clients of the broker; `BridgeRuns` adds any number of
bridge runs, each dropped wherever it waits.

**Subprocess supervision** (`Subprocess`). One supervised child: wait, terminate gracefully, kill,
reap. The operating system may answer anything and the supervising future may be dropped at any
await; both come from a script, whose end is a drop. Wakes, memory samples, signals, reaps, failed
and overdue waits and recorded tree failures form a history.

**Task identifiers, retry delays, memory pressure** (`ActiveTasks`, `RetryBackoff`,
`MemoryPressure`). Identifier allocation with 64-bit wrap-around; exponential backoff with checked
multiplication, early exit and jitter; memory-pressure hysteresis with two streak counters.

## How to read the proofs

- A state machine has labels, `Enabled` and `Step` (or a total `Step`), an invariant, one lemma per
  kind of step, and theorems over recorded runs or traces: sequences of states, labels and events
  linked by `Step`.
- The functions that run under a lock are written once and used by both the machine and the object,
  so what is proved of the machine's sections is what the object's methods do. What each of them does
  is also stated case by case, without them, or counted over the labels of a run.
- Instants and durations are integers; a plan is an arbitrary partial function from an occurrence to
  the next one. Word-sized counters saturate or wrap where the program's do.
- `Trace`, `Record` and `Enumerates` are arbitrary: no theorem bounds the length of a run, the number
  of callers or the size of a backlog.

## Where behaviour and documentation differ

- The documentation of a capability request says that encoding replaces reserved entries the input
  already carries (`crates/plenora-runtime-capabilities/src/request.rs:49-51`). The code writes the
  five entries one at a time and each intermediate map must be within bounds, so an input whose
  finished headers would fit can be refused. `CapabilityCodec.FailingInput` is such a request: headers
  at the size limit, a quarter of it in an old input contract. `CapabilityCodec.EncodableExactly` says
  when encoding succeeds, in sizes a caller can add up beforehand;
  `CapabilityCodec.EncodableExactlyWhenItFits` says when the finished headers alone decide.
- Version numbers are parsed with an optional plus sign and leading zeros, and written without.
  `CapabilityCodec.ParsesExactly` gives the accepted texts, and
  `CapabilityCodec.ReencodesToItselfExactly` says when re-encoding gives back the very message.

## Model

| member | source | states |
|---|---|---|
| SchedulerTheorems.NoDoubleDispatch | crates/plenora-runtime-scheduler/src/scheduler.rs:743-869 | in every state of every interleaving, outstanding dispatches have distinct identities, each pins a registered entry that awaits reconciliation with that dispatch's token; Active schedules have none; the unsettled list stays within `max_schedules`; no outcome is ever stale and no slot is ever refused |
| SchedulerTheorems.BacklogStaysAbandoned | crates/plenora-runtime-scheduler/src/scheduler.rs:874-996 | after a FireOnce misfire dispatched at `now` is confirmed by its dispatcher or the owner, no later tick, with any clock, dispatches an occurrence already older than the grace at `now`, across restarts from snapshots under FireOnce |
| SchedulerTheorems.NoOccurrenceIsLost | crates/plenora-runtime-scheduler/src/scheduler.rs:874-996 | while a schedule stays registered, the occurrences consumed by confirmations, skipped misfires and owner confirmations are the plan's successive occurrences, in order, and lead from the old cursor to the new |
| SchedulerTheorems.SecondDispatchNeedsCause | crates/plenora-runtime-scheduler/src/scheduler.rs:703-735 | between two dispatches of a schedule the first was settled; the same due instant is dispatched again only after a NotStarted outcome or an owner Retry |
| SchedulerTheorems.PoliciesAreFollowed | crates/plenora-runtime-scheduler/src/scheduler.rs:927-996 | in every run, only due occurrences are dispatched and none overdue under Skip; an occurrence is dropped only overdue, by Skip or behind a FireOnce misfire, never under CatchUp; one that never started or is to be retried is offered again |
| SchedulerTheorems.TickStaysInBudget | crates/plenora-runtime-scheduler/src/scheduler.rs:512-545 | beside any other ticks, a tick's calls and remaining budget add up to the global bound and its work on the current schedule stays within the catch-up bound |
| SchedulerTheorems.SnapshotsRestore | crates/plenora-runtime-scheduler/src/scheduler.rs:124-149 | every snapshot of every reachable state is accepted for its identity and reproduces status, cursor and boundary; taken mid-dispatch it restores what dropping the tick leaves, up to the token |
| SchedulerReports.ReportsCountTheTick | crates/plenora-runtime-scheduler/src/scheduler.rs:764-869 | in every run, a tick's report counts its own steps: `dispatched`, `not_started_failures` and `reconciliation_required` are the numbers of its Return labels with each outcome, `skipped_misfires` the occurrences its steps dropped, `schedules_examined` the registered Active schedules it took up; it is saturated exactly when one of its steps left due work behind a bound |
| SchedulerReports.ReportKeepsCount | crates/plenora-runtime-scheduler/src/scheduler.rs:764-869 | the same at every moment of a tick under way, beside anything else that runs |
| ScheduleHistories.CursorIsAccountedFor | crates/plenora-runtime-scheduler/src/scheduler.rs:1051-1068 | over any life of one entry, the cursor is the plan's strict successor applied once per consumed occurrence |
| ScheduleHistories.ReissueNeedsRelease | crates/plenora-runtime-scheduler/src/scheduler.rs:874-924 | over any life of one entry, an occurrence that was issued is not issued again without a NotStarted outcome or an owner Retry for it |
| ScheduleHistories.UnresolvedBlocks | crates/plenora-runtime-scheduler/src/scheduler.rs:927-996 | an entry awaiting reconciliation issues nothing and keeps its cursor until it is settled |
| ScheduleHistories.AbandonedStaysAbandoned | crates/plenora-runtime-scheduler/src/scheduler.rs:927-996 | once occurrences up to an instant are abandoned, no action on the entry under its policy issues one of them |
| ScheduleHistories.ConfirmationAbandons | crates/plenora-runtime-scheduler/src/scheduler.rs:874-924 | confirming an attempt that carries a misfire boundary abandons the backlog older than the grace at that boundary |
| ScheduleHistories.EventsAreJustified | crates/plenora-runtime-scheduler/src/scheduler.rs:927-996 | every dispatch, drop and settlement of an entry has the cause its policy requires |
| ScheduleHistories.OfferedIsDispatched | crates/plenora-runtime-scheduler/src/scheduler.rs:927-996 | an offered occurrence is dispatched by the first decision with room at or after it is due, unless Skip finds it overdue |
| ScheduleHistories.ReleasedIsOffered | crates/plenora-runtime-scheduler/src/scheduler.rs:913-918 | a NotStarted outcome or an owner Retry leaves the entry Active at the same occurrence, without a boundary |
| ScheduleEntries.Sweep | crates/plenora-runtime-scheduler/src/scheduler.rs:1090-1110 | skips at most `limit` occurrences and stops short only at an occurrence within the grace or at the end of the plan |
| ScheduleEntries.Successor | crates/plenora-runtime-scheduler/src/scheduler.rs:1051-1068 | there is a next occurrence exactly when the plan gives one strictly later, and it is that one |
| ScheduleEntries.AdvanceOnce | crates/plenora-runtime-scheduler/src/scheduler.rs:1051-1068 | the cursor becomes the plan's strict successor; without one the entry is Completed and its boundary cleared; identity, policy and token stay |
| ScheduleEntries.DecidesByCase | crates/plenora-runtime-scheduler/src/scheduler.rs:927-996 | one decision: nothing without room or before the due instant; dropped exactly when Skip finds it older than the grace or a FireOnce misfire already answered for it; else kept back by shutdown, refused for a full unsettled list, or dispatched and pinned, with a boundary exactly for a FireOnce misfire |
| ScheduleEntries.SettlesByCase | crates/plenora-runtime-scheduler/src/scheduler.rs:874-924 | one settlement: the token is released; NotStarted offers the occurrence again, Unknown leaves it pinned, Confirmed moves to the strict successor, and a confirmed FireOnce misfire leaves the instant as boundary and drops overdue occurrences up to the limit |
| ScheduleEntries.NewSchedule | crates/plenora-runtime-scheduler/src/scheduler.rs:80-94 | a new schedule is Active at its first occurrence, under FireOnce, without a boundary |
| ScheduleEntries.WithNextDueAt | crates/plenora-runtime-scheduler/src/scheduler.rs:108-117 | sets the cursor, clears the boundary, and is Active exactly with a cursor |
| ScheduleEntries.RestoreFrom | crates/plenora-runtime-scheduler/src/scheduler.rs:124-149 | accepts exactly snapshots of this identity whose status, cursor and boundary are consistent |
| ScheduleEntries.RestoreReproducesEntry | crates/plenora-runtime-scheduler/src/scheduler.rs:124-149 | every consistent entry's snapshot is accepted and loses only the dispatch token |
| ScheduleEntries.EntryNextFacts | crates/plenora-runtime-scheduler/src/scheduler.rs:874-996 | every action on an entry keeps it consistent, keeps its identity and plan, and never moves its cursor backwards |
| SchedulerSafety.SlotIsFree | crates/plenora-runtime-scheduler/src/scheduler.rs:227-236 | after a prune, an entry without an outstanding dispatch leaves the unsettled list shorter than the registry, so a slot is free |
| SchedulerSafety.StepKeeps | crates/plenora-runtime-scheduler/src/scheduler.rs:743-869 | every step of every tick, owner call, dropped tick and restart keeps the scheduler invariant and emits nothing impossible |
| SchedulerSafety.ChooseKeeps | crates/plenora-runtime-scheduler/src/scheduler.rs:754-800 | deciding under the lock, skipping or recording a dispatch, keeps the invariant and always finds a slot |
| SchedulerSafety.ReturnKeeps | crates/plenora-runtime-scheduler/src/scheduler.rs:829-869 | settling a returned dispatch finds its own token still in place and keeps the invariant |
| SchedulerSafety.AbandonKeeps | crates/plenora-runtime-scheduler/src/scheduler.rs:239-247 | dropping a tick at its await releases its record and keeps the invariant |
| SchedulerSafety.OwnerKeeps | crates/plenora-runtime-scheduler/src/scheduler.rs:445-500 | owner calls never touch an entry with an outstanding dispatch in a way that breaks the invariant |
| SchedulerSafety.RestartKeeps | crates/plenora-runtime-scheduler/src/scheduler.rs:365-376 | rebuilding from snapshots is accepted for every entry and re-establishes the invariant |
| SchedulerRuns.RunProjects | crates/plenora-runtime-scheduler/src/scheduler.rs:743-869 | what any interleaving does to one schedule is a life of that one entry, with the same events |
| SchedulerRuns.BuiltIsInitial | crates/plenora-runtime-scheduler/src/scheduler.rs:365-376 | whatever the builder accepts, one registration after the other, is a state the run theorems start from |
| SchedulerRegistry.AddsExactly | crates/plenora-runtime-scheduler/src/scheduler.rs:445-465 | accepted exactly with room, an unregistered identity and no live attempt of an earlier holder; registered last, as defined; each refusal named; nothing else changes |
| SchedulerRegistry.RemovesExactly | crates/plenora-runtime-scheduler/src/scheduler.rs:479-500 | removed exactly when registered and not awaiting reconciliation; the answer is the snapshot of that entry and the others keep their order |
| SchedulerRegistry.SuspendsExactly | crates/plenora-runtime-scheduler/src/scheduler.rs:592-627 | pause and resume work exactly on Active and Paused schedules and change only the status |
| SchedulerRegistry.ResolvesExactly | crates/plenora-runtime-scheduler/src/scheduler.rs:703-735 | the owner decides exactly on a schedule awaiting reconciliation without a live attempt: confirming moves to the strict successor or completes, retrying offers the same occurrence again |
| SchedulerObject.SkipThroughNow | crates/plenora-runtime-scheduler/src/scheduler.rs:1090-1110 | the loop computes the sweep and returns the skipped occurrences in order |
| SchedulerObject.DecideEntry | crates/plenora-runtime-scheduler/src/scheduler.rs:927-996 | the step-by-step decision computes the decision function |
| SchedulerObject.RetainLive | crates/plenora-runtime-scheduler/src/scheduler.rs:227-230 | pruning keeps exactly the records whose dispatch is still owned, in order |
| SchedulerObject.Scheduler.AddSchedule | crates/plenora-runtime-scheduler/src/scheduler.rs:445-465 | adds the schedule or refuses it for capacity or a duplicate identity, changing nothing else |
| SchedulerObject.Scheduler.RemoveSchedule | crates/plenora-runtime-scheduler/src/scheduler.rs:479-500 | removes a schedule and returns its snapshot; refuses one that awaits reconciliation, as every dispatching one does |
| SchedulerObject.Scheduler.PauseSchedule | crates/plenora-runtime-scheduler/src/scheduler.rs:592-605 | pauses an Active or Paused schedule; refuses one that is completed or awaits reconciliation |
| SchedulerObject.Scheduler.ResumeSchedule | crates/plenora-runtime-scheduler/src/scheduler.rs:614-627 | resumes an Active or Paused schedule; refuses one that is completed or awaits reconciliation |
| SchedulerObject.Scheduler.ResolveReconciliation | crates/plenora-runtime-scheduler/src/scheduler.rs:703-735 | settles an unresolved occurrence as the owner says, unless it is still being dispatched |
| SchedulerObject.Scheduler.DecideLocked | crates/plenora-runtime-scheduler/src/scheduler.rs:754-800 | one lock-held decision section |
| SchedulerObject.Scheduler.ApplyLocked | crates/plenora-runtime-scheduler/src/scheduler.rs:874-924 | one lock-held settlement section |
| SchedulerObject.Scheduler.ProcessEntry | crates/plenora-runtime-scheduler/src/scheduler.rs:743-869 | one schedule's turn: calls plus skips within the catch-up bound, each outcome counted as what it was, other entries untouched, due work left behind is explained, and the turn is a path of the state machine |
| SchedulerObject.Scheduler.Tick | crates/plenora-runtime-scheduler/src/scheduler.rs:512-545 | a tick alone: each outcome counter is the number of dispatcher calls that ended so, and together they are all calls, within the global bound; work per schedule within the catch-up bound; saturated implies due work remains, and conversely when every dispatch started; the whole tick is a run of the state machine with those results, the same registry and the same report |
| SchedulerSolo.SoloReport | crates/plenora-runtime-scheduler/src/scheduler.rs:527-545 | the machine's tick without a schedule or without budget left reports and is gone, saturated when due work remains with the budget spent |
| OutboxStore.InsertInOrder | crates/plenora-runtime-outbox/src/memory.rs:237-237 | inserts an identity at its place by creation time, ties by identity |
| OutboxStore.PendingInOrder | crates/plenora-runtime-outbox/src/memory.rs:231-237 | lists exactly the pending entries, oldest first |
| OutboxStore.PrefixIsClaim | crates/plenora-runtime-outbox/src/memory.rs:237-238 | truncating that list gives the oldest `limit` pending entries: none left out precedes one taken |
| OutboxStore.ClaimIsUnique | crates/plenora-runtime-outbox/src/memory.rs:231-238 | the store determines the batch: two claims of the same limit are the same sequence |
| OutboxStore.ClaimEach | crates/plenora-runtime-outbox/src/memory.rs:240-247 | exactly the batch becomes Claimed with its attempts counted up, saturating |
| OutboxStore.ClaimIsOldest | crates/plenora-runtime-outbox/src/memory.rs:231-247 | a claim takes distinct pending entries in order of age, ties by identity, never one while an older one waits, and changes only their state and their attempts |
| OutboxStore.InMemoryOutboxStore.InjectFailure | crates/plenora-runtime-outbox/src/memory.rs:212-220 | plans failures of one operation and leaves every other plan alone |
| OutboxStore.InMemoryOutboxStore.Check | crates/plenora-runtime-outbox/src/memory.rs:89-100 | a planned failure is consumed exactly when one is left, and no record moves |
| OutboxStore.InMemoryOutboxStore.InsertEntry | crates/plenora-runtime-outbox/src/memory.rs:160-175 | accepted exactly when no insert failure is left and the identity is new; then the entry is stored as given, pending and without a failure, and nothing else changes; on an error no record changes |
| OutboxStore.InMemoryOutboxStore.Claim | crates/plenora-runtime-outbox/src/memory.rs:227-249 | claims the oldest pending entries up to the limit, in order, each with its attempts counted up, or nothing on a planned failure |
| OutboxStore.InMemoryOutboxStore.MarkAsPublished | crates/plenora-runtime-outbox/src/memory.rs:251-273 | Claimed becomes Published with its failure forgotten, Published stays so, anything else is an invalid transition, an unknown identity is not found; other records stay |
| OutboxStore.InMemoryOutboxStore.MarkAsFailed | crates/plenora-runtime-outbox/src/memory.rs:275-297 | only a Claimed entry moves, to the state its disposition names, keeping the failure; every other case is named and changes no record |
| OutboxRelay.ReleaseClaims | crates/plenora-runtime-outbox/src/relay.rs:416-432 | every remaining claim is given back as not attempted and to be retried, or counted as unreleased; the counters stay the numbers of entries in each state |
| OutboxRelay.Persist | crates/plenora-runtime-outbox/src/relay.rs:350-404 | each answer is persisted as the policy says, with the failure it stands for; a refused mark or a producer error ends the run with the matching error |
| OutboxRelay.RunOnce | crates/plenora-runtime-outbox/src/relay.rs:332-408 | on every return path claimed equals the sum of the counters plus one exactly when the entry's own mark was refused; the counters are the numbers of batch entries in each state; each answer ended in its state; no other record moved |
| OutboxRelay.CountsPartition | crates/plenora-runtime-outbox/src/memory.rs:105-117 | the five lifecycle states partition any batch |
| OutboxRuns.StepKeeps | crates/plenora-runtime-outbox/src/relay.rs:332-432 | every step of any number of runs keeps claims disjoint, owned entries Claimed and finally answered entries out of Pending |
| OutboxTheorems.NeverDeliveredTwice | crates/plenora-runtime-outbox/src/relay.rs:350-378 | once a publication was answered Confirmed, or OutcomeUnknown to a run that does not retry unknown outcomes, no run ever hands that entry to a producer again |
| OutboxTheorems.SecondHandOverNeedsRetry | crates/plenora-runtime-outbox/src/relay.rs:348-406 | between two hand-overs of one entry an answer that retries it was persisted; so an entry whose run was dropped at the producer or whose mark was refused is never handed out again, whatever the policies |
| OutboxTheorems.RepeatsExactlyWhenUnknownIsRetried | crates/plenora-runtime-outbox/src/relay.rs:28-55 | a policy excludes repeated delivery over all histories exactly when it does not retry unknown outcomes |
| OutboxTheorems.MarksAreNeverInvalid | crates/plenora-runtime-outbox/src/memory.rs:251-297 | a run's mark on its own claim is refused only by an injected failure, never as unknown or as an invalid transition |
| OutboxTheorems.ReportsAccountForTheBatch | crates/plenora-runtime-outbox/src/relay.rs:143-151 | every report of every interleaved run accounts for its whole batch |
| OutboxTheorems.SettledStaysSettled | crates/plenora-runtime-outbox/src/memory.rs:227-297 | an entry published, set aside for reconciliation or failed never moves again, in any interleaving |
| OutboxTheorems.NoClaimIsLeftBehind | crates/plenora-runtime-outbox/src/relay.rs:332-432 | without dropped runs and refused marks, every claimed entry is held by a live run, on every error path: when no run is live, nothing is claimed |
| OutboxReports.InsertedEntryIsKept | crates/plenora-runtime-outbox/src/memory.rs:160-175 | an entry inserted at some step is found in every later state with its identity, message and creation time, its attempts grown by exactly its claims since, saturating at 32 bits; a refused insertion changes no record |
| OutboxReports.EntryKeepsContent | crates/plenora-runtime-outbox/src/memory.rs:240-247 | between any two states an entry keeps its content and gains one attempt per claim of it |
| OutboxReports.ReportsCountTheRun | crates/plenora-runtime-outbox/src/relay.rs:143-151 | in every interleaving, the counters of a finished run are the numbers of its marks and releases that left an entry in each lifecycle state |
| OutboxReports.EndingsAreExplained | crates/plenora-runtime-outbox/src/relay.rs:350-408 | a run that finishes with an error was ended by a mark of its own, and the error names what happened there; one without attempted its whole batch |
| OutboxReports.ReleasesGiveBack | crates/plenora-runtime-outbox/src/relay.rs:416-432 | a release leaves the entry pending with a not-attempted failure, or claimed when the store was made to fail |
| Text.AsciiIsUtf8 | crates/plenora-runtime-messaging/src/metadata.rs:205-224 | the key alphabet is UTF-8 text |
| Text.TextIsUtf8 | adapters/plenora-runtime-nats/src/metadata.rs:70-71 | the encoding of every sequence of Unicode scalar values is accepted as text |
| Text.Utf8IsText | adapters/plenora-runtime-nats/src/metadata.rs:70-71 | every accepted byte string is the encoding of a sequence of scalar values: no overlong form, no surrogate |
| Text.FoldPairsLetters | adapters/plenora-runtime-nats/src/metadata.rs:138-143 | two characters count as the same exactly when equal or one letter in both cases |
| Text.ClassesAreCharacters | crates/plenora-runtime-messaging/src/metadata.rs:205-224 | the character classes are the letters and digits written out |
| Text.SplitIsUndone | crates/plenora-runtime-messaging/src/metadata.rs:214-216 | joining the segments of a split gives the text back, and no segment holds a separator |
| Text.SplitOfJoin | crates/plenora-runtime-messaging/src/metadata.rs:214-216 | segments without a separator come back from their joined text |
| Text.EmptySegments | crates/plenora-runtime-messaging/src/metadata.rs:214-216 | a split has an empty segment exactly when a separator is at an end or next to another |
| Base64Url.DecodeEncode | adapters/plenora-runtime-nats/src/metadata.rs:30-40 | decoding undoes encoding for all bytes |
| Base64Url.EncodeDecode | adapters/plenora-runtime-nats/src/metadata.rs:67-71 | every accepted text is the canonical text of its bytes |
| Base64Url.SymbolIsInAlphabet | adapters/plenora-runtime-nats/src/metadata.rs:30-40 | each of the 64 symbols is the character at its place in the URL-safe alphabet of RFC 4648, section 5 |
| Base64Url.EncodingIsTheNumber | adapters/plenora-runtime-nats/src/metadata.rs:30-40 | read in that alphabet as a base-64 number, most significant first, the text of any bytes is their base-256 number times 1, 16 or 4, by their number modulo 3 |
| Base64Url.LengthOfEncoding | adapters/plenora-runtime-nats/src/metadata.rs:113-123 | the encoded length formula is exact |
| Base64Url.BoundIsExact | adapters/plenora-runtime-nats/src/metadata.rs:125-127 | the decoded length bound is the exact decoded length of every accepted text |
| Base64Url.LimitsAgree | adapters/plenora-runtime-nats/src/metadata.rs:14-18 | an accepted text respects the encoded limit exactly when its bytes respect the decoded one |
| Metadata.KeyIsNamespaced | crates/plenora-runtime-messaging/src/metadata.rs:205-224 | a key is accepted exactly when it is a dotted name within the length, over the alphabet, without empty segments, and otherwise refused for the first rule it breaks |
| Metadata.KeyAlphabet | crates/plenora-runtime-messaging/src/metadata.rs:205-224 | a key is written in letters, digits, dots, hyphens and underscores |
| Metadata.InsertAcceptsExactly | crates/plenora-runtime-messaging/src/metadata.rs:90-129 | insertion succeeds exactly when the resulting map is within every bound |
| Metadata.InsertErrors | crates/plenora-runtime-messaging/src/metadata.rs:90-129 | a refused entry is refused for its key, then its value, then the number of entries, then the total |
| Metadata.CountBytes | crates/plenora-runtime-messaging/src/metadata.rs:106-113 | the fold computes the total size, whatever the order |
| Metadata.TotalOfPart | crates/plenora-runtime-messaging/src/metadata.rs:106-113 | a map with fewer keys and no longer values is no larger |
| Metadata.MessageMetadata.Insert | crates/plenora-runtime-messaging/src/metadata.rs:90-129 | either the entry is in place, the displaced value returned and every bound kept, or nothing changed and the first broken rule is named |
| Metadata.MessageMetadata.Remove | crates/plenora-runtime-messaging/src/metadata.rs:169-171 | removes the entry, returns its value and keeps every bound |
| NatsHeaders.InsertHeader | adapters/plenora-runtime-nats/src/metadata.rs:129-136 | a header is added exactly when its name and value are representable; otherwise the error names the first that is not |
| NatsHeaders.Encode | adapters/plenora-runtime-nats/src/metadata.rs:20-43 | fails exactly for a content type over 128 bytes; otherwise there is one header for the content type and one per entry, named and valued by their base64url texts, and no other |
| NatsHeaders.NamesAreDistinct | adapters/plenora-runtime-nats/src/metadata.rs:12-13 | header names of different keys differ, and none is the content-type name in any case |
| NatsHeaders.Decode | adapters/plenora-runtime-nats/src/metadata.rs:45-111 | the loop with its running limits computes the decoding of the headers in the order visited |
| NatsRoundTrip.EntryIsRead | adapters/plenora-runtime-nats/src/metadata.rs:72-108 | the pre-decoding limits refuse no entry that fits, and count its exact size |
| NatsRoundTrip.EntryAcceptedExactly | adapters/plenora-runtime-nats/src/metadata.rs:72-108 | a metadata header is accepted exactly when there is room, its texts are canonical, the running total allows its exact size and the resulting map is within bounds |
| NatsRoundTrip.EntryErrors | adapters/plenora-runtime-nats/src/metadata.rs:72-108 | a refused metadata header is refused for the first rule it breaks: number of entries, key length, value length, running total, then what the texts say |
| NatsRoundTrip.ContentTypeErrors | adapters/plenora-runtime-nats/src/metadata.rs:61-71 | the content type is refused exactly when its text is too long, is no canonical base64 or is not UTF-8 |
| NatsRoundTrip.NamesAreReadInAnyCase | adapters/plenora-runtime-nats/src/metadata.rs:55-72 | a header is the content type or an entry exactly up to the case of the fixed part of its name; any other, or one without a value, is passed over |
| NatsRoundTrip.RoundTrip | adapters/plenora-runtime-nats/src/metadata.rs:20-127 | every valid metadata map and every content type of at most 128 bytes come back exactly, in any header order |
| NatsRoundTrip.AcceptedCanBeSentOn | adapters/plenora-runtime-nats/src/metadata.rs:45-111 | whatever is accepted is within bounds, can be encoded again and decodes to itself |
| Text.DecimalIsShortest | crates/plenora-runtime-capabilities/src/request.rs:133-139 | canonical decimal text is no longer than any text of the same number |
| CapabilityCodec.Encode | crates/plenora-runtime-capabilities/src/request.rs:127-159 | succeeds exactly when the headers stay within bounds after each of the five entries, and then holds them |
| CapabilityCodec.Decode | crates/plenora-runtime-capabilities/src/request.rs:161-196 | parses the five entries in order, names the first problem, and strips exactly them |
| CapabilityCodec.DecodesExactly | crates/plenora-runtime-capabilities/src/request.rs:161-196 | a message is accepted exactly when all five entries are text, both versions are positive 16-bit numbers and the identifiers are well formed; the routing is what they say |
| CapabilityCodec.DecodeErrors | crates/plenora-runtime-capabilities/src/request.rs:161-196 | a refusal names a field that breaks the rule it is refused for; identifiers are judged only once every field was found and is text |
| CapabilityCodec.NameIsNamespaced | crates/plenora-runtime-capabilities/src/identifier.rs:167-218 | a name is accepted exactly when it holds a dot, fits the length, and has letters or digits at its ends and around every dot, over the portable alphabet |
| CapabilityCodec.ContractIsMadeOfParts | crates/plenora-runtime-capabilities/src/contract.rs:132-168 | a contract identifier is accepted exactly when it is "plenora-", a lowercase name, "-v" and a number without leading zero |
| CapabilityCodec.DecodeAfterEncode | crates/plenora-runtime-capabilities/src/request.rs:127-196 | decoding an encoded request returns it with only the reserved entries stripped from its input |
| CapabilityCodec.DecodedCanBeEncoded | crates/plenora-runtime-capabilities/src/request.rs:127-196 | whatever decodes encodes again within bounds, no larger than before, and decodes to the same request |
| CapabilityCodec.ReencodesToItselfExactly | crates/plenora-runtime-capabilities/src/request.rs:127-196 | re-encoding a decoded message gives back that message exactly when both version texts are canonical |
| CapabilityCodec.EncodableExactlyWhenItFits | crates/plenora-runtime-capabilities/src/request.rs:127-159 | the finished headers alone decide whenever no reserved entry of the input is longer than its replacement, in particular when there is none |
| CapabilityCodec.EncodableExactly | crates/plenora-runtime-capabilities/src/request.rs:127-159 | encoding succeeds exactly when the missing reserved entries fit the entry limit and, after each of the five, the size of the input plus the growth so far fits the size limit |
| CapabilityCodec.FinishedHeadersDoNotAlwaysDecide | crates/plenora-runtime-capabilities/src/request.rs:127-159 | for every routing, the crowded headers are refused although the finished ones would be thousands of bytes below the limit |
| CapabilityCodec.FailingInput | crates/plenora-runtime-capabilities/src/request.rs:127-159 | one concrete request with valid headers and identifiers whose finished headers fit and which is not encoded |
| CapabilityCodec.DecimalParses | crates/plenora-runtime-capabilities/src/request.rs:163-175 | the written version text parses back to the version |
| CapabilityCodec.ParsesExactly | crates/plenora-runtime-capabilities/src/request.rs:163-175 | a version text is accepted exactly when it is the canonical number behind leading zeros and at most one plus sign, below 2^16 |
| FakeBroker.InMemoryBroker.Enqueue | crates/plenora-runtime-testkit/src/broker.rs:1061-1083 | admits a message under the payload, pending, catalog and identifier bounds |
| FakeBroker.EnqueuesExactly | crates/plenora-runtime-testkit/src/broker.rs:1061-1083 | admitted exactly within all four bounds, under the next identity, last in the queue, on its first attempt and in the catalog; otherwise nothing changes |
| FakeBroker.DuplicatesExactly | crates/plenora-runtime-testkit/src/broker.rs:347-360 | a duplicate carries the bytes of the known delivery under a new identity; an unknown one is refused |
| FakeBroker.InMemoryBroker.Publish | crates/plenora-runtime-testkit/src/broker.rs:536-563 | publishes, or consumes the next scripted publish fault and applies its effect |
| FakeBroker.PublishesExactly | crates/plenora-runtime-testkit/src/broker.rs:536-563 | one scripted fault is used up: an error, or an unknown outcome that did or did not take effect; without one the publish is confirmed; it took effect exactly when the message is enqueued and counted |
| FakeBroker.InMemoryBroker.Dequeue | crates/plenora-runtime-testkit/src/broker.rs:494-526 | the first ready delivery leaves the queue and is counted in flight |
| FakeBroker.DequeueTakesTheFirstReady | crates/plenora-runtime-testkit/src/broker.rs:508-520 | a dequeue takes the oldest ready delivery, keeps the others in order, and finds none exactly when none is ready |
| FakeBroker.InMemoryBroker.Complete | crates/plenora-runtime-testkit/src/broker.rs:565-626 | a settlement is recorded; a failed or retryable one requeues the delivery, a terminal one records it |
| FakeBroker.InMemoryBroker.Heartbeat | crates/plenora-runtime-testkit/src/broker.rs:628-661 | renews or fails without settling |
| FakeBroker.HeartbeatsExactly | crates/plenora-runtime-testkit/src/broker.rs:628-661 | renews exactly when connected without a scripted failure, and moves nothing but its own record and script |
| FakeBroker.InMemoryBroker.Abandon | crates/plenora-runtime-testkit/src/broker.rs:663-676 | a dropped delivery is recorded as a shutdown rejection and requeued |
| FakeBroker.PushBounded | crates/plenora-runtime-testkit/src/broker.rs:1051-1059 | a history keeps its newest entries, in order, up to its capacity |
| FakeBroker.Redelivery | crates/plenora-runtime-testkit/src/broker.rs:1085-1089 | the same delivery, ready at once, one attempt later, saturating |
| FakeBroker.DeliveryMetadataFits | crates/plenora-runtime-testkit/src/broker.rs:818-838 | building a delivery's own metadata never fails, so no in-flight delivery is lost before it has an owner |
| BrokerWorld.ActKeeps | crates/plenora-runtime-testkit/src/broker.rs:494-676 | every action of every client keeps the partition, the counters and the message of each delivery |
| BridgeTheorems.EveryDeliveryIsInOnePlace | crates/plenora-runtime-testkit/src/broker.rs:494-676 | in every reachable state each issued identity is in exactly one of queue, one owner, acknowledged, terminally rejected |
| BridgeTheorems.InFlightIsExactAndBounded | crates/plenora-runtime-testkit/src/broker.rs:1001-1013 | `in_flight` is the number of live deliveries, and queued plus in-flight never exceed the bound although redelivery does not check it; the catalog stays within its own |
| BridgeTheorems.HistoriesAreBounded | crates/plenora-runtime-testkit/src/broker.rs:1015-1059 | in every reachable state each history holds as many records as were made, up to its own limit, and there is one terminal record per rejected delivery |
| BridgeTheorems.DeliveriesCarryTheirMessage | crates/plenora-runtime-testkit/src/broker.rs:1085-1089 | redelivery changes only attempt and availability: each delivery carries the message it was enqueued with, within the payload bound |
| DeliveryBridge.ExecuteWithHeartbeat | adapters/plenora-runtime-apalis/src/broker.rs:671-705 | the loop ends with a lost lease exactly when the failing heartbeats before the handler is done reach the configured number in a row, else with the handler or a drop |
| DeliveryBridge.WatchInClosedForm | adapters/plenora-runtime-apalis/src/broker.rs:671-705 | from any number of failures already seen, the lease is lost exactly when the failures in a row reach the limit before the handler is done |
| DeliveryBridge.CombinedMetadata | adapters/plenora-runtime-apalis/src/broker.rs:1052-1058 | the delivery's entry joins the headers exactly when the result is within bounds |
| DeliveryBridge.SettleDelivery | adapters/plenora-runtime-apalis/src/broker.rs:616-638 | each disposition issues exactly its settlement: Acked, Nacked with the very delay asked for, Permanent, Shutdown, Permanent for a confirmed dead letter, or drops the delivery; it is taken exactly when connected without a scripted failure, and the newest acknowledgement record says what it came to |
| DeliveryBridge.PublishDeadLetter | adapters/plenora-runtime-apalis/src/broker.rs:645-668 | only a confirmed dead letter is rejected for good; without a sink or a confirmation the delivery is dropped and requeued |
| DeliveryBridge.Execute | adapters/plenora-runtime-apalis/src/broker.rs:574-610 | alone on the broker: what is rejected unseen, a lost lease and each decision of the worker get their own settlement; the delivery leaves for good exactly for a final cause whose settlement was accepted, else it is requeued one attempt later; one acknowledgement record is made and says so |
| DeliveryBridge.Settle | adapters/plenora-runtime-apalis/src/broker.rs:1064-1106 | the settlement is taken exactly when the broker is connected and no fault is scripted for it, and is recorded as taken or as failed |
| BridgeRuns.StepKeeps | adapters/plenora-runtime-apalis/src/broker.rs:574-705 | every step of interleaved bridge runs keeps ownership, and every ending's event tells the delivery's fate |
| BridgeTheorems.FateOfADelivery | adapters/plenora-runtime-apalis/src/broker.rs:574-668 | over all interleavings a delivery leaves for good exactly when its run ended for a final cause and the broker took the settlement; otherwise it is back in the queue with attempt + 1, saturating; the newest record is that settlement, its failure, or the drop |
| BridgeTheorems.EndingsAreExplained | adapters/plenora-runtime-apalis/src/broker.rs:574-705 | a run ends for a cause only if the matching thing happened to it (handler result, undecodable message, oversized metadata, lost lease, sink answer or drop), and carries the settlement that calls for, the handler's own delay included |
| BridgeTheorems.LeaseIsLostExactly | adapters/plenora-runtime-apalis/src/broker.rs:684-702 | over all interleavings, a heartbeat ends the lease exactly when it completes the configured number of failures in a row, counted over the heartbeats of that delivery since its handler started |
| BridgeTheorems.LostLeasesMissedTheirBeats | adapters/plenora-runtime-apalis/src/broker.rs:684-702 | every run that ended for a lost lease had missed that many heartbeats in a row |
| BridgeTheorems.NoDeliveryEndsTwice | crates/plenora-runtime-testkit/src/broker.rs:928-952 | an owned delivery is settled or dropped at most once |
| Subprocess.Invocation.Run | crates/plenora-runtime-subprocess/src/supervisor.rs:192-313 | no signal after the leader was reaped or a wait failed; terminate, then its grace, before kill, and kill before the child alone; every tree failure counted; an error lacks the containment flag exactly when the leader was reaped and no tree failure recorded; a report says exactly whether containment degraded; an abandoned tree is signalled or on record; the report, the error kind and every counter follow from the first reason to stop on record, or from a cancellation in the queue |
| Subprocess.Invocation.CleanUp | crates/plenora-runtime-subprocess/src/supervisor.rs:271-301 | only a confirmed reap disarms the guard and counts the child |
| Subprocess.Invocation.Supervise | crates/plenora-runtime-subprocess/src/supervisor.rs:319-402 | ends with a reaped leader exactly when it returns a termination: Cancelled after a cancellation, TimedOut after the deadline, MemoryExceeded with the sample over the limit, exited after the child's own exit or a failed sample of a child that was gone; failures likewise; nothing is waited for or sampled after the first reason to stop; a stopped isolated tree was signalled or its failure recorded |
| Subprocess.FirstCauseIsFirst | crates/plenora-runtime-subprocess/src/supervisor.rs:342-400 | the reason to stop stands on a record, and on no earlier one |
| Subprocess.Invocation.TerminateAndReap | crates/plenora-runtime-subprocess/src/supervisor.rs:496-580 | succeeds exactly when the leader is reaped, and then an isolated tree was reached by a delivered signal or is on record as degraded |
| Subprocess.Invocation.SignalTree | crates/plenora-runtime-subprocess/src/supervisor.rs:515-541 | a tree signal is composed only while the identifier is pinned |
| Subprocess.Invocation.PollReaped | crates/plenora-runtime-subprocess/src/supervisor.rs:770-778 | a poll reaps, finds the child running, or unpins the identifier |
| Subprocess.Invocation.DropGuard | crates/plenora-runtime-subprocess/src/supervisor.rs:628-643 | an armed guard signals the tree exactly while its identifier is pinned and known, and records a signal it could not deliver |
| Subprocess.Appended | crates/plenora-runtime-subprocess/src/supervisor.rs:758-764 | a signal may be added to a history exactly when nothing was reaped and no wait failed |
| ActiveTasks.ProbeIsCyclic | crates/plenora-runtime-worker/src/active.rs:149-161 | probing walks the nonzero 64-bit identifiers in one cycle |
| ActiveTasks.SomeProbeIsFree | crates/plenora-runtime-worker/src/active.rs:149-161 | among `tasks.len() + 1` probes one is free |
| ActiveTasks.ActiveTaskRegistry.AllocateTaskId | crates/plenora-runtime-worker/src/active.rs:149-161 | returns the first free nonzero identifier in cyclic order within that many probes |
| ActiveTasks.ActiveTaskRegistry.Register | crates/plenora-runtime-worker/src/active.rs:101-135 | refuses for capacity only, never for identifiers, and no other live guard holds the identifier |
| ActiveTasks.ActiveTaskRegistry.DropGuard | crates/plenora-runtime-worker/src/active.rs:163-172 | removes exactly the guard's own task |
| RetryBackoff.DelayForAttempt | crates/plenora-runtime-messaging/src/retry.rs:161-181 | the loop computes min(max, initial * multiplier^(attempt - 1)) over unbounded integers, then jitter |
| RetryBackoff.ApplyJitter | crates/plenora-runtime-messaging/src/retry.rs:260-274 | the delay stays within the nominal delay less the configured share of it |
| RetryBackoff.UnboundedGrows | crates/plenora-runtime-messaging/src/retry.rs:170-178 | leaving the loop at the limit is final |
| RetryBackoff.RetriesExactlyWhen | crates/plenora-runtime-messaging/src/retry.rs:190-222 | a failure is retried exactly when its class allows it, an attempt is left and the wait ends within the elapsed limit; otherwise it is declined or dead-lettered by its class, or as configured when exhausted |
| RetryBackoff.RetriesAreBounded | crates/plenora-runtime-messaging/src/retry.rs:190-222 | a retry run from the first attempt gets fewer than `max_attempts` retries, totalling at most `max_elapsed`, none longer than `max_delay` |
| MemoryPressure.MonitorIsItsHistory | crates/plenora-runtime-resources/src/monitor.rs:207-311 | for every history the counters and the state are a function of the history alone |
| MemoryPressure.RecoveryNeedsTheFullRun | crates/plenora-runtime-resources/src/monitor.rs:289-304 | a degraded monitor returns to Normal exactly on a full trailing run at or below resume |
| MemoryPressure.PressureNeedsTheFullRun | crates/plenora-runtime-resources/src/monitor.rs:280-287 | a full trailing run in the soft range gives Pressured, and only that enters it |
| MemoryPressure.DegradesAtOnce | crates/plenora-runtime-resources/src/monitor.rs:269-311 | one sample at the hard limit gives Critical and one failure Unavailable, and nothing else does; the first sample below the soft limit gives Normal |
| MemoryPressure.LastVerdictStands | crates/plenora-runtime-resources/src/monitor.rs:269-311 | the last decisive sample determines the state |
| MemoryPressure.MemoryPressureMonitor.NextState | crates/plenora-runtime-resources/src/monitor.rs:269-311 | updates the streaks and returns the next state |
| MemoryPressure.MemoryPressureMonitor.ApplySample | crates/plenora-runtime-resources/src/monitor.rs:207-229 | after every sample the monitor equals its history and the last admission call is a resume exactly in Normal |
| MemoryPressure.MemoryPressureMonitor.ApplyUnavailable | crates/plenora-runtime-resources/src/monitor.rs:231-259 | a failed sample fails closed |

## Left out

- Cron parsing, time zones and the range of system time: a plan is an arbitrary partial function and time an integer.
- Manual schedule triggers: they do not touch the cursor.
- Report counters of a tick and of the broker histories are unbounded; their saturation at the machine word is not modelled.
- Mutex poisoning, Tokio timers and wake-ups: lock-held sections are atomic steps and timers fire at any moment.
- Concurrent calls to one memory monitor: `apply_external_state` runs outside the state lock, so the last admission call is stated for one caller at a time.
- Relay stores other than the in-memory one, and the inbox and idempotency stores.
- What the NATS client library accepts as a header name or value is modelled as visible ASCII without a colon, and text on one line; the library is not part of this model.
- Which rule a rejected capability, operation or contract identifier broke: only acceptance is modelled.
- Worker admission, lifecycle observers and instance heartbeats around the bridge: a handler execution is an arbitrary disposition.
- The order in which subprocesses compete for permits, and output capture: the wait for a permit ends as its parameter says.
- The platform helpers that deliver signals and `kill_on_drop`: a signal is delivered or not, as the operating system answers.
- Cancellation tokens and message-wide cancellation of active tasks.
- The final conversion of jittered nanoseconds to a duration: the value never exceeds the nominal delay, which is representable.
- NATS connections, HTTP routers, Apalis wiring, discovery documents, configuration validators and Debug or Display text: plumbing without a hard property.
