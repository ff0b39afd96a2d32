// One supervised child process: wait, terminate and reap it against an operating system that may
// answer anything, with the future that supervises it dropped at any await.
module Subprocess {
  import opened Prelude

  // What a wait on the child reports. Pending is a wait that is still running: for a bounded wait
  // its deadline passed.
  datatype WaitReply = Exited | WaitError | Pending

  datatype Wake = CancelRequested | DeadlinePassed | ChildReady | MemoryTick

  // One answer of the operating system or the runtime; each operation reads the part it needs.
  // Dropping only matters where the supervisor awaits.
  datatype Reply = Reply(dropped: bool, wait: WaitReply, delivered: bool, wake: Wake, sample: Option<nat>)

  datatype SignalKind = Terminate | Kill | DirectKill | AbandonedKill

  datatype Act =
    | Woke(wake: Wake, wait: WaitReply)
    | Sampled(sample: Option<nat>)
    | Signal(kind: SignalKind, delivered: bool)
    | Reaped
    | WaitFailed
    | Overdue
    | TreeFailure

  datatype CancellationPhase = Queued | Running

  datatype Termination =
    | ExitedAlone
    | Cancelled(phase: CancellationPhase)
    | TimedOut
    | MemoryExceeded(observed: nat, limit: nat)

  datatype ErrorKind = SpawnFailed | WaitBroken | SampleFailed | TerminationFailed

  datatype Reap = Status | NotReaped | ReapDropped

  datatype Supervised = Ended(termination: Termination) | Failed(kind: ErrorKind) | SupervisionDropped

  datatype RunResult =
    | Report(termination: Termination, treeDegraded: bool)
    | Failure(kind: ErrorKind, containmentFailed: bool)
    | RunDropped

  // How the wait for a process slot ended.
  datatype Admission = Admitted | CancelledInQueue | QueueClosed | DroppedInQueue

  // ---------------------------------------------------------------- why supervision stops

  datatype Cause =
    | CancelAsked
    | TimeUp
    | ChildGone
    | WaitLost
    | SampleLost
    | OverLimit(observed: nat, limit: nat)

  // What a record says by itself: most wakes and samples are no reason to stop.
  function CauseOf(act: Act, limit: Option<nat>): Option<Cause> {
    match act
    case Woke(CancelRequested, _) => Some(CancelAsked)
    case Woke(DeadlinePassed, _) => Some(TimeUp)
    case Woke(ChildReady, Exited) => Some(ChildGone)
    case Woke(ChildReady, WaitError) => Some(WaitLost)
    case Sampled(None) => Some(SampleLost)
    case Sampled(Some(observed)) =>
      if limit.Some? && observed > limit.value then Some(OverLimit(observed, limit.value)) else None
    case _ => None
  }

  // The first reason to stop in a history.
  function FirstCause(log: seq<Act>, limit: Option<nat>): Option<Cause> {
    if log == [] then None
    else
      OrElse(FirstCause(log[..|log| - 1], limit), CauseOf(log[|log| - 1], limit))
  }

  function OrElse(first: Option<Cause>, second: Option<Cause>): Option<Cause> {
    if first.Some? then first else second
  }

  // It stands on some record, and on no earlier one.
  lemma {:induction false} FirstCauseIsFirst(log: seq<Act>, limit: Option<nat>)
    ensures FirstCause(log, limit).None? <==> forall i :: 0 <= i < |log| ==> CauseOf(log[i], limit).None?
    ensures FirstCause(log, limit).Some? ==> exists i ::
      && 0 <= i < |log| && CauseOf(log[i], limit) == FirstCause(log, limit)
      && forall j :: 0 <= j < i ==> CauseOf(log[j], limit).None?
  {
    if log != [] {
      var front := log[..|log| - 1];
      FirstCauseIsFirst(front, limit);
      if FirstCause(front, limit).Some? {
        var i :| 0 <= i < |front| && CauseOf(front[i], limit) == FirstCause(front, limit)
          && forall j :: 0 <= j < i ==> CauseOf(front[j], limit).None?;
        assert CauseOf(log[i], limit) == FirstCause(log, limit);
        assert forall j :: 0 <= j < i ==> log[j] == front[j];
      } else {
        assert forall j :: 0 <= j < |front| ==> log[j] == front[j];
        assert CauseOf(log[|log| - 1], limit) == FirstCause(log, limit);
      }
    }
  }

  // The last wake or sample of a history.
  function LastStimulus(log: seq<Act>): Option<Act> {
    if log == [] then None
    else if log[|log| - 1].Woke? || log[|log| - 1].Sampled? then Some(log[|log| - 1])
    else LastStimulus(log[..|log| - 1])
  }

  // Nothing is waited for or sampled once there is a reason to stop: the first one is the last record
  // of its kind.
  ghost predicate StopsAtOnce(log: seq<Act>, limit: Option<nat>) {
    FirstCause(log, limit).Some? ==>
      LastStimulus(log).Some? && CauseOf(LastStimulus(log).value, limit) == FirstCause(log, limit)
  }

  // The log grew by records that are no wakes and no samples.
  ghost predicate Quiet(before: seq<Act>, after: seq<Act>) {
    before <= after && forall i :: |before| <= i < |after| ==> !after[i].Woke? && !after[i].Sampled?
  }

  lemma {:induction false} QuietKeepsCause(before: seq<Act>, after: seq<Act>, limit: Option<nat>)
    requires Quiet(before, after)
    ensures FirstCause(after, limit) == FirstCause(before, limit) && LastStimulus(after) == LastStimulus(before)
    ensures StopsAtOnce(after, limit) <==> StopsAtOnce(before, limit)
    decreases |after|
  {
    if |before| < |after| {
      QuietKeepsCause(before, after[..|after| - 1], limit);
    } else {
      assert before == after;
    }
  }

  lemma QuietItself(log: seq<Act>)
    ensures Quiet(log, log)
  {
  }

  lemma QuietTrans(a: seq<Act>, b: seq<Act>, c: seq<Act>)
    requires Quiet(a, b) && Quiet(b, c)
    ensures Quiet(a, c)
  {
  }

  // What supervision answers, given why it stopped. Stopping the child can itself fail; a child that
  // is found gone after a failed sample has simply exited.
  ghost predicate Answers(r: Supervised, cause: Option<Cause>) {
    match r
    case SupervisionDropped => true
    case Ended(termination) =>
      && cause.Some?
      && (match cause.value
          case CancelAsked => termination == Cancelled(Running)
          case TimeUp => termination == TimedOut
          case OverLimit(observed, limit) => termination == MemoryExceeded(observed, limit)
          case ChildGone | SampleLost => termination == ExitedAlone
          case WaitLost => false)
    case Failed(kind) =>
      match cause
      case None => kind == SpawnFailed
      case Some(CancelAsked) | Some(TimeUp) | Some(OverLimit(_, _)) => kind == TerminationFailed
      case Some(WaitLost) => kind == WaitBroken
      case Some(SampleLost) => kind == SampleFailed
      case Some(ChildGone) => false
  }

  function One(condition: bool): nat {
    if condition then 1 else 0
  }

  // ---------------------------------------------------------------- what a history may contain

  // No signal of any kind after the leader was reaped or a wait on it failed.
  ghost predicate SignalsArePinned(log: seq<Act>) {
    forall i, j :: 0 <= i < j < |log| && log[j].Signal? ==> log[i] != Reaped && log[i] != WaitFailed
  }

  predicate HasSent(log: seq<Act>, kind: SignalKind) {
    Signal(kind, true) in log || Signal(kind, false) in log
  }

  // The tree was last asked to terminate by a signal that was delivered, and its grace is not over.
  function GraceIsOpen(log: seq<Act>): bool {
    if log == [] then false
    else
      match log[|log| - 1]
      case Signal(Terminate, delivered) => delivered
      case Overdue => false
      case _ => GraceIsOpen(log[..|log| - 1])
  }

  predicate MayKill(log: seq<Act>) {
    HasSent(log, Terminate) && !GraceIsOpen(log)
  }

  // The tree is killed only after it was asked to terminate and given its grace, and the child alone
  // only after the tree was killed. The memory is sampled only on a memory tick.
  ghost predicate Orderly(log: seq<Act>) {
    forall i :: 0 <= i < |log| ==> Follows(log[..i], log[i])
  }

  predicate Follows(log: seq<Act>, act: Act) {
    && (act.Signal? && act.kind == Kill ==> MayKill(log))
    && (act.Signal? && act.kind == DirectKill ==> HasSent(log, Kill))
    && (act.Sampled? ==> log != [] && log[|log| - 1].Woke? && log[|log| - 1].wake == MemoryTick)
  }

  lemma OrderAppended(log: seq<Act>, act: Act)
    requires Orderly(log) && Follows(log, act)
    ensures Orderly(log + [act])
  {
    var after := log + [act];
    forall i | 0 <= i < |after| ensures after[..i] == if i < |log| then log[..i] else log {
    }
  }

  predicate ReachesTree(act: Act) {
    act.Signal? && act.delivered && (act.kind == Terminate || act.kind == Kill)
  }

  // Some signal to the tree was delivered.
  ghost predicate TreeSignalled(log: seq<Act>) {
    exists i :: 0 <= i < |log| && ReachesTree(log[i])
  }

  function CountTreeFailures(log: seq<Act>): nat {
    if log == [] then 0 else CountTreeFailures(log[..|log| - 1]) + if log[|log| - 1] == TreeFailure then 1 else 0
  }

  lemma {:induction false} NoFailureCounted(log: seq<Act>)
    ensures CountTreeFailures(log) == 0 <==> TreeFailure !in log
  {
    if log != [] {
      NoFailureCounted(log[..|log| - 1]);
      assert log == log[..|log| - 1] + [log[|log| - 1]];
    }
  }

  lemma Appended(log: seq<Act>, act: Act)
    ensures CountTreeFailures(log + [act]) == CountTreeFailures(log) + if act == TreeFailure then 1 else 0
    ensures SignalsArePinned(log + [act]) <==>
            SignalsArePinned(log) && (act.Signal? ==> Reaped !in log && WaitFailed !in log)
    ensures TreeSignalled(log) ==> TreeSignalled(log + [act])
    ensures ReachesTree(act) ==> TreeSignalled(log + [act])
    ensures LastStimulus(log + [act]) == if act.Woke? || act.Sampled? then Some(act) else LastStimulus(log)
    ensures forall limit :: FirstCause(log + [act], limit) == OrElse(FirstCause(log, limit), CauseOf(act, limit))
  {
    var after := log + [act];
    assert after[..|log|] == log;
    if TreeSignalled(log) {
      var i :| 0 <= i < |log| && ReachesTree(log[i]);
      assert after[i] == log[i];
    }
    assert after[|log|] == act;
    if SignalsArePinned(after) {
      assert forall i :: 0 <= i < |log| ==> after[i] == log[i];
    }
  }

  class Invocation {
    const isolated: bool                // the child leads its own process tree
    const identified: bool              // the child exposes an identifier
    const memoryLimit: Option<nat>
    var script: seq<Reply>
    var log: seq<Act>
    var pinned: bool
    var armed: bool
    var degraded: bool
    // counters shared by all invocations of one supervisor
    var treeFailures: nat
    var completed: nat
    var started: nat
    var spawnFailures: nat
    var cancellations: nat
    var timeouts: nat
    var memoryTerminations: nat
    ghost const failuresBefore: nat

    // What the history says of the signals and the counters.
    ghost predicate Sound()
      reads this
    {
      && SignalsArePinned(log) && Orderly(log) && (degraded <==> TreeFailure in log)
      && treeFailures == failuresBefore + CountTreeFailures(log)
    }

    // What holds between any two steps of a spawned invocation: the identifier counts as pinned
    // exactly as long as no wait has failed.
    ghost predicate Valid()
      reads this
    {
      Sound() && (pinned <==> WaitFailed !in log)
    }

    ghost predicate Unreaped()
      reads this
    {
      Valid() && Reaped !in log && (armed <==> isolated)
    }

    // An isolated tree was reached by a signal, or the failure to reach it is on record.
    ghost predicate Contained()
      reads this
    {
      isolated ==> degraded || TreeSignalled(log)
    }

    constructor (isolated: bool, identified: bool, memoryLimit: Option<nat>, script: seq<Reply>,
                 treeFailures: nat, completed: nat, started: nat, spawnFailures: nat,
                 cancellations: nat, timeouts: nat, memoryTerminations: nat)
      ensures this.isolated == isolated && this.identified == identified && this.memoryLimit == memoryLimit
      ensures this.script == script && log == [] && pinned && armed == isolated && !degraded
      ensures this.treeFailures == failuresBefore == treeFailures && this.completed == completed
      ensures this.started == started && this.spawnFailures == spawnFailures
      ensures this.cancellations == cancellations && this.timeouts == timeouts
      ensures this.memoryTerminations == memoryTerminations
    {
      this.isolated, this.identified, this.memoryLimit := isolated, identified, memoryLimit;
      this.script, log, pinned, armed, degraded := script, [], true, isolated, false;
      this.treeFailures, this.completed, failuresBefore := treeFailures, completed, treeFailures;
      this.started, this.spawnFailures := started, spawnFailures;
      this.cancellations, this.timeouts := cancellations, timeouts;
      this.memoryTerminations := memoryTerminations;
    }

    // The next answer. When the script is exhausted the future is dropped at its next await.
    method Take() returns (r: Reply)
      modifies this`script
      ensures |script| <= |old(script)| && (!r.dropped ==> |script| < |old(script)|)
    {
      if script == [] { return Reply(true, Pending, false, ChildReady, None); }
      r := script[0];
      script := script[1..];
    }

    // A wait or poll on the child: what the operating system answered goes on record.
    method Observe(wait: WaitReply)
      requires Unreaped()
      modifies this`log
      ensures Sound()
      ensures log == old(log) + (if wait.Exited? then [Reaped] else if wait.WaitError? then [WaitFailed] else [])
      ensures FirstCause(log, memoryLimit) == FirstCause(old(log), memoryLimit)
      ensures LastStimulus(log) == LastStimulus(old(log))
      ensures old(Contained()) ==> Contained()
    {
      hide CountTreeFailures, SignalsArePinned, TreeSignalled, Orderly, FirstCause, LastStimulus;
      Appended(log, Reaped);
      OrderAppended(log, Reaped);
      Appended(log, WaitFailed);
      OrderAppended(log, WaitFailed);
      if wait.Exited? { log := log + [Reaped]; }
      if wait.WaitError? { log := log + [WaitFailed]; }
    }

    // The supervisor wakes up, or reads the memory of the child: that goes on record too.
    method Note(act: Act)
      requires Unreaped() && (act.Woke? || act.Sampled?) && Follows(log, act)
      modifies this`log
      ensures Unreaped() && log == old(log) + [act] && LastStimulus(log) == Some(act)
      ensures FirstCause(log, memoryLimit) == OrElse(FirstCause(old(log), memoryLimit), CauseOf(act, memoryLimit))
      ensures old(Contained()) ==> Contained()
    {
      hide CountTreeFailures, SignalsArePinned, TreeSignalled, Orderly, FirstCause, LastStimulus;
      Appended(log, act);
      OrderAppended(log, act);
      log := log + [act];
    }

    method Degrade()
      requires Valid()
      modifies this`log, this`degraded, this`treeFailures
      ensures Valid() && degraded && log == old(log) + [TreeFailure]
    {
      hide CountTreeFailures, SignalsArePinned, TreeSignalled, Orderly, FirstCause, LastStimulus;
      Appended(log, TreeFailure);
      OrderAppended(log, TreeFailure);
      log := log + [TreeFailure];
      degraded := true;
      treeFailures := treeFailures + 1;
    }

    // A signal may only be composed while the identifier is pinned.
    method Send(kind: SignalKind, delivered: bool)
      requires Unreaped() && pinned
      requires Follows(log, Signal(kind, delivered))
      modifies this`log
      ensures Unreaped() && log == old(log) + [Signal(kind, delivered)]
      ensures delivered && (kind == Terminate || kind == Kill) ==> TreeSignalled(log)
    {
      hide CountTreeFailures, SignalsArePinned, TreeSignalled, Orderly, FirstCause, LastStimulus, MayKill;
      Appended(log, Signal(kind, delivered));
      OrderAppended(log, Signal(kind, delivered));
      log := log + [Signal(kind, delivered)];
    }

    // Polls the child without waiting.
    method PollReaped() returns (reaped: bool)
      requires Unreaped()
      modifies this`script, this`log, this`pinned
      ensures Valid() && (reaped <==> Reaped in log) && (armed <==> isolated)
      ensures |script| <= |old(script)|
      ensures Quiet(old(log), log) && (pinned ==> old(pinned)) && (old(Contained()) ==> Contained())
      ensures FirstCause(log, memoryLimit) == FirstCause(old(log), memoryLimit)
      ensures LastStimulus(log) == LastStimulus(old(log))
    {
      hide CountTreeFailures, SignalsArePinned, TreeSignalled, Orderly, FirstCause, LastStimulus;
      var reply := Take();
      Observe(reply.wait);
      if reply.wait == WaitError { pinned := false; }
      return reply.wait == Exited;
    }

    // Waits for the child under a deadline.
    method BoundedWait() returns (r: Option<WaitReply>)
      requires Unreaped()
      modifies this`script, this`log, this`pinned
      ensures Valid() && (armed <==> isolated) && Quiet(old(log), log)
      ensures r == Some(Exited) <==> Reaped in log
      ensures r == Some(WaitError) ==> !pinned
      ensures r == Some(Pending) ==> !GraceIsOpen(log)
      ensures HasSent(old(log), Terminate) ==> HasSent(log, Terminate)
      ensures old(Contained()) ==> Contained()
      ensures |script| <= |old(script)|
    {
      hide CountTreeFailures, SignalsArePinned, TreeSignalled, Orderly, FirstCause, LastStimulus;
      var reply := Take();
      if reply.dropped { return None; }
      Observe(reply.wait);
      if reply.wait == WaitError { pinned := false; }
      if reply.wait == Pending {
        // the deadline of the wait has passed
        Appended(log, Overdue);
        OrderAppended(log, Overdue);
        log := log + [Overdue];
      }
      return Some(reply.wait);
    }

    // Sends one tree signal if the identifier is still pinned. None: the future was dropped.
    method SignalTree(kind: SignalKind) returns (delivered: Option<bool>)
      requires Unreaped() && (kind == Terminate || kind == Kill)
      requires kind == Kill && pinned && identified ==> MayKill(log)
      modifies this`script, this`log
      ensures Unreaped() && Quiet(old(log), log)
      ensures delivered == Some(true) ==> TreeSignalled(log)
      ensures pinned && identified ==> HasSent(log, kind)
      ensures kind == Terminate && pinned && identified && delivered.Some? ==> GraceIsOpen(log) == delivered.value
      ensures TreeFailure in log <==> TreeFailure in old(log)
      ensures |script| <= |old(script)|
    {
      hide CountTreeFailures, SignalsArePinned, TreeSignalled, Orderly, FirstCause, LastStimulus;
      if !(pinned && identified) { return Some(false); }
      var reply := Take();
      var ok := reply.delivered && !reply.dropped;
      Appended(log, Signal(kind, ok));
      OrderAppended(log, Signal(kind, ok));
      Send(kind, ok);
      if reply.dropped { return None; }
      return Some(ok);
    }

    // Terminates the tree, gracefully first, and reaps the leader. An isolated tree whose leader was
    // reaped without a degradation being recorded was reached by a delivered tree signal.
    method TerminateAndReap() returns (r: Reap)
      requires Unreaped()
      modifies this`script, this`log, this`pinned, this`degraded, this`treeFailures
      ensures Valid() && (armed <==> isolated) && Quiet(old(log), log)
      ensures r == Status <==> Reaped in log
      ensures r == Status ==> Contained()
      ensures |script| <= |old(script)|
    {
      hide CountTreeFailures, SignalsArePinned, TreeSignalled, Orderly, FirstCause, LastStimulus;
      var reaped := PollReaped();
      if reaped {
        // gone before any signal: nothing proves its descendants ended with it
        if isolated { Degrade(); }
        return Status;
      }
      var graceful := SignalTree(Terminate);
      if graceful.None? { return ReapDropped; }
      if graceful.value {
        var waited := BoundedWait();
        if waited.None? { return ReapDropped; }
        if waited.value == Exited { return Status; }
      }
      r := ForceAndReap();
    }

    // The forced path: kill the tree, then the direct child, then wait under the last deadline.
    method ForceAndReap() returns (r: Reap)
      requires Unreaped() && (pinned && identified ==> MayKill(log))
      modifies this`script, this`log, this`pinned, this`degraded, this`treeFailures
      ensures Valid() && (armed <==> isolated) && Quiet(old(log), log)
      ensures r == Status <==> Reaped in log
      ensures r == Status ==> Contained()
      ensures |script| <= |old(script)|
    {
      hide FirstCause, SignalsArePinned, CountTreeFailures, Orderly;
      var forced := SignalTree(Kill);
      if forced.None? { return ReapDropped; }
      if !forced.value && isolated { Degrade(); }
      assert Contained();
      hide TreeSignalled, CountTreeFailures;
      r := KillDirectly();
    }

    method KillDirectly() returns (r: Reap)
      requires Unreaped() && Contained() && (pinned && identified ==> HasSent(log, Kill))
      modifies this`script, this`log, this`pinned
      ensures Valid() && (armed <==> isolated) && Quiet(old(log), log)
      ensures r == Status <==> Reaped in log
      ensures Contained()
      ensures |script| <= |old(script)|
    {
      hide CountTreeFailures, SignalsArePinned, TreeSignalled, Orderly, FirstCause, LastStimulus;
      var reaped := PollReaped();
      if reaped { return Status; }
      if pinned && identified {
        var reply := Take();
        Appended(log, Signal(DirectKill, reply.delivered));
        OrderAppended(log, Signal(DirectKill, reply.delivered));
        Send(DirectKill, reply.delivered);
        if !reply.delivered {
          reaped := PollReaped();
          return if reaped then Status else NotReaped;
        }
      }
      var waited := BoundedWait();
      if waited.None? { return ReapDropped; }
      return if waited.value == Exited then Status else NotReaped;
    }

    // ---------------------------------------------------------------- supervision

    // Each reason to stop is counted once, even if stopping is cut short.
    ghost predicate Counts(cancelled: nat, timedOut: nat, overLimit: nat)
      reads this
    {
      var cause := FirstCause(log, memoryLimit);
      && cancellations == cancelled + One(cause == Some(CancelAsked))
      && timeouts == timedOut + One(cause == Some(TimeUp))
      && memoryTerminations == overLimit + One(cause.Some? && cause.value.OverLimit?)
    }

    // Supervision is over: the first wake or sample on record that is a reason to stop fixes what it
    // answers, and every failure leaves the child owned by the caller.
    ghost predicate Over(r: Supervised)
      reads this
    {
      && Valid() && (armed <==> isolated) && (r.Ended? <==> Reaped in log)
      && (r.Ended? && r.termination != ExitedAlone ==> Contained())
      && Answers(r, FirstCause(log, memoryLimit)) && (r == Failed(SpawnFailed) <==> !identified)
      && StopsAtOnce(log, memoryLimit)
    }

    ghost predicate Undecided()
      reads this
    {
      Unreaped() && identified && FirstCause(log, memoryLimit).None?
    }

    // Drives the child until a terminal classification, a failure or a drop.
    method Supervise() returns (r: Supervised)
      requires Unreaped() && FirstCause(log, memoryLimit).None?
      modifies this`script, this`log, this`pinned, this`degraded, this`treeFailures
      modifies this`cancellations, this`timeouts, this`memoryTerminations
      ensures Over(r) && Counts(old(cancellations), old(timeouts), old(memoryTerminations))
    {
      hide CountTreeFailures, SignalsArePinned, TreeSignalled, Orderly, FirstCause, LastStimulus;
      if !identified { return Failed(SpawnFailed); }
      while true
        invariant Undecided() && Counts(old(cancellations), old(timeouts), old(memoryTerminations))
        decreases |script|
      {
        var reply := Take();
        if reply.dropped { return SupervisionDropped; }
        var over := React(reply, old(cancellations), old(timeouts), old(memoryTerminations));
        if over.Some? { return over.value; }
      }
    }

    // One wake of the supervisor.
    method React(reply: Reply, ghost c: nat, ghost t: nat, ghost m: nat) returns (r: Option<Supervised>)
      requires Undecided() && Counts(c, t, m)
      modifies this`script, this`log, this`pinned, this`degraded, this`treeFailures
      modifies this`cancellations, this`timeouts, this`memoryTerminations
      ensures |script| <= |old(script)|
      ensures (if r.Some? then Over(r.value) else Undecided()) && Counts(c, t, m)
    {
      hide CountTreeFailures, SignalsArePinned, TreeSignalled, Orderly, FirstCause, LastStimulus;
      Note(Woke(reply.wake, reply.wait));
      match reply.wake {
        case CancelRequested =>
          cancellations := cancellations + 1;
          var stopped := Stop(Cancelled(Running));
          return Some(stopped);
        case DeadlinePassed =>
          timeouts := timeouts + 1;
          var stopped := Stop(TimedOut);
          return Some(stopped);
        case ChildReady =>
          r := CheckChild(reply.wait, c, t, m);
        case MemoryTick =>
          r := CheckMemory(c, t, m);
      }
    }

    // The wait for the child came back.
    method CheckChild(wait: WaitReply, ghost c: nat, ghost t: nat, ghost m: nat) returns (r: Option<Supervised>)
      requires Unreaped() && identified && Counts(c, t, m)
      requires LastStimulus(log) == Some(Woke(ChildReady, wait))
      requires FirstCause(log, memoryLimit) == CauseOf(Woke(ChildReady, wait), memoryLimit)
      modifies this`log, this`pinned
      ensures (if r.Some? then Over(r.value) else Undecided()) && Counts(c, t, m)
    {
      hide CountTreeFailures, SignalsArePinned, TreeSignalled, Orderly, FirstCause, LastStimulus;
      Observe(wait);
      if wait == Exited { return Some(Ended(ExitedAlone)); }
      if wait == WaitError {
        pinned := false;
        return Some(Failed(WaitBroken));
      }
      return None;
    }

    // A memory tick: an ordinary exit must not be reported as a sampling failure.
    method CheckMemory(ghost c: nat, ghost t: nat, ghost m: nat) returns (r: Option<Supervised>)
      requires Undecided() && Counts(c, t, m)
      requires log != [] && log[|log| - 1].Woke? && log[|log| - 1].wake == MemoryTick
      modifies this`script, this`log, this`pinned, this`degraded, this`treeFailures, this`memoryTerminations
      ensures |script| <= |old(script)|
      ensures (if r.Some? then Over(r.value) else Undecided()) && Counts(c, t, m)
    {
      hide CountTreeFailures, SignalsArePinned, TreeSignalled, Orderly, FirstCause, LastStimulus;
      if memoryLimit.None? { return None; }
      var reply := Take();
      if reply.dropped { return Some(SupervisionDropped); }
      Note(Sampled(reply.sample));
      if reply.sample.None? {
        var reaped := PollReaped();
        return Some(if reaped then Ended(ExitedAlone) else Failed(SampleFailed));
      }
      if reply.sample.value > memoryLimit.value {
        memoryTerminations := memoryTerminations + 1;
        var stopped := Stop(MemoryExceeded(reply.sample.value, memoryLimit.value));
        return Some(stopped);
      }
      return None;
    }

    method Stop(termination: Termination) returns (r: Supervised)
      requires Unreaped()
      modifies this`script, this`log, this`pinned, this`degraded, this`treeFailures
      ensures Valid() && (armed <==> isolated)
      ensures r.Ended? <==> Reaped in log
      ensures r.Ended? ==> r.termination == termination && Contained()
      ensures r.Failed? ==> r.kind == TerminationFailed
      ensures |script| <= |old(script)|
      ensures FirstCause(log, memoryLimit) == FirstCause(old(log), memoryLimit)
      ensures LastStimulus(log) == LastStimulus(old(log))
    {
      hide CountTreeFailures, SignalsArePinned, TreeSignalled, Orderly, FirstCause, LastStimulus;
      var stopped := TerminateAndReap();
      QuietKeepsCause(old(log), log, memoryLimit);
      match stopped
      case Status => return Ended(termination);
      case NotReaped => return Failed(TerminationFailed);
      case ReapDropped => return SupervisionDropped;
    }

    // ---------------------------------------------------------------- the run

    // What is on record when the guard has been dropped, however the run ended.
    ghost predicate Final()
      reads this
    {
      SignalsArePinned(log) && Orderly(log) && treeFailures == failuresBefore + CountTreeFailures(log)
    }

    // An isolated tree whose leader was not reaped is signalled as long as its identifier is known to
    // be its own; when that fails or may not be tried, the failure is on record.
    ghost predicate Abandoned()
      reads this
    {
      isolated && Reaped !in log ==>
        && log != [] && log[|log| - 1] in {Signal(AbandonedKill, true), TreeFailure}
        && (identified && WaitFailed !in log ==> HasSent(log, AbandonedKill))
    }

    // Dropping the guard: an armed one signals the abandoned tree while the identifier is pinned,
    // and records that it could not.
    method DropGuard()
      requires Valid() && (armed ==> isolated && Reaped !in log)
      modifies this`script, this`log, this`treeFailures
      ensures Final() && (Reaped in log <==> Reaped in old(log)) && Quiet(old(log), log)
      ensures !armed ==> log == old(log)
      ensures armed ==> log != [] && log[|log| - 1] in {Signal(AbandonedKill, true), TreeFailure}
      ensures armed && identified && WaitFailed !in log ==> HasSent(log, AbandonedKill)
      ensures TreeSignalled(old(log)) ==> TreeSignalled(log)
      ensures TreeFailure in old(log) ==> TreeFailure in log
    {
      hide CountTreeFailures, SignalsArePinned, TreeSignalled, Orderly, FirstCause, LastStimulus;
      if !armed { return; }
      var delivered := false;
      if pinned && identified {
        var reply := Take();
        delivered := reply.delivered;
        Appended(log, Signal(AbandonedKill, delivered));
        OrderAppended(log, Signal(AbandonedKill, delivered));
        log := log + [Signal(AbandonedKill, delivered)];
      }
      if !delivered {
        Appended(log, TreeFailure);
        OrderAppended(log, TreeFailure);
        log := log + [TreeFailure];
        treeFailures := treeFailures + 1;
      }
    }

    // What a run answers once the child was started: what supervision answered, the flags aside.
    ghost predicate Reports(r: RunResult)
      reads this
    {
      match r
      case Report(termination, _) => Answers(Ended(termination), FirstCause(log, memoryLimit))
      case Failure(kind, _) => Answers(Failed(kind), FirstCause(log, memoryLimit))
      case RunDropped => true
    }

    // One invocation, from its wait for a slot. Whatever the operating system answers and wherever
    // the future is dropped: no signal is composed after the leader was reaped or a wait failed; every
    // tree failure is counted; an error without the containment flag means, and is meant by, a reaped
    // leader and no tree failure; a report says exactly whether containment degraded; and report,
    // error and counters say why the child was stopped.
    method Run(admission: Admission, spawns: bool) returns (r: RunResult)
      requires log == [] && pinned && (armed <==> isolated) && !degraded && treeFailures == failuresBefore
      modifies this
      ensures Final()
      ensures r.Report? && r.termination != Cancelled(Queued) ==>
        Reaped in log && (r.treeDegraded <==> TreeFailure in log)
      ensures r.Report? && r.termination !in {ExitedAlone, Cancelled(Queued)} && isolated && !r.treeDegraded ==>
        TreeSignalled(log)
      ensures r.Failure? && admission == Admitted && spawns ==>
        (!r.containmentFailed <==> Reaped in log && TreeFailure !in log)
      ensures r.Failure? && !r.containmentFailed ==> treeFailures == old(treeFailures)
      ensures admission == Admitted && spawns ==> Reports(r) && Abandoned() && StopsAtOnce(log, memoryLimit)
      ensures admission == Admitted && !spawns ==> r == Failure(SpawnFailed, false)
      ensures admission == CancelledInQueue <==> r == Report(Cancelled(Queued), false)
      ensures admission == QueueClosed ==> r == Failure(SpawnFailed, false)
      ensures admission == DroppedInQueue ==> r == RunDropped
      ensures admission != Admitted || !spawns ==> log == []
      ensures completed == old(completed) + One(Reaped in log)
      ensures started == old(started) + One(admission == Admitted && spawns)
      ensures spawnFailures == old(spawnFailures) + One(admission == Admitted && !spawns)
      ensures cancellations == old(cancellations) +
        One(admission == CancelledInQueue || FirstCause(log, memoryLimit) == Some(CancelAsked))
      ensures timeouts == old(timeouts) + One(FirstCause(log, memoryLimit) == Some(TimeUp))
      ensures memoryTerminations == old(memoryTerminations) +
        One(FirstCause(log, memoryLimit).Some? && FirstCause(log, memoryLimit).value.OverLimit?)
    {
      assert Unreaped() && FirstCause(log, memoryLimit).None?;
      match admission {
        case CancelledInQueue =>
          cancellations := cancellations + 1;
          return Report(Cancelled(Queued), false);
        case QueueClosed => return Failure(SpawnFailed, false);
        case DroppedInQueue => return RunDropped;
        case Admitted =>
      }
      if !spawns {
        spawnFailures := spawnFailures + 1;
        return Failure(SpawnFailed, false);
      }
      started := started + 1;
      r := RunSpawned();
    }

    // What a started run has to say for itself.
    ghost predicate Told(r: RunResult)
      reads this
    {
      && Final() && Reports(r) && Abandoned() && StopsAtOnce(log, memoryLimit)
      && (r.Report? ==>
            && Reaped in log && r.termination != Cancelled(Queued) && (r.treeDegraded <==> TreeFailure in log)
            && (r.termination != ExitedAlone && isolated && !r.treeDegraded ==> TreeSignalled(log)))
      && (r.Failure? ==>
            && (!r.containmentFailed <==> Reaped in log && TreeFailure !in log)
            && (!r.containmentFailed ==> treeFailures == failuresBefore))
    }

    method RunSpawned() returns (r: RunResult)
      requires Unreaped() && log == []
      modifies this`script, this`log, this`pinned, this`degraded, this`treeFailures, this`armed, this`completed
      modifies this`cancellations, this`timeouts, this`memoryTerminations
      ensures Told(r) && completed == old(completed) + One(Reaped in log)
      ensures Counts(old(cancellations), old(timeouts), old(memoryTerminations))
    {
      assert FirstCause(log, memoryLimit).None?;
      hide CountTreeFailures, SignalsArePinned, TreeSignalled, Orderly, FirstCause;
      hide StopsAtOnce, Answers, Abandoned, Quiet;
      var supervised := Supervise();
      if supervised.SupervisionDropped? {
        QuietItself(log);
        LetGo(log);
        return RunDropped;
      }
      r := Conclude(supervised);
    }

    // The child ended, or supervision failed and the child has to be cleaned up.
    method Conclude(supervised: Supervised) returns (r: RunResult)
      requires Over(supervised) && !supervised.SupervisionDropped?
      modifies this`script, this`log, this`pinned, this`degraded, this`treeFailures, this`armed, this`completed
      ensures Told(r) && completed == old(completed) + One(Reaped in log)
      ensures FirstCause(log, memoryLimit) == FirstCause(old(log), memoryLimit)
    {
      hide CountTreeFailures, SignalsArePinned, TreeSignalled, Orderly, FirstCause;
      hide StopsAtOnce, Abandoned, Quiet;
      QuietItself(log);
      match supervised {
        case Ended(termination) =>
          armed := false;
          completed := completed + 1;
          r := Report(termination, degraded);
        case Failed(kind) =>
          r := CleanUp(kind);
      }
      r := Finish(r, old(log));
    }

    // Draining the output can be dropped too: the guard is released either way.
    method Finish(r0: RunResult, ghost record: seq<Act>) returns (r: RunResult)
      requires Valid() && (armed <==> isolated && Reaped !in log) && Quiet(record, log)
      modifies this`script, this`log, this`treeFailures
      ensures Final() && (r == r0 || r == RunDropped) && (Reaped in log <==> Reaped in old(log))
      ensures FirstCause(log, memoryLimit) == FirstCause(record, memoryLimit)
      ensures StopsAtOnce(record, memoryLimit) ==> StopsAtOnce(log, memoryLimit)
      ensures Reaped in old(log) ==> log == old(log) && treeFailures == old(treeFailures)
      ensures Abandoned() && (TreeFailure !in log ==> treeFailures == failuresBefore)
      ensures TreeFailure in old(log) ==> TreeFailure in log
    {
      var drained := Take();
      LetGo(record);
      r := if drained.dropped then RunDropped else r0;
    }

    // The guard goes out of scope.
    method LetGo(ghost record: seq<Act>)
      requires Valid() && (armed <==> isolated && Reaped !in log) && Quiet(record, log)
      modifies this`script, this`log, this`treeFailures
      ensures Final() && (Reaped in log <==> Reaped in old(log))
      ensures FirstCause(log, memoryLimit) == FirstCause(record, memoryLimit)
      ensures StopsAtOnce(record, memoryLimit) ==> StopsAtOnce(log, memoryLimit)
      ensures Reaped in old(log) ==> log == old(log) && treeFailures == old(treeFailures)
      ensures Abandoned() && (TreeFailure !in log ==> treeFailures == failuresBefore)
      ensures TreeFailure in old(log) ==> TreeFailure in log
    {
      hide CountTreeFailures, SignalsArePinned, TreeSignalled, Orderly, FirstCause, LastStimulus;
      DropGuard();
      QuietTrans(record, old(log), log);
      QuietKeepsCause(record, log, memoryLimit);
      NoFailureCounted(log);
    }

    // Terminates and reaps a child whose supervision failed. Only a confirmed reap disarms the guard
    // and counts the child.
    method CleanUp(kind: ErrorKind) returns (r: RunResult)
      requires Unreaped()
      modifies this`script, this`log, this`pinned, this`degraded, this`treeFailures, this`armed, this`completed
      ensures Valid() && (armed <==> isolated && Reaped !in log)
      ensures Quiet(old(log), log)
      ensures completed == old(completed) + One(Reaped in log)
      ensures r.RunDropped? || r == Failure(kind, !(Reaped in log && TreeFailure !in log))
    {
      hide CountTreeFailures, SignalsArePinned, TreeSignalled, Orderly, FirstCause, LastStimulus;
      var cleanup := TerminateAndReap();
      if cleanup == ReapDropped { return RunDropped; }
      if cleanup == Status {
        armed := false;
        completed := completed + 1;
      }
      return Failure(kind, !(cleanup == Status && !degraded));
    }
  }
}
