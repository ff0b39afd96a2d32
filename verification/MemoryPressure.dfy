// Memory pressure with hysteresis: the monitor keeps two streak counters; the reference reads the
// whole history of samples and keeps nothing.
module MemoryPressure {
  import opened Prelude

  datatype Config = Config(resume: nat, soft: nat, hard: nat, pressureSamples: nat, recoverySamples: nat)

  predicate ConfigOk(c: Config) {
    0 < c.resume < c.soft < c.hard && 0 < c.pressureSamples < U32_LIMIT && 0 < c.recoverySamples < U32_LIMIT
  }

  datatype State = Initializing | Normal | Pressured | Critical | Unavailable

  // One sampling attempt: the resident bytes, or a failure to sample.
  datatype Sample = Resident(bytes: nat) | Failure

  // ---------------------------------------------------------------- the reference

  predicate SoftSample(c: Config, s: Sample) { s.Resident? && c.soft <= s.bytes < c.hard }
  predicate ResumeSample(c: Config, s: Sample) { s.Resident? && s.bytes <= c.resume }

  // Length of the run of soft-pressure samples, or of resumable samples, at the end of a history.
  function TrailingSoft(c: Config, h: seq<Sample>): nat {
    if h == [] || !SoftSample(c, h[|h| - 1]) then 0 else 1 + TrailingSoft(c, h[..|h| - 1])
  }

  function TrailingResume(c: Config, h: seq<Sample>): nat {
    if h == [] || !ResumeSample(c, h[|h| - 1]) then 0 else 1 + TrailingResume(c, h[..|h| - 1])
  }

  // What the end of a history decides on its own, whatever came before.
  function Verdict(c: Config, h: seq<Sample>): Option<State>
    requires h != []
  {
    match h[|h| - 1]
    case Failure => Some(Unavailable)
    case Resident(bytes) =>
      if bytes >= c.hard then Some(Critical)
      else if TrailingSoft(c, h) >= c.pressureSamples then Some(Pressured)
      else if TrailingResume(c, h) >= c.recoverySamples then Some(Normal)
      else None
  }

  // The pressure state of a history: its last verdict, or that of the first sample below the soft
  // limit when there was none.
  function Reference(c: Config, h: seq<Sample>): State {
    if h == [] then Initializing
    else
      match Verdict(c, h)
      case Some(state) => state
      case None =>
        var before := Reference(c, h[..|h| - 1]);
        if before == Initializing && h[|h| - 1].Resident? && h[|h| - 1].bytes < c.soft then Normal else before
  }

  // ---------------------------------------------------------------- the monitor's step

  datatype Monitor = Monitor(
    state: State,
    pressureStreak: nat,
    recoveryStreak: nat,
    sequence: nat,
    resident: Option<nat>)

  function NewMonitor(): Monitor {
    Monitor(Initializing, 0, 0, 0, None)
  }

  predicate Degraded(s: State) {
    s == Pressured || s == Critical || s == Unavailable
  }

  function SaturatingInc64(n: nat): nat {
    if n + 1 < U64_LIMIT then n + 1 else U64_LIMIT - 1
  }

  // What the counters must hold after a history.
  ghost predicate Tracks(c: Config, m: Monitor, h: seq<Sample>) {
    && m.state == Reference(c, h)
    && m.pressureStreak == Min(TrailingSoft(c, h), U32_LIMIT - 1)
    && m.recoveryStreak == (if Degraded(m.state) then TrailingResume(c, h) else 0)
    && m.recoveryStreak < c.recoverySamples
    && m.sequence == Min(|h|, U64_LIMIT - 1)
  }

  function Next(c: Config, m: Monitor, bytes: nat): (State, nat, nat) {
    if bytes >= c.hard then (Critical, 0, 0)
    else if bytes >= c.soft then
      var streak := SaturatingInc32(m.pressureStreak);
      (if streak >= c.pressureSamples then Pressured else m.state, streak, 0)
    else if bytes <= c.resume then
      if !Degraded(m.state) then (Normal, 0, 0)
      else
        var streak := SaturatingInc32(m.recoveryStreak);
        if streak < c.recoverySamples then (m.state, 0, streak) else (Normal, 0, 0)
    else (if m.state == Initializing then Normal else m.state, 0, 0)
  }

  function Applied(c: Config, m: Monitor, s: Sample): Monitor {
    match s
    case Failure =>
      m.(state := Unavailable, pressureStreak := 0, recoveryStreak := 0, sequence := SaturatingInc64(m.sequence))
    case Resident(bytes) =>
      var (state, pressure, recovery) := Next(c, m, bytes);
      Monitor(state, pressure, recovery, SaturatingInc64(m.sequence), Some(bytes))
  }

  // ---------------------------------------------------------------- counters are the history

  lemma LastOf(h: seq<Sample>, s: Sample)
    ensures (h + [s])[..|h + [s]| - 1] == h && (h + [s])[|h + [s]| - 1] == s
  {
  }

  lemma SampleTracks(c: Config, m: Monitor, h: seq<Sample>, bytes: nat)
    requires ConfigOk(c) && Tracks(c, m, h)
    ensures Tracks(c, Applied(c, m, Resident(bytes)), h + [Resident(bytes)])
  {
    LastOf(h, Resident(bytes));
  }

  lemma FailureTracks(c: Config, m: Monitor, h: seq<Sample>)
    requires ConfigOk(c) && Tracks(c, m, h)
    ensures Tracks(c, Applied(c, m, Failure), h + [Failure])
  {
    LastOf(h, Failure);
  }

  function After(c: Config, h: seq<Sample>): Monitor {
    if h == [] then NewMonitor() else Applied(c, After(c, h[..|h| - 1]), h[|h| - 1])
  }

  // For every history of samples and failures, the monitor's counters and state are those of the
  // history.
  lemma {:induction false} MonitorIsItsHistory(c: Config, h: seq<Sample>)
    requires ConfigOk(c)
    ensures Tracks(c, After(c, h), h)
  {
    if h != [] {
      var before, last := h[..|h| - 1], h[|h| - 1];
      MonitorIsItsHistory(c, before);
      assert h == before + [last];
      match last
      case Failure => FailureTracks(c, After(c, before), before);
      case Resident(bytes) => SampleTracks(c, After(c, before), before, bytes);
    }
  }

  // ---------------------------------------------------------------- what the reference means

  // A trailing run of length n is n samples in a row at the end.
  lemma {:induction false} TrailingResumeMeans(c: Config, h: seq<Sample>, n: nat)
    ensures TrailingResume(c, h) >= n <==> n <= |h| && forall i :: |h| - n <= i < |h| ==> ResumeSample(c, h[i])
  {
    if n > 0 && h != [] {
      TrailingResumeMeans(c, h[..|h| - 1], n - 1);
    }
  }

  lemma {:induction false} TrailingSoftMeans(c: Config, h: seq<Sample>, n: nat)
    ensures TrailingSoft(c, h) >= n <==> n <= |h| && forall i :: |h| - n <= i < |h| ==> SoftSample(c, h[i])
  {
    if n > 0 && h != [] {
      TrailingSoftMeans(c, h[..|h| - 1], n - 1);
    }
  }

  // A degraded monitor returns to Normal exactly when the last `recoverySamples` samples are all at
  // or below the resume threshold.
  lemma RecoveryNeedsTheFullRun(c: Config, h: seq<Sample>, s: Sample)
    requires ConfigOk(c) && Degraded(After(c, h).state)
    ensures var longer := h + [s];
            After(c, longer).state == Normal <==>
            c.recoverySamples <= |longer|
            && forall i :: |longer| - c.recoverySamples <= i < |longer| ==>
                 longer[i].Resident? && longer[i].bytes <= c.resume
  {
    MonitorIsItsHistory(c, h);
    MonitorIsItsHistory(c, h + [s]);
    TrailingResumeMeans(c, h + [s], c.recoverySamples);
    LastOf(h, s);
    hide After;
  }

  // The monitor becomes Pressured exactly when the last `pressureSamples` samples are all in the
  // soft range; once there it stays until a verdict to the contrary.
  lemma PressureNeedsTheFullRun(c: Config, h: seq<Sample>, s: Sample)
    requires ConfigOk(c)
    ensures var longer := h + [s];
            var run := c.pressureSamples <= |longer|
                       && forall i :: |longer| - c.pressureSamples <= i < |longer| ==>
                            longer[i].Resident? && c.soft <= longer[i].bytes < c.hard;
            && (run ==> After(c, longer).state == Pressured)
            && (After(c, longer).state == Pressured && After(c, h).state != Pressured ==> run)
  {
    MonitorIsItsHistory(c, h);
    MonitorIsItsHistory(c, h + [s]);
    TrailingSoftMeans(c, h + [s], c.pressureSamples);
    LastOf(h, s);
    hide After;
  }

  // One sample at the hard limit makes the monitor Critical and one failure makes it Unavailable, at
  // once; nothing else brings it there, and nothing but a first sample below the soft limit or a
  // full recovery brings it to Normal.
  lemma DegradesAtOnce(c: Config, h: seq<Sample>, s: Sample)
    requires ConfigOk(c)
    ensures var before, after := After(c, h).state, After(c, h + [s]).state;
            && (s.Resident? && s.bytes >= c.hard ==> after == Critical)
            && (s == Failure ==> after == Unavailable)
            && (after == Critical && before != Critical ==> s.Resident? && s.bytes >= c.hard)
            && (after == Unavailable && before != Unavailable ==> s == Failure)
            && (before == Initializing && after == Normal ==> s.Resident? && s.bytes < c.soft)
            && (before == Initializing && s.Resident? && s.bytes < c.soft ==> after == Normal)
            && (after == Initializing ==> before == Initializing)
  {
    MonitorIsItsHistory(c, h);
    MonitorIsItsHistory(c, h + [s]);
    LastOf(h, s);
    hide After;
  }

  // The last verdict of a history is its state, however many undecided samples follow.
  lemma {:induction false} LastVerdictStands(c: Config, h: seq<Sample>, k: nat)
    requires ConfigOk(c) && 0 < k <= |h| && Verdict(c, h[..k]).Some?
    requires forall n :: k < n <= |h| ==> Verdict(c, h[..n]).None?
    ensures After(c, h).state == Verdict(c, h[..k]).value
  {
    MonitorIsItsHistory(c, h);
    ReferenceIsLastVerdict(c, h, k);
  }

  lemma {:induction false} ReferenceIsLastVerdict(c: Config, h: seq<Sample>, k: nat)
    requires 0 < k <= |h| && Verdict(c, h[..k]).Some?
    requires forall n :: k < n <= |h| ==> Verdict(c, h[..n]).None?
    ensures Reference(c, h) == Verdict(c, h[..k]).value
    decreases |h|
  {
    hide Verdict;
    assert h[..|h|] == h;
    if k < |h| {
      var before := h[..|h| - 1];
      forall n | 0 < n <= |before| ensures before[..n] == h[..n] {}
      ReferenceIsLastVerdict(c, before, k);
      assert Reference(c, before) != Initializing by { VerdictsAreNotInitial(c, h[..k]); }
    }
  }

  lemma VerdictsAreNotInitial(c: Config, h: seq<Sample>)
    requires h != [] && Verdict(c, h).Some?
    ensures Verdict(c, h).value != Initializing
  {
  }

  // ---------------------------------------------------------------- the object

  class MemoryPressureMonitor {
    const config: Config
    var state: State
    var pressureStreak: nat
    var recoveryStreak: nat
    var sequence: nat
    var resident: Option<nat>
    var admitting: bool                 // the last admission call was a resume
    var ready: bool                     // the readiness last reported
    ghost var history: seq<Sample>

    function View(): Monitor
      reads this
    {
      Monitor(state, pressureStreak, recoveryStreak, sequence, resident)
    }

    // The monitor is a function of the samples alone, and admits work exactly in the Normal state.
    ghost predicate Valid()
      reads this
    {
      && ConfigOk(config) && Tracks(config, View(), history)
      && (admitting <==> state == Normal) && (ready <==> state == Normal)
    }

    constructor (config: Config)
      requires ConfigOk(config)
      ensures Valid() && history == [] && this.config == config && !admitting
    {
      this.config := config;
      state, pressureStreak, recoveryStreak, sequence, resident := Initializing, 0, 0, 0, None;
      admitting, ready, history := false, false, [];
    }

    // Updates the streaks and gives the next state.
    method NextState(bytes: nat) returns (next: State)
      modifies this`pressureStreak, this`recoveryStreak
      ensures (next, pressureStreak, recoveryStreak) == Next(config, old(View()), bytes)
    {
      if bytes >= config.hard {
        pressureStreak, recoveryStreak := 0, 0;
        return Critical;
      }
      if bytes >= config.soft {
        recoveryStreak := 0;
        pressureStreak := SaturatingInc32(pressureStreak);
        if pressureStreak >= config.pressureSamples { return Pressured; }
        return state;
      }
      pressureStreak := 0;
      if bytes <= config.resume {
        if Degraded(state) {
          recoveryStreak := SaturatingInc32(recoveryStreak);
          if recoveryStreak < config.recoverySamples { return state; }
        }
        recoveryStreak := 0;
        return Normal;
      }
      recoveryStreak := 0;
      return if state == Initializing then Normal else state;
    }

    method ApplySample(bytes: nat)
      requires Valid()
      modifies this
      ensures Valid() && history == old(history) + [Resident(bytes)] && resident == Some(bytes)
    {
      hide Tracks;
      SampleTracks(config, View(), history, bytes);
      var next := NextState(bytes);
      state, sequence, resident := next, SaturatingInc64(sequence), Some(bytes);
      history := history + [Resident(bytes)];
      ApplyExternalState();
    }

    // A failed sample fails closed.
    method ApplyUnavailable()
      requires Valid()
      modifies this
      ensures Valid() && history == old(history) + [Failure] && state == Unavailable && !admitting
      ensures resident == old(resident)
    {
      hide Tracks;
      FailureTracks(config, View(), history);
      pressureStreak, recoveryStreak := 0, 0;
      state, sequence := Unavailable, SaturatingInc64(sequence);
      history := history + [Failure];
      ApplyExternalState();
    }

    method ApplyExternalState()
      modifies this`admitting, this`ready
      ensures (admitting <==> state == Normal) && (ready <==> state == Normal)
    {
      admitting := state == Normal;
      ready := state == Normal;
    }
  }
}
