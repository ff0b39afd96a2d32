// Exponential retry delays over nanosecond durations, with checked multiplication, early exit,
// deterministic jitter and attempt and elapsed-time limits.
module RetryBackoff {
  import opened Prelude

  // The longest representable duration, in nanoseconds.
  const DURATION_MAX: nat := (U64_LIMIT - 1) * 1_000_000_000 + 999_999_999

  datatype Jitter = Jitter(percent: nat, seed: bv64)

  datatype ErrorClass = Retryable | Permanent | DeadLettered | OutcomeUnknown

  datatype Decision = RetryAfter(delay: nat) | DoNotRetry | DeadLetter

  datatype Config = Config(
    initialDelay: nat,
    maxDelay: nat,
    multiplier: nat,
    maxAttempts: nat,
    maxElapsed: Option<nat>,
    jitter: Option<Jitter>,
    retryUnknownOutcome: bool,
    deadLetterWhenExhausted: bool)

  // What validation and the types of the fields admit.
  predicate ConfigOk(c: Config) {
    && 0 < c.initialDelay <= c.maxDelay <= DURATION_MAX
    && 1 <= c.multiplier < U32_LIMIT && 1 <= c.maxAttempts < U32_LIMIT
    && (c.maxElapsed.Some? ==> c.maxElapsed.value <= DURATION_MAX)
    && (c.jitter.Some? ==> c.jitter.value.percent <= 100)
  }

  // ---------------------------------------------------------------- the delay in closed form

  function Power(base: nat, exponent: nat): nat {
    if exponent == 0 then 1 else base * Power(base, exponent - 1)
  }

  // The n-th delay without any bound on integers.
  function Unbounded(c: Config, n: nat): nat {
    c.initialDelay * Power(c.multiplier, n)
  }

  function Nominal(c: Config, attempt: nat): nat {
    Min(c.maxDelay, Unbounded(c, if attempt == 0 then 0 else attempt - 1))
  }

  lemma NextUnbounded(c: Config, n: nat)
    requires c.multiplier >= 1
    ensures Unbounded(c, n + 1) == Unbounded(c, n) * c.multiplier
    ensures Unbounded(c, n + 1) >= Unbounded(c, n)
  {
    var p := Power(c.multiplier, n);
    calc {
      Unbounded(c, n + 1);
      c.initialDelay * (c.multiplier * p);
      (c.initialDelay * p) * c.multiplier;
      Unbounded(c, n) * c.multiplier;
    }
    assert Unbounded(c, n) * c.multiplier >= Unbounded(c, n) by { TimesAtLeastOne(Unbounded(c, n), c.multiplier); }
  }

  lemma TimesAtLeastOne(a: nat, m: nat)
    requires m >= 1
    ensures a * m >= a
  {
    assert a * m == a + a * (m - 1);
  }

  lemma {:induction false} UnboundedGrows(c: Config, n: nat, m: nat)
    requires c.multiplier >= 1 && n <= m
    ensures Unbounded(c, n) <= Unbounded(c, m)
    decreases m - n
  {
    if n < m {
      NextUnbounded(c, n);
      UnboundedGrows(c, n + 1, m);
    }
  }

  lemma {:induction false} PowerOfOne(n: nat)
    ensures Power(1, n) == 1
  {
    if n > 0 {
      PowerOfOne(n - 1);
    }
  }

  // ---------------------------------------------------------------- jitter

  function Mix(value: bv64): bv64 {
    var a := value ^ (value >> 30);
    var b := a * 0xbf58_476d_1ce4_e5b9;
    var c := b ^ (b >> 27);
    var d := c * 0x94d0_49bb_1331_11eb;
    d ^ (d >> 31)
  }

  function Sample(seed: bv64, attempt: nat): nat
    requires attempt < U64_LIMIT
  {
    Mix(seed ^ (attempt as bv64)) as nat
  }

  function Spread(nominal: nat, percent: nat): nat {
    nominal * percent / 100
  }

  // Jitter only ever shortens a delay, by at most the configured share of it.
  function ApplyJitter(nominal: nat, attempt: nat, jitter: Option<Jitter>): (r: nat)
    requires attempt < U64_LIMIT && (jitter.Some? ==> jitter.value.percent <= 100)
    ensures jitter.None? || jitter.value.percent == 0 ==> r == nominal
    ensures jitter.Some? ==> nominal - Spread(nominal, jitter.value.percent) <= r <= nominal
  {
    if jitter.None? || jitter.value.percent == 0 then
      assert jitter.Some? ==> Spread(nominal, 0) == 0; nominal
    else
      var spread := Spread(nominal, jitter.value.percent);
      SpreadIsBounded(nominal, jitter.value.percent);
      nominal - spread + Sample(jitter.value.seed, attempt) % (spread + 1)
  }

  lemma SpreadIsBounded(nominal: nat, percent: nat)
    requires percent <= 100
    ensures Spread(nominal, percent) <= nominal
  {
    assert nominal * percent <= nominal * 100;
  }

  // ---------------------------------------------------------------- the delay as computed

  function CheckedMul(delay: nat, factor: nat): Option<nat> {
    if delay * factor <= DURATION_MAX then Some(delay * factor) else None
  }

  function Delay(c: Config, attempt: nat): nat
    requires ConfigOk(c) && attempt < U32_LIMIT
  {
    ApplyJitter(Nominal(c, attempt), if attempt == 0 then 1 else attempt, c.jitter)
  }

  // The loop with checked multiplication and early exit computes the closed form, for every valid
  // configuration and every attempt.
  method DelayForAttempt(c: Config, attempt: nat) returns (delay: nat)
    requires ConfigOk(c) && attempt < U32_LIMIT
    ensures delay == Delay(c, attempt)
    ensures delay <= c.maxDelay
  {
    var effective := if attempt == 0 then 1 else attempt;
    var exponent := effective - 1;
    delay := c.initialDelay;
    if c.multiplier == 1 {
      PowerOfOne(exponent);
      return ApplyJitter(delay, effective, c.jitter);
    }
    var n := 0;
    assert delay == Min(c.maxDelay, Unbounded(c, 0));
    while n < exponent
      invariant n <= exponent && delay == Min(c.maxDelay, Unbounded(c, n))
    {
      NextUnbounded(c, n);
      var next := CheckedMul(delay, c.multiplier);
      TimesAtLeastOne(delay, c.multiplier);
      delay := if next.Some? && next.value < c.maxDelay then next.value else c.maxDelay;
      n := n + 1;
      if delay == c.maxDelay {
        UnboundedGrows(c, n, exponent);
        break;
      }
    }
    assert delay == Nominal(c, attempt);
    delay := ApplyJitter(delay, effective, c.jitter);
  }

  // ---------------------------------------------------------------- decisions

  function Exhausted(c: Config): Decision {
    if c.deadLetterWhenExhausted then DeadLetter else DoNotRetry
  }

  function Decide(c: Config, attempt: nat, elapsed: nat, kind: ErrorClass): Decision
    requires ConfigOk(c) && attempt < U32_LIMIT
  {
    if kind == Permanent then DoNotRetry
    else if kind == DeadLettered then DeadLetter
    else if kind == OutcomeUnknown && !c.retryUnknownOutcome then DoNotRetry
    else
      var effective := if attempt == 0 then 1 else attempt;
      if effective >= c.maxAttempts then Exhausted(c)
      else
        var delay := Delay(c, effective);
        if c.maxElapsed.Some? && (elapsed >= c.maxElapsed.value || elapsed + delay > c.maxElapsed.value)
        then Exhausted(c)
        else RetryAfter(delay)
  }

  // A failure is retried exactly when its class allows it (an unknown outcome only by opting in),
  // an attempt is left, and the wait ends within the elapsed-time limit; attempt zero counts as the
  // first. What is not retried is declined or dead-lettered by its class, or, out of attempts or
  // time, as configured.
  lemma RetriesExactlyWhen(c: Config, attempt: nat, elapsed: nat, kind: ErrorClass)
    requires ConfigOk(c) && attempt < U32_LIMIT
    ensures var d, n := Decide(c, attempt, elapsed, kind), if attempt == 0 then 1 else attempt;
            var allowed := kind == Retryable || (kind == OutcomeUnknown && c.retryUnknownOutcome);
            && (d.RetryAfter? <==>
                  && allowed && n < c.maxAttempts
                  && (c.maxElapsed.Some? ==>
                        elapsed < c.maxElapsed.value && elapsed + Delay(c, n) <= c.maxElapsed.value))
            && (d.RetryAfter? ==> d.delay == Delay(c, n))
            && (kind == Permanent ==> d == DoNotRetry)
            && (kind == DeadLettered ==> d == DeadLetter)
            && (kind == OutcomeUnknown && !c.retryUnknownOutcome ==> d == DoNotRetry)
            && (allowed && !d.RetryAfter? ==> (d == DeadLetter <==> c.deadLetterWhenExhausted))
  {
    hide Delay;
  }

  // ---------------------------------------------------------------- whole retry runs

  // A run of failed attempts from the first on, each answered with a retry, in which the elapsed
  // time reported at each attempt covers the delays waited so far.
  ghost predicate IsRetryRun(c: Config, elapsed: seq<nat>, kinds: seq<ErrorClass>, delays: seq<nat>)
    requires ConfigOk(c)
  {
    && |elapsed| == |kinds| == |delays| < U32_LIMIT - 1
    && forall i :: 0 <= i < |delays| ==>
         Decide(c, i + 1, elapsed[i], kinds[i]) == RetryAfter(delays[i]) && elapsed[i] >= Sum(delays[..i])
  }

  // Every retry run is shorter than the attempt limit, never waits longer than the elapsed-time
  // limit in total, and no single wait exceeds the delay limit.
  lemma RetriesAreBounded(c: Config, elapsed: seq<nat>, kinds: seq<ErrorClass>, delays: seq<nat>)
    requires ConfigOk(c) && IsRetryRun(c, elapsed, kinds, delays)
    ensures |delays| < c.maxAttempts
    ensures c.maxElapsed.Some? ==> Sum(delays) <= c.maxElapsed.value
    ensures forall i :: 0 <= i < |delays| ==> delays[i] <= c.maxDelay
  {
    hide Delay, Decide, Nominal;
    forall i | 0 <= i < |delays| ensures delays[i] <= c.maxDelay {
      RetriesExactlyWhen(c, i + 1, elapsed[i], kinds[i]);
      DelayIsBounded(c, i + 1);
    }
    if delays != [] {
      var last := |delays| - 1;
      RetriesExactlyWhen(c, last + 1, elapsed[last], kinds[last]);
    }
  }

  lemma DelayIsBounded(c: Config, attempt: nat)
    requires ConfigOk(c) && attempt < U32_LIMIT
    ensures Delay(c, attempt) <= Nominal(c, attempt) <= c.maxDelay
    ensures c.jitter.None? ==> Delay(c, attempt) == Nominal(c, attempt)
  {
  }
}
