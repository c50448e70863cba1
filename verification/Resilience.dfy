/** Retry with exponential backoff around the circuit breaker: what one provider call costs. */
module Resilience {
  import opened Options
  import opened CircuitBreaker

  datatype RetryConfig = RetryConfig(maxAttempts: int, baseDelayMs: real)

  /** How a resilient call ends: with a result, with the provider's own error, or with the
      ServiceUnavailable that replaces a CircuitOpenError. */
  datatype Verdict = Success | ProviderError | ServiceUnavailable

  /** Everything the call does not control: the clock reading, the provider's answer and the random
      number of each attempt, counted from 1, and what everybody else has made of the breaker's hash
      by the time of each attempt. */
  datatype World = World(
    clock: nat -> int,
    answers: nat -> bool,
    random: nat -> real,
    others: (nat, Hash) -> Hash)

  function Pow2(n: nat): nat { if n == 0 then 1 else 2 * Pow2(n - 1) }

  function BackoffDelay(attempt: nat, base: real, random: real): real
    requires attempt >= 1
  {
    var exponential := base * Pow2(attempt - 1) as real;
    exponential + random * (exponential / 2.0)
  }

  datatype Outcome = Outcome(hash: Hash, invoked: nat, slept: real, verdict: Verdict)

  /** The retry loop from its given attempt on. */
  function Retrying(
    h: Hash, attempt: nat, invoked: nat, slept: real, w: World, cfg: Config, retry: RetryConfig): Outcome
    requires 1 <= attempt <= retry.maxAttempts
    decreases retry.maxAttempts - attempt
  {
    var (h', r) := Call(w.others(attempt, h), w.clock(attempt), w.answers(attempt), cfg);
    match r
    case Returned => Outcome(h', invoked + 1, slept, Success)
    case Rejected => Outcome(h', invoked, slept, ServiceUnavailable)
    case Threw =>
      if attempt >= retry.maxAttempts then Outcome(h', invoked + 1, slept, ProviderError)
      else Retrying(h', attempt + 1, invoked + 1,
                    slept + BackoffDelay(attempt, retry.baseDelayMs, w.random(attempt)), w, cfg, retry)
  }

  /** callProviderResilient: withRetry around withCircuitBreaker. */
  method CallProviderResilient(circuit: Circuit, w: World, cfg: Config, retry: RetryConfig)
    returns (invoked: nat, slept: real, verdict: Verdict)
    requires retry.maxAttempts >= 1
    modifies circuit
    ensures Outcome(circuit.Value(), invoked, slept, verdict)
         == Retrying(old(circuit.Value()), 1, 0, 0.0, w, cfg, retry)
  {
    invoked, slept := 0, 0.0;
    var attempt := 1;
    while attempt <= retry.maxAttempts
      invariant 1 <= attempt <= retry.maxAttempts
      invariant Retrying(circuit.Value(), attempt, invoked, slept, w, cfg, retry)
             == Retrying(old(circuit.Value()), 1, 0, 0.0, w, cfg, retry)
      decreases retry.maxAttempts - attempt
    {
      circuit.Become(w.others(attempt, circuit.Value()));
      var r := circuit.WithCircuitBreaker(w.clock(attempt), w.answers(attempt), false, cfg);
      if r == Rejected {
        return invoked, slept, ServiceUnavailable;
      }
      invoked := invoked + 1;
      if r == Returned {
        return invoked, slept, Success;
      }
      if attempt >= retry.maxAttempts {
        return invoked, slept, ProviderError;
      }
      slept := slept + BackoffDelay(attempt, retry.baseDelayMs, w.random(attempt));
      attempt := attempt + 1;
    }
    verdict := ProviderError;
  }

  function Min(a: int, b: int): int { if a < b then a else b }

  /** The attempts from `attempt` on all begin between `from` and less than `span` after it. */
  ghost predicate Quick(w: World, attempt: nat, retry: RetryConfig, from: int, span: int) {
    && (forall i :: attempt <= i <= retry.maxAttempts ==> from <= w.clock(i) < from + span)
    && (forall i, j :: attempt <= i <= j <= retry.maxAttempts ==> w.clock(i) <= w.clock(j))
  }

  ghost predicate Alone(w: World) { forall i, h :: w.others(i, h) == h }

  ghost predicate AlwaysFails(w: World) { forall i :: !w.answers(i) }

  /** From a closed circuit with room for some failures, inside one window. */
  lemma {:induction false} FailingFrom(
    h: Hash, attempt: nat, invoked: nat, slept: real, w: World, cfg: Config, retry: RetryConfig)
    requires 1 <= attempt <= retry.maxAttempts && AlwaysFails(w) && Alone(w)
    requires h.StateOf().Closed? && 0 <= h.Failures() < cfg.failureThreshold
    requires h.windowStart.Some?
    requires Quick(w, attempt, retry, h.windowStart.value, Min(cfg.failureWindowMs, cfg.openDurationMs))
    ensures var o := Retrying(h, attempt, invoked, slept, w, cfg, retry);
            var room := cfg.failureThreshold - h.Failures();
            var left := retry.maxAttempts - attempt + 1;
            && o.invoked == invoked + Min(room, left)
            && o.verdict == (if room < left then ServiceUnavailable else ProviderError)
    decreases retry.maxAttempts - attempt
  {
    var h' := Call(h, w.clock(attempt), false, cfg).0;
    if attempt < retry.maxAttempts {
      var slept' := slept + BackoffDelay(attempt, retry.baseDelayMs, w.random(attempt));
      if h'.StateOf().Closed? {
        FailingFrom(h', attempt + 1, invoked + 1, slept', w, cfg, retry);
      } else {
        assert w.clock(attempt + 1) - w.clock(attempt) < cfg.openDurationMs;
        assert Retrying(h', attempt + 1, invoked + 1, slept', w, cfg, retry).verdict == ServiceUnavailable;
      }
    }
  }

  /** A lone caller on a fresh circuit whose provider always fails, quick enough that neither the
      window nor the cool-down passes, calls the provider min(failureThreshold, maxAttempts)
      times, and is told the service is unavailable iff the threshold came first. */
  lemma FreshCircuitFailingProvider(w: World, cfg: Config, retry: RetryConfig)
    requires cfg.failureThreshold >= 1 && retry.maxAttempts >= 1 && AlwaysFails(w) && Alone(w)
    requires Quick(w, 1, retry, w.clock(1), Min(cfg.failureWindowMs, cfg.openDurationMs))
    ensures var o := Retrying(MISSING, 1, 0, 0.0, w, cfg, retry);
            && o.invoked == Min(cfg.failureThreshold, retry.maxAttempts)
            && (o.verdict == ServiceUnavailable <==> cfg.failureThreshold < retry.maxAttempts)
            && (o.verdict == ProviderError <==> cfg.failureThreshold >= retry.maxAttempts)
  {
    var h := MISSING.(windowStart := Some(w.clock(1)));
    FailingFrom(h, 1, 0, 0.0, w, cfg, retry);
    assert Call(MISSING, w.clock(1), false, cfg) == Call(h, w.clock(1), false, cfg);
  }

  /** slept is the backoff of n failed attempts: between base * (2^n - 1) and 1.5 times that. */
  ghost predicate InBand(slept: real, base: real, n: nat) {
    Between(slept, base * (Pow2(n) as real - 1.0))
  }

  ghost predicate Between(slept: real, floor: real) { floor <= slept <= 1.5 * floor }

  lemma BandGrows(slept: real, base: real, n: nat, random: real)
    requires base >= 0.0 && 0.0 <= random < 1.0 && InBand(slept, base, n)
    ensures InBand(slept + BackoffDelay(n + 1, base, random), base, n + 1)
  {
    NextDelay(slept, base, Pow2(n) as real, Pow2(n + 1) as real, random);
  }

  lemma NextDelay(slept: real, base: real, p: real, p2: real, random: real)
    requires base >= 0.0 && p >= 0.0 && p2 == 2.0 * p && 0.0 <= random < 1.0
    requires Between(slept, base * (p - 1.0))
    ensures Between(slept + (base * p + random * (base * p / 2.0)), base * (p2 - 1.0))
  {
    var e := base * p;
    MulNonNegative(base, p);
    var half := e / 2.0;
    MulUnit(random, half);
    OneMoreDelay(slept, base, p, p2, e, random * half);
  }

  lemma OneMoreDelay(slept: real, base: real, p: real, p2: real, e: real, jitter: real)
    requires p2 == 2.0 * p && e == base * p && 0.0 <= jitter <= e / 2.0
    requires Between(slept, base * (p - 1.0))
    ensures Between(slept + (e + jitter), base * (p2 - 1.0))
  {
    Doubling(base, p);
  }

  lemma MulNonNegative(x: real, y: real)
    requires x >= 0.0 && y >= 0.0
    ensures x * y >= 0.0
  {
  }

  lemma MulUnit(x: real, y: real)
    requires 0.0 <= x <= 1.0 && y >= 0.0
    ensures 0.0 <= x * y <= y
  {
  }

  lemma Doubling(base: real, p: real)
    ensures base * (p - 1.0) + base * p == base * (2.0 * p - 1.0)
  {
  }

  /** Whatever the world does, other callers of the breaker included: at most maxAttempts provider
      calls, the provider's error only after exactly maxAttempts of them, and a total backoff that is
      exponential in the number of attempts that were followed by another. */
  lemma {:induction false} BackoffIsExponential(
    h: Hash, attempt: nat, slept: real, w: World, cfg: Config, retry: RetryConfig)
    requires 1 <= attempt <= retry.maxAttempts && retry.baseDelayMs >= 0.0
    requires forall i :: 0.0 <= w.random(i) < 1.0
    requires InBand(slept, retry.baseDelayMs, attempt - 1)
    ensures var o := Retrying(h, attempt, attempt - 1, slept, w, cfg, retry);
            && attempt - 1 <= o.invoked <= retry.maxAttempts
            && (o.verdict == ProviderError ==> o.invoked == retry.maxAttempts)
            && (o.verdict != ServiceUnavailable ==> 1 <= o.invoked && InBand(o.slept, retry.baseDelayMs, o.invoked - 1))
            && (o.verdict == ServiceUnavailable ==> InBand(o.slept, retry.baseDelayMs, o.invoked))
    decreases retry.maxAttempts - attempt
  {
    var (h', r) := Call(w.others(attempt, h), w.clock(attempt), w.answers(attempt), cfg);
    if r == Threw && attempt < retry.maxAttempts {
      BandGrows(slept, retry.baseDelayMs, attempt - 1, w.random(attempt));
      var delay := BackoffDelay(attempt, retry.baseDelayMs, w.random(attempt));
      BackoffIsExponential(h', attempt + 1, slept + delay, w, cfg, retry);
    }
  }

  /** The whole call: n provider calls that all failed slept the n - 1 delays between them. */
  lemma TotalBackoff(h: Hash, w: World, cfg: Config, retry: RetryConfig)
    requires retry.maxAttempts >= 1 && retry.baseDelayMs >= 0.0
    requires forall i :: 0.0 <= w.random(i) < 1.0
    ensures var o := Retrying(h, 1, 0, 0.0, w, cfg, retry);
            o.verdict == ProviderError ==>
              o.invoked == retry.maxAttempts && InBand(o.slept, retry.baseDelayMs, retry.maxAttempts - 1)
  {
    BackoffIsExponential(h, 1, 0.0, w, cfg, retry);
  }

  // ---------------------------------------------------------------------------------------
  // How the call ends
  // ---------------------------------------------------------------------------------------

  /** The hash that attempt i finds, if all attempts from 1 on before it were made. */
  function HashAt(h: Hash, i: nat, w: World, cfg: Config): Hash
    requires i >= 1
  {
    w.others(i, if i == 1 then h else Call(HashAt(h, i - 1, w, cfg), w.clock(i - 1), w.answers(i - 1), cfg).0)
  }

  /** The breaker lets attempt i through to the provider. */
  predicate LetThrough(h: Hash, i: nat, w: World, cfg: Config)
    requires i >= 1
  {
    Attempt(HashAt(h, i, w, cfg), w.clock(i), cfg).allowed
  }

  /** The attempts before i were all let through, and the provider failed each. */
  ghost predicate AllFailedBefore(h: Hash, i: nat, w: World, cfg: Config) {
    forall j :: 1 <= j < i ==> Failed(h, j, w, cfg)
  }

  predicate Failed(h: Hash, i: nat, w: World, cfg: Config)
    requires i >= 1
  {
    LetThrough(h, i, w, cfg) && !w.answers(i)
  }

  /** The first n delays together. */
  function Delays(n: nat, w: World, retry: RetryConfig): real {
    if n == 0 then 0.0 else Delays(n - 1, w, retry) + BackoffDelay(n, retry.baseDelayMs, w.random(n))
  }

  /** The loop at attempt i, after attempts that all failed. */
  function LoopAt(h: Hash, i: nat, w: World, cfg: Config, retry: RetryConfig): Outcome
    requires 1 <= i <= retry.maxAttempts
  {
    var found := if i == 1 then h else Call(HashAt(h, i - 1, w, cfg), w.clock(i - 1), w.answers(i - 1), cfg).0;
    Retrying(found, i, i - 1, Delays(i - 1, w, retry), w, cfg, retry)
  }

  lemma LoopStep(h: Hash, i: nat, w: World, cfg: Config, retry: RetryConfig)
    requires 1 < i <= retry.maxAttempts && Failed(h, i - 1, w, cfg)
    ensures LoopAt(h, i - 1, w, cfg, retry) == LoopAt(h, i, w, cfg, retry)
  {
    var j := i - 1;
    var found := if j == 1 then h else Call(HashAt(h, j - 1, w, cfg), w.clock(j - 1), w.answers(j - 1), cfg).0;
    assert HashAt(h, j, w, cfg) == w.others(j, found);
    assert Call(HashAt(h, j, w, cfg), w.clock(j), false, cfg).1 == Threw;
    assert Delays(j, w, retry) == Delays(j - 1, w, retry) + BackoffDelay(j, retry.baseDelayMs, w.random(j));
  }

  lemma {:induction false} LoopReaches(h: Hash, i: nat, w: World, cfg: Config, retry: RetryConfig)
    requires 1 <= i <= retry.maxAttempts && AllFailedBefore(h, i, w, cfg)
    ensures Retrying(h, 1, 0, 0.0, w, cfg, retry) == LoopAt(h, i, w, cfg, retry)
    decreases i
  {
    if i > 1 {
      LoopReaches(h, i - 1, w, cfg, retry);
      LoopStep(h, i, w, cfg, retry);
    }
  }

  /** The call ends at attempt n: with the first one that the breaker rejects, the provider answers, or
      that is the last allowed. */
  ghost predicate EndsAt(h: Hash, n: nat, w: World, cfg: Config, retry: RetryConfig) {
    && 1 <= n <= retry.maxAttempts && AllFailedBefore(h, n, w, cfg)
    && (Failed(h, n, w, cfg) ==> n == retry.maxAttempts)
  }

  lemma {:induction false} EndFrom(h: Hash, i: nat, w: World, cfg: Config, retry: RetryConfig) returns (n: nat)
    requires 1 <= i <= retry.maxAttempts && AllFailedBefore(h, i, w, cfg)
    ensures EndsAt(h, n, w, cfg, retry)
    decreases retry.maxAttempts - i
  {
    if Failed(h, i, w, cfg) && i < retry.maxAttempts {
      OneMoreFailed(h, i, w, cfg);
      n := EndFrom(h, i + 1, w, cfg, retry);
    } else {
      n := i;
    }
  }

  lemma OneMoreFailed(h: Hash, i: nat, w: World, cfg: Config)
    requires 1 <= i && AllFailedBefore(h, i, w, cfg) && Failed(h, i, w, cfg)
    ensures AllFailedBefore(h, i + 1, w, cfg)
  {
  }

  /** In any world, with n the attempt at which the call ends: rejected there, it is unavailable after
      n - 1 provider calls; otherwise n calls were made and the last one's answer is the call's. It
      slept exactly the n - 1 delays in between. */
  lemma OutcomeIsExact(h: Hash, n: nat, w: World, cfg: Config, retry: RetryConfig)
    requires EndsAt(h, n, w, cfg, retry)
    ensures var o := Retrying(h, 1, 0, 0.0, w, cfg, retry);
            && o.verdict == (if !LetThrough(h, n, w, cfg) then ServiceUnavailable
                             else if w.answers(n) then Success else ProviderError)
            && o.invoked == (if LetThrough(h, n, w, cfg) then n else n - 1)
            && o.slept == Delays(n - 1, w, retry)
            && o.hash == Call(HashAt(h, n, w, cfg), w.clock(n), w.answers(n), cfg).0
  {
    LoopReaches(h, n, w, cfg, retry);
  }

  /** The call succeeds iff some attempt was let through and answered, all before it having been let
      through and failed; it ends in the provider's error iff all maxAttempts were let through and
      failed; and it is unavailable iff the breaker rejected an attempt after failures only. */
  lemma VerdictIff(h: Hash, w: World, cfg: Config, retry: RetryConfig)
    requires retry.maxAttempts >= 1
    ensures var v := Retrying(h, 1, 0, 0.0, w, cfg, retry).verdict;
            && (v == Success <==> exists i :: 1 <= i <= retry.maxAttempts && AllFailedBefore(h, i, w, cfg) &&
                                              LetThrough(h, i, w, cfg) && w.answers(i))
            && (v == ProviderError <==> AllFailedBefore(h, retry.maxAttempts + 1, w, cfg))
            && (v == ServiceUnavailable <==> exists i :: 1 <= i <= retry.maxAttempts &&
                                              AllFailedBefore(h, i, w, cfg) && !LetThrough(h, i, w, cfg))
  {
    var n := EndFrom(h, 1, w, cfg, retry);
    OutcomeIsExact(h, n, w, cfg, retry);
    forall i | 1 <= i <= retry.maxAttempts && AllFailedBefore(h, i, w, cfg) && !Failed(h, i, w, cfg)
      ensures i == n
    {
      OnlyEnd(h, i, n, w, cfg, retry);
    }
    if AllFailedBefore(h, retry.maxAttempts + 1, w, cfg) {
      assert Failed(h, n, w, cfg);
    }
    if Failed(h, n, w, cfg) {
      OneMoreFailed(h, n, w, cfg);
    }
  }

  lemma OnlyEnd(h: Hash, i: nat, n: nat, w: World, cfg: Config, retry: RetryConfig)
    requires EndsAt(h, i, w, cfg, retry) && EndsAt(h, n, w, cfg, retry)
    ensures i == n
  {
  }

  /** Delays double from one attempt to the next, start at the base, and jitter adds up to half: a
      random number r adds exactly r halves. */
  lemma BackoffIsDoublingWithJitter(attempt: nat, base: real, random: real)
    requires attempt >= 1
    ensures BackoffDelay(1, base, 0.0) == base
    ensures BackoffDelay(attempt + 1, base, random) == 2.0 * BackoffDelay(attempt, base, random)
    ensures BackoffDelay(attempt, base, random) ==
            BackoffDelay(attempt, base, 0.0) + random * (BackoffDelay(attempt, base, 0.0) / 2.0)
  {
    DoubledDelay(base, Pow2(attempt - 1) as real, Pow2(attempt) as real, random);
    assert Pow2(0) as real == 1.0;
  }

  lemma DoubledDelay(base: real, p: real, p2: real, random: real)
    requires p2 == 2.0 * p
    ensures base * p2 + random * (base * p2 / 2.0) == 2.0 * (base * p + random * (base * p / 2.0))
  {
    var e := base * p;
    assert base * p2 == 2.0 * e;
    JitterScales(random, e);
  }

  lemma JitterScales(random: real, e: real)
    ensures random * (2.0 * e / 2.0) == 2.0 * (random * (e / 2.0))
  {
  }
}
