/** What reports and attempts by anybody, in any order, do to a circuit in each of its states: the
    answers of the two scripts followed over whole stretches of events. */
module Cooldown {
  import opened Options
  import opened CircuitBreaker

  function RunFrom(h: Hash, es: seq<Event>, cfg: Config): Hash {
    if es == [] then h else Step(RunFrom(h, es[..|es| - 1], cfg), es[|es| - 1], cfg)
  }

  predicate IsFailure(e: Event) { e.Reporting? && !e.success }

  function FailuresIn(es: seq<Event>): nat {
    if es == [] then 0 else FailuresIn(es[..|es| - 1]) + if IsFailure(es[|es| - 1]) then 1 else 0
  }

  // ---------------------------------------------------------------------------------------
  // Open
  // ---------------------------------------------------------------------------------------

  /** When the circuit counts as opened after the events, having been opened at `openedAt` with
      `failures` on its count: only failures at or over the threshold re-date it, each to its own clock
      reading. */
  function Opening(openedAt: int, failures: int, es: seq<Event>, threshold: int): int {
    if es == [] then openedAt
    else if IsFailure(es[|es| - 1]) && failures + FailuresIn(es) >= threshold then es[|es| - 1].now
    else Opening(openedAt, failures, es[..|es| - 1], threshold)
  }

  function OpeningOf(h: Hash, es: seq<Event>, cfg: Config): int {
    Opening(h.OpenedAt(), h.Failures(), es, cfg.failureThreshold)
  }

  /** Only reports, of calls begun at any time, and attempts before the cool-down is over. */
  ghost predicate StillCooling(h: Hash, es: seq<Event>, cfg: Config) {
    forall i :: 0 <= i < |es| ==>
      es[i].Reporting? || (es[i].Attempting? && es[i].now < OpeningOf(h, es[..i], cfg) + cfg.openDurationMs)
  }

  lemma StillCoolingPrefix(h: Hash, es: seq<Event>, cfg: Config)
    requires es != [] && StillCooling(h, es, cfg)
    ensures StillCooling(h, es[..|es| - 1], cfg)
  {
    var n := |es| - 1;
    forall i | 0 <= i < n
      ensures es[..n][i].Reporting? ||
              (es[..n][i].Attempting? && es[..n][i].now < OpeningOf(h, es[..n][..i], cfg) + cfg.openDurationMs)
    {
      assert es[..n][..i] == es[..i];
    }
  }

  /** Through any such events an open circuit stays open, and the next attempt is let through, as the
      probe, iff openDurationMs has passed since the opening. (So every attempt among the events was
      rejected.) */
  lemma {:induction false} CooldownIsExact(h: Hash, es: seq<Event>, t: int, cfg: Config)
    requires h.StateOf().Open? && StillCooling(h, es, cfg)
    ensures var h' := RunFrom(h, es, cfg);
            && h'.StateOf().Open? && h'.OpenedAt() == OpeningOf(h, es, cfg)
            && h'.Failures() == h.Failures() + FailuresIn(es)
            && var a := Attempt(h', t, cfg);
               && (a.allowed <==> t >= OpeningOf(h, es, cfg) + cfg.openDurationMs)
               && a.seen == (if a.allowed then HalfOpen else Open)
               && a.hash.Failures() == h'.Failures()
  {
    if es != [] {
      var n := |es| - 1;
      StillCoolingPrefix(h, es, cfg);
      CooldownIsExact(h, es[..n], es[n].now, cfg);
    }
  }

  lemma {:induction false} OpeningStays(openedAt: int, failures: int, es: seq<Event>, threshold: int)
    requires failures + FailuresIn(es) < threshold
    ensures Opening(openedAt, failures, es, threshold) == openedAt
  {
    if es != [] {
      OpeningStays(openedAt, failures, es[..|es| - 1], threshold);
    }
  }

  /** In particular attempts, successes and failures below the threshold leave the cool-down alone. */
  lemma QuietReportsLeaveCooldown(h: Hash, es: seq<Event>, t: int, cfg: Config)
    requires h.StateOf().Open? && h.Failures() + FailuresIn(es) < cfg.failureThreshold
    requires StillCooling(h, es, cfg)
    ensures Attempt(RunFrom(h, es, cfg), t, cfg).allowed <==> t >= h.OpenedAt() + cfg.openDurationMs
  {
    CooldownIsExact(h, es, t, cfg);
    OpeningStays(h.OpenedAt(), h.Failures(), es, cfg.failureThreshold);
  }

  // ---------------------------------------------------------------------------------------
  // Half-open
  // ---------------------------------------------------------------------------------------

  /** While the probe is out, attempts are rejected and leave no trace. */
  lemma {:induction false} HalfOpenIsUndisturbed(h: Hash, es: seq<Event>, t: int, cfg: Config)
    requires h.StateOf().HalfOpen? && h.probeTaken == Some(true)
    requires forall i :: 0 <= i < |es| ==> es[i].Attempting?
    ensures RunFrom(h, es, cfg) == h && !Attempt(h, t, cfg).allowed
  {
    if es != [] {
      HalfOpenIsUndisturbed(h, es[..|es| - 1], es[|es| - 1].now, cfg);
    }
  }

  /** A failure reported to a half-open circuit starts a new cool-down at its own clock reading, and
      keeps the count of failures. */
  lemma FailedProbeReopens(h: Hash, now: int, es: seq<Event>, t: int, cfg: Config)
    requires h.StateOf().HalfOpen?
    requires StillCooling(Report(h, now, false, cfg).hash, es, cfg)
    ensures var h' := RunFrom(Report(h, now, false, cfg).hash, es, cfg);
            Attempt(h', t, cfg).allowed <==>
            t >= Opening(now, h.Failures(), es, cfg.failureThreshold) + cfg.openDurationMs
  {
    CooldownIsExact(Report(h, now, false, cfg).hash, es, t, cfg);
  }

  /** So does an operator's force-open, in any state. */
  lemma ForcedOpenCoolsDown(h: Hash, now: int, es: seq<Event>, t: int, cfg: Config)
    requires StillCooling(ForceOpen(h, now), es, cfg)
    ensures Attempt(RunFrom(ForceOpen(h, now), es, cfg), t, cfg).allowed <==>
            t >= Opening(now, h.Failures(), es, cfg.failureThreshold) + cfg.openDurationMs
  {
    CooldownIsExact(ForceOpen(h, now), es, t, cfg);
  }

  // ---------------------------------------------------------------------------------------
  // Closed
  // ---------------------------------------------------------------------------------------

  /** Only reports, of calls begun at any time, and attempts before the window is over. */
  ghost predicate InWindow(from: int, es: seq<Event>, cfg: Config) {
    forall i :: 0 <= i < |es| ==>
      es[i].Reporting? || (es[i].Attempting? && es[i].now <= from + cfg.failureWindowMs)
  }

  /** Through any such events with fewer failures than the threshold allows, a closed circuit stays
      closed and lets everybody through; the failures are counted, one each, and nothing else is. */
  lemma {:induction false} ClosedCountsFailures(h: Hash, es: seq<Event>, t: int, cfg: Config)
    requires h.StateOf().Closed? && h.windowStart.Some? && InWindow(h.windowStart.value, es, cfg)
    requires h.Failures() + FailuresIn(es) < cfg.failureThreshold
    ensures var h' := RunFrom(h, es, cfg);
            && h'.StateOf().Closed? && h'.windowStart == h.windowStart
            && h'.Failures() == h.Failures() + FailuresIn(es)
            && Attempt(h', t, cfg).allowed && Attempt(h', t, cfg).seen == Closed
  {
    if es != [] {
      var n := |es| - 1;
      assert FailuresIn(es[..n]) <= FailuresIn(es);
      ClosedCountsFailures(h, es[..n], t, cfg);
    }
  }

  /** The failure that reaches the threshold opens the circuit, from its own clock reading on. */
  lemma LastFailureOpens(h: Hash, es: seq<Event>, now: int, later: seq<Event>, t: int, cfg: Config)
    requires h.StateOf().Closed? && h.windowStart.Some? && InWindow(h.windowStart.value, es, cfg)
    requires h.Failures() + FailuresIn(es) + 1 == cfg.failureThreshold
    requires StillCooling(Report(RunFrom(h, es, cfg), now, false, cfg).hash, later, cfg)
    ensures var tripped := Report(RunFrom(h, es, cfg), now, false, cfg).hash;
            Attempt(RunFrom(tripped, later, cfg), t, cfg).allowed <==>
            t >= Opening(now, cfg.failureThreshold, later, cfg.failureThreshold) + cfg.openDurationMs
  {
    ClosedCountsFailures(h, es, t, cfg);
    CooldownIsExact(Report(RunFrom(h, es, cfg), now, false, cfg).hash, later, t, cfg);
  }

  /** A success reported to a half-open circuit begins a window with the whole allowance. */
  lemma SuccessfulProbeCloses(h: Hash, now: int, es: seq<Event>, t: int, cfg: Config)
    requires h.StateOf().HalfOpen? && FailuresIn(es) < cfg.failureThreshold
    requires InWindow(now, es, cfg)
    ensures var h' := RunFrom(Report(h, now, true, cfg).hash, es, cfg);
            && h'.StateOf().Closed? && h'.Failures() == FailuresIn(es) && h'.windowStart == Some(now)
            && Attempt(h', t, cfg).allowed
  {
    ClosedCountsFailures(Report(h, now, true, cfg).hash, es, t, cfg);
  }

  /** An attempt after the window begins a new one: the failures of the old one are forgotten, and the
      reports of its calls count against the new one. */
  lemma RolloverBeginsAnew(h: Hash, now: int, es: seq<Event>, t: int, cfg: Config)
    requires h.StateOf().Closed? && h.windowStart.Some? && now > h.windowStart.value + cfg.failureWindowMs
    requires FailuresIn(es) < cfg.failureThreshold && InWindow(now, es, cfg)
    ensures var h' := RunFrom(Attempt(h, now, cfg).hash, es, cfg);
            && h'.StateOf().Closed? && h'.Failures() == FailuresIn(es) && h'.windowStart == Some(now)
            && Attempt(h', t, cfg).allowed
  {
    ClosedCountsFailures(Attempt(h, now, cfg).hash, es, t, cfg);
  }

  /** A success whose report's reply is lost counts as a failure: in a closed circuit the call is as one
      that failed, and a probe closes the circuit with one failure on its count, or trips it again. */
  lemma LostReplyCountsAsFailure(h: Hash, now: int, cfg: Config)
    ensures h.StateOf().Closed? ==> CallReplyLost(h, now, cfg) == Call(h, now, false, cfg)
    ensures h.StateOf().Open? && now >= h.OpenedAt() + cfg.openDurationMs ==>
              var (h', r) := CallReplyLost(h, now, cfg);
              && r == Threw && h'.Failures() == 1
              && h'.StateOf() == (if cfg.failureThreshold > 1 then Closed else Open)
  {
  }
}
