/** When "exactly one probe" is true of calls and not only of admissions.

    A half-open circuit admits one call, but calls let through earlier may still be running and may
    report in its place. This module adds the calls in flight and a clock to the breaker, and finds
    the condition on the configuration under which that cannot happen. */
module ProbeExclusion {
  import opened Options
  import opened CircuitBreaker

  /** `flight` gives each admitted call that has not ended the clock reading it began with, `probe` the
      call last admitted as the half-open probe, and `probes` those whose latest admission was as one. */
  datatype System = System(hash: Hash, clock: int, flight: map<nat, int>, probe: Option<nat>, probes: set<nat>)

  const START := System(MISSING, 0, map[], None, {})

  /** `at` is when the script runs; `now` is the clock reading it is passed, taken before. */
  datatype Move =
    | Start(id: nat, now: int, at: int)
    | Finish(id: nat, success: bool, at: int)
    | Die(id: nat, at: int)                    // the caller crashes and will not report
    | Force(now: int, at: int)
    | Drop(at: int)                            // a reset, or the key expiring

  /** The move is possible in s: time goes forward, and nobody takes longer than `limit` from its
      clock reading to its last script, or to its death. */
  ghost predicate Timely(s: System, m: Move, limit: int) {
    && s.clock <= m.at
    && (forall i :: i in s.flight ==> m.at <= s.flight[i] + limit)
    && (m.Start? ==> m.id !in s.flight && m.now <= m.at <= m.now + limit)
    && (m.Finish? ==> m.id in s.flight)
    && (m.Force? ==> m.now <= m.at <= m.now + limit)
  }

  function Apply(s: System, m: Move, cfg: Config): System {
    match m
    case Start(id, now, at) =>
      var a := Attempt(s.hash, now, cfg);
      if !a.allowed then s.(hash := a.hash, clock := at)
      else if a.seen.HalfOpen? then System(a.hash, at, s.flight[id := now], Some(id), s.probes + {id})
      else System(a.hash, at, s.flight[id := now], s.probe, s.probes - {id})
    case Finish(id, success, at) =>
      if id !in s.flight then s
      else s.(hash := Report(s.hash, s.flight[id], success, cfg).hash, clock := at, flight := s.flight - {id})
    case Die(id, at) => s.(clock := at, flight := s.flight - {id})
    case Force(now, at) => s.(hash := ForceOpen(s.hash, now), clock := at)
    case Drop(at) => s.(hash := MISSING, clock := at)
  }

  function Run(moves: seq<Move>, cfg: Config): System {
    if moves == [] then START else Apply(Run(moves[..|moves| - 1], cfg), moves[|moves| - 1], cfg)
  }

  ghost predicate TimelyRun(moves: seq<Move>, cfg: Config, limit: int) {
    moves == [] ||
    (TimelyRun(moves[..|moves| - 1], cfg, limit) &&
     Timely(Run(moves[..|moves| - 1], cfg), moves[|moves| - 1], limit))
  }

  /** While the circuit is half-open, no call but the probe is in flight. */
  ghost predicate ProbeAlone(s: System) {
    s.hash.StateOf().HalfOpen? ==> forall i :: i in s.flight ==> s.probe == Some(i)
  }

  /** Never two probes at once. */
  ghost predicate OneProbe(s: System) {
    forall i, j :: i in s.flight && j in s.flight && i in s.probes && j in s.probes ==> i == j
  }

  /** While it is open, the calls still in flight began at most `limit` after openedAt. */
  ghost predicate Draining(s: System, limit: int) {
    s.hash.StateOf().Open? ==> forall i :: i in s.flight ==> s.flight[i] <= s.hash.OpenedAt() + limit
  }

  ghost predicate Inv(s: System, limit: int) {
    && ProbeAlone(s) && OneProbe(s) && Draining(s, limit)
    && (s.hash.StateOf().HalfOpen? ==> s.hash.probeTaken == Some(true))
    && (forall i :: i in s.flight ==> s.flight[i] <= s.clock)
  }

  /** By the time an open circuit lets a probe through, every call it had admitted before has ended. */
  lemma ProbeStartsAlone(s: System, m: Move, cfg: Config, limit: int)
    requires cfg.openDurationMs > 2 * limit && Inv(s, limit) && Timely(s, m, limit) && m.Start?
    requires var a := Attempt(s.hash, m.now, cfg); a.allowed && a.seen.HalfOpen?
    ensures s.flight == map[]
  {
    forall i | i in s.flight
      ensures false
    {
      assert s.flight[i] <= s.hash.OpenedAt() + limit;
    }
  }

  lemma StepKeepsInv(s: System, m: Move, cfg: Config, limit: int)
    requires cfg.openDurationMs > 2 * limit
    requires Inv(s, limit) && Timely(s, m, limit)
    ensures Inv(Apply(s, m, cfg), limit)
  {
    if m.Start? {
      var a := Attempt(s.hash, m.now, cfg);
      if a.allowed && a.seen.HalfOpen? {
        ProbeStartsAlone(s, m, cfg, limit);
      }
    }
  }

  lemma {:induction false} TimelyRunsKeepInv(moves: seq<Move>, cfg: Config, limit: int)
    requires cfg.openDurationMs > 2 * limit && TimelyRun(moves, cfg, limit)
    ensures Inv(Run(moves, cfg), limit)
  {
    if moves != [] {
      TimelyRunsKeepInv(moves[..|moves| - 1], cfg, limit);
      StepKeepsInv(Run(moves[..|moves| - 1], cfg), moves[|moves| - 1], cfg, limit);
    }
  }

  /** So a report that finds the circuit half-open, and closes it or opens it again, is the probe's
      own. */
  lemma HalfOpenIsDecidedByItsProbe(moves: seq<Move>, cfg: Config, limit: int)
    requires cfg.openDurationMs > 2 * limit && TimelyRun(moves, cfg, limit) && moves != []
    requires moves[|moves| - 1].Finish? && Run(moves[..|moves| - 1], cfg).hash.StateOf().HalfOpen?
    ensures Run(moves[..|moves| - 1], cfg).probe == Some(moves[|moves| - 1].id)
    ensures Run(moves, cfg).flight == map[]
  {
    TimelyRunsKeepInv(moves[..|moves| - 1], cfg, limit);
  }

  // ---------------------------------------------------------------------------------------
  // The bound is exact
  // ---------------------------------------------------------------------------------------

  lemma Extend(moves: seq<Move>, m: Move, cfg: Config, limit: int)
    requires TimelyRun(moves, cfg, limit) && Timely(Run(moves, cfg), m, limit)
    ensures TimelyRun(moves + [m], cfg, limit)
    ensures Run(moves + [m], cfg) == Apply(Run(moves, cfg), m, cfg)
  {
    assert (moves + [m])[..|moves|] == moves;
  }

  /** Call 1 began at `limit` and runs on; k calls that had read the clock at 0 have failed since. */
  ghost predicate Failing(s: System, k: int, cfg: Config, limit: int) {
    && s.clock == limit && s.flight == map[1 := limit]
    && s.hash.Failures() == k && s.hash.windowStart == Some(limit)
    && s.hash.StateOf() == (if k < cfg.failureThreshold then Closed else Open)
    && (k == cfg.failureThreshold ==> s.hash.OpenedAt() == 0)
  }

  lemma OneMoreFailure(s: System, k: int, cfg: Config, limit: int)
    requires 0 <= k < cfg.failureThreshold && 0 <= limit && 0 <= cfg.failureWindowMs
    requires Failing(s, k, cfg, limit)
    ensures var m, m' := Start(0, 0, limit), Finish(0, false, limit);
            && Timely(s, m, limit) && Timely(Apply(s, m, cfg), m', limit)
            && Failing(Apply(Apply(s, m, cfg), m', cfg), k + 1, cfg, limit)
  {
    var a := Apply(s, Start(0, 0, limit), cfg);
    assert a.flight == map[1 := limit, 0 := 0];
    assert a.flight - {0} == map[1 := limit];
  }

  lemma {:induction false} Overtaken(k: nat, cfg: Config, limit: int) returns (moves: seq<Move>)
    requires k <= cfg.failureThreshold && 1 <= cfg.failureThreshold && 0 <= limit && 0 <= cfg.failureWindowMs
    ensures TimelyRun(moves, cfg, limit) && Failing(Run(moves, cfg), k, cfg, limit)
    decreases k
  {
    if k == 0 {
      Extend([], Start(1, limit, limit), cfg, limit);
      moves := [] + [Start(1, limit, limit)];
      assert Run([], cfg) == START;
    } else {
      moves := Overtaken(k - 1, cfg, limit);
      OneMoreFailure(Run(moves, cfg), k - 1, cfg, limit);
      Extend(moves, Start(0, 0, limit), cfg, limit);
      moves := moves + [Start(0, 0, limit)];
      Extend(moves, Finish(0, false, limit), cfg, limit);
      moves := moves + [Finish(0, false, limit)];
    }
  }

  /** With a shorter cool-down, the probe can start beside a call let through before the trip. */
  lemma ShortCooldownOverlaps(cfg: Config, limit: int) returns (moves: seq<Move>)
    requires cfg.openDurationMs <= 2 * limit
    requires 1 <= cfg.failureThreshold && 0 <= limit && 0 <= cfg.failureWindowMs
    ensures TimelyRun(moves, cfg, limit) && !ProbeAlone(Run(moves, cfg))
  {
    moves := Overtaken(cfg.failureThreshold, cfg, limit);
    var s, t := Run(moves, cfg), if cfg.openDurationMs > limit then cfg.openDurationMs else limit;
    Extend(moves, Start(2, t, t), cfg, limit);
    moves := moves + [Start(2, t, t)];
    assert 1 in Run(moves, cfg).flight && Run(moves, cfg).probe == Some(2);
  }

  /** If no call takes longer than `limit`, then a half-open circuit never has another call in
      flight beside its probe, in any run, exactly when openDurationMs > 2 * limit. It takes twice
      the limit because a trip dates the opening back to the clock reading of the failed call, and
      calls begun up to `limit` later were still let through. */
  lemma ProbeRunsAloneIff(cfg: Config, limit: int)
    requires 1 <= cfg.failureThreshold && 0 <= limit && 0 <= cfg.failureWindowMs
    ensures (forall moves :: TimelyRun(moves, cfg, limit) ==> ProbeAlone(Run(moves, cfg)))
            <==> cfg.openDurationMs > 2 * limit
  {
    if cfg.openDurationMs > 2 * limit {
      forall moves | TimelyRun(moves, cfg, limit)
        ensures ProbeAlone(Run(moves, cfg))
      {
        TimelyRunsKeepInv(moves, cfg, limit);
      }
    } else {
      var moves := ShortCooldownOverlaps(cfg, limit);
    }
  }

  lemma TwoProbesStart(s: System, cfg: Config, limit: int, t: int)
    requires cfg.openDurationMs <= 2 * limit && 1 <= cfg.failureThreshold && 0 <= limit
    requires Failing(s, cfg.failureThreshold, cfg, limit)
    requires limit + cfg.openDurationMs <= t && 2 * limit <= t <= 3 * limit
    ensures var m, m', m'' := Start(2, 2 * limit, 2 * limit), Finish(1, false, 2 * limit), Start(3, t, t);
            var u, u' := Apply(s, m, cfg), Apply(Apply(s, m, cfg), m', cfg);
            && Timely(s, m, limit) && Timely(u, m', limit) && Timely(u', m'', limit)
            && !OneProbe(Apply(u', m'', cfg))
  {
    var u := Apply(s, Start(2, 2 * limit, 2 * limit), cfg);
    assert u.flight == map[1 := limit, 2 := 2 * limit] && 2 in u.probes && u.hash.StateOf().HalfOpen?;
    var u' := Apply(u, Finish(1, false, 2 * limit), cfg);
    assert u'.flight == map[2 := 2 * limit] && 2 in u'.probes;
    assert u'.hash.StateOf().Open? && u'.hash.OpenedAt() == limit;
    var v := Apply(u', Start(3, t, t), cfg);
    assert 2 in v.flight && 3 in v.flight && 2 in v.probes && 3 in v.probes;
  }

  /** With a shorter cool-down the older call's report can end half-open under the probe, early enough
      for a second probe to join it. */
  lemma ShortCooldownAdmitsTwoProbes(cfg: Config, limit: int) returns (moves: seq<Move>)
    requires cfg.openDurationMs <= 2 * limit
    requires 1 <= cfg.failureThreshold && 0 <= limit && 0 <= cfg.failureWindowMs
    ensures TimelyRun(moves, cfg, limit) && !OneProbe(Run(moves, cfg))
  {
    moves := Overtaken(cfg.failureThreshold, cfg, limit);
    var t := if cfg.openDurationMs > limit then limit + cfg.openDurationMs else 2 * limit;
    TwoProbesStart(Run(moves, cfg), cfg, limit, t);
    Extend(moves, Start(2, 2 * limit, 2 * limit), cfg, limit);
    moves := moves + [Start(2, 2 * limit, 2 * limit)];
    Extend(moves, Finish(1, false, 2 * limit), cfg, limit);
    moves := moves + [Finish(1, false, 2 * limit)];
    Extend(moves, Start(3, t, t), cfg, limit);
    moves := moves + [Start(3, t, t)];
  }

  /** The same bound is exact for the narrower promise: under it two probes never run at once, in any
      run, and only under it. */
  lemma OneProbeIff(cfg: Config, limit: int)
    requires 1 <= cfg.failureThreshold && 0 <= limit && 0 <= cfg.failureWindowMs
    ensures (forall moves :: TimelyRun(moves, cfg, limit) ==> OneProbe(Run(moves, cfg)))
            <==> cfg.openDurationMs > 2 * limit
  {
    if cfg.openDurationMs > 2 * limit {
      forall moves | TimelyRun(moves, cfg, limit)
        ensures OneProbe(Run(moves, cfg))
      {
        TimelyRunsKeepInv(moves, cfg, limit);
      }
    } else {
      var moves := ShortCooldownAdmitsTwoProbes(cfg, limit);
    }
  }
}
