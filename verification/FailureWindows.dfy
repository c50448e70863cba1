/** How the breaker counts failures over time: in windows that begin with a call and do not roll. */
module FailureWindows {
  import opened Options
  import opened CircuitBreaker

  /** The hash after a sequence of calls. */
  function AfterCalls(h: Hash, calls: seq<Action>, cfg: Config): Hash
    decreases |calls|
  {
    if calls == [] then h else AfterCalls(Act(h, calls[0], cfg), calls[1..], cfg)
  }

  lemma {:induction false} TripsAppend(h: Hash, a: seq<Action>, b: seq<Action>, cfg: Config)
    requires forall i :: 0 <= i < |a| ==> a[i].Calling?
    requires forall i :: 0 <= i < |b| ==> b[i].Calling?
    ensures Trips(h, a + b, cfg) <==> Trips(h, a, cfg) || Trips(AfterCalls(h, a, cfg), b, cfg)
    decreases |a|
  {
    if a == [] {
      assert a + b == b;
    } else {
      TripsAppend(Act(h, a[0], cfg), a[1..], b, cfg);
      assert (a + b)[1..] == a[1..] + b;
    }
  }

  lemma {:induction false} UntrippedStaysClosed(h: Hash, calls: seq<Action>, cfg: Config)
    requires h.StateOf().Closed? && h.windowStart.Some?
    requires CallsWithin(calls, 0, h.windowStart.value, h.windowStart.value + cfg.failureWindowMs)
    requires !Trips(h, calls, cfg)
    ensures var h' := AfterCalls(h, calls, cfg); h'.StateOf().Closed? && h'.windowStart == h.windowStart
    decreases |calls|
  {
    if calls != [] {
      UntrippedStaysClosed(Act(h, calls[0], cfg), calls[1..], cfg);
    }
  }

  /** A first call after the window has passed starts a new one with no failures. */
  lemma RolloverForgets(h: Hash, calls: seq<Action>, cfg: Config)
    requires h.StateOf().Closed? && h.windowStart.Some? && cfg.failureWindowMs >= 0 && cfg.failureThreshold >= 1
    requires calls != [] && calls[0].Calling? && calls[0].now > h.windowStart.value + cfg.failureWindowMs
    requires CallsWithin(calls, 0, calls[0].now, calls[0].now + cfg.failureWindowMs)
    ensures Trips(h, calls, cfg) <==> FailedCalls(calls) >= cfg.failureThreshold
  {
    assert Act(Renewed(h, calls[0].now), calls[0], cfg) == Act(h, calls[0], cfg);
    TripsExactlyAtThreshold(Renewed(h, calls[0].now), calls, cfg);
  }

  /** Calls that cross the end of a window, `later` being those from the first one begun after it on:
      the failures on the two sides are not added up. The circuit trips iff one side alone reaches the
      threshold. */
  lemma TripsAcrossRollover(h: Hash, earlier: seq<Action>, later: seq<Action>, cfg: Config)
    requires h.StateOf().Closed? && h.windowStart.Some? && cfg.failureWindowMs >= 0
    requires 0 <= h.Failures() < cfg.failureThreshold
    requires CallsWithin(earlier, 0, h.windowStart.value, h.windowStart.value + cfg.failureWindowMs)
    requires later != [] && later[0].Calling? && later[0].now > h.windowStart.value + cfg.failureWindowMs
    requires CallsWithin(later, 0, later[0].now, later[0].now + cfg.failureWindowMs)
    ensures Trips(h, earlier + later, cfg) <==>
            (h.Failures() + FailedCalls(earlier) >= cfg.failureThreshold || FailedCalls(later) >= cfg.failureThreshold)
  {
    TripsAppend(h, earlier, later, cfg);
    TripsExactlyAtThreshold(h, earlier, cfg);
    if !Trips(h, earlier, cfg) {
      UntrippedStaysClosed(h, earlier, cfg);
      RolloverForgets(AfterCalls(h, earlier, cfg), later, cfg);
    }
  }

  lemma {:induction false} FailedCallsAppend(a: seq<Action>, b: seq<Action>)
    ensures FailedCalls(a + b) == FailedCalls(a) + FailedCalls(b)
  {
    if b == [] {
      assert a + b == a;
    } else {
      FailedCallsAppend(a, b[..|b| - 1]);
      assert (a + b)[..|a + b| - 1] == a + b[..|b| - 1];
    }
  }

  /** How many calls of the sequence begin no later than `end`, up to the first that does. */
  function Fitting(calls: seq<Action>, end: int): (p: nat)
    requires forall i :: 0 <= i < |calls| ==> calls[i].Calling?
    ensures p <= |calls|
    ensures forall i :: 0 <= i < p ==> calls[i].now <= end
    ensures p < |calls| ==> calls[p].now > end
  {
    if calls == [] || calls[0].now > end then 0 else 1 + Fitting(calls[1..], end)
  }

  /** The calls cut into windows: the first began at `from`, each further one begins with the first call
      made more than failureWindowMs after the beginning of the one before. */
  function WindowsOf(calls: seq<Action>, from: int, cfg: Config): seq<seq<Action>>
    requires cfg.failureWindowMs >= 0 && forall i :: 0 <= i < |calls| ==> calls[i].Calling?
    decreases |calls|, calls != [] && calls[0].now > from + cfg.failureWindowMs
  {
    var p := Fitting(calls, from + cfg.failureWindowMs);
    if p == |calls| then [calls] else [calls[..p]] + WindowsOf(calls[p..], calls[p].now, cfg)
  }

  /** Some window holds enough failures, `before` being those the first one had already. */
  ghost predicate SomeFull(ws: seq<seq<Action>>, before: int, threshold: int) {
    exists i :: 0 <= i < |ws| && FailedCalls(ws[i]) + (if i == 0 then before else 0) >= threshold
  }

  lemma SomeFullCons(w: seq<Action>, ws: seq<seq<Action>>, before: int, threshold: int)
    ensures SomeFull([w] + ws, before, threshold)
            <==> FailedCalls(w) + before >= threshold || SomeFull(ws, 0, threshold)
  {
    var all := [w] + ws;
    if FailedCalls(w) + before >= threshold {
      assert all[0] == w;
    }
    if i :| 0 <= i < |ws| && FailedCalls(ws[i]) + (if i == 0 then 0 else 0) >= threshold {
      assert all[i + 1] == ws[i];
    }
    if i :| 0 <= i < |all| && FailedCalls(all[i]) + (if i == 0 then before else 0) >= threshold && i > 0 {
      assert all[i] == ws[i - 1];
    }
  }

  /** The hash at the beginning of a new window. */
  function Renewed(h: Hash, now: int): Hash { h.(failures := Some(0), windowStart := Some(now)) }

  /** The first call after the window starts a new one, on which alone everything further depends. */
  lemma RenewedTripsAlike(h: Hash, calls: seq<Action>, cfg: Config)
    requires h.StateOf().Closed? && h.windowStart.Some? && cfg.failureWindowMs >= 0
    requires calls != [] && forall i :: 0 <= i < |calls| ==> calls[i].Calling?
    requires calls[0].now > h.windowStart.value + cfg.failureWindowMs
    ensures Trips(h, calls, cfg) <==> Trips(Renewed(h, calls[0].now), calls, cfg)
  {
    assert Act(Renewed(h, calls[0].now), calls[0], cfg) == Act(h, calls[0], cfg);
  }

  lemma OrderedTail(calls: seq<Action>, p: nat)
    requires p < |calls| && InOrder(calls) && forall i :: 0 <= i < |calls| ==> calls[i].Calling?
    ensures InOrder(calls[p..])
    ensures forall i :: 0 <= i < |calls| - p ==> calls[p].now <= calls[p..][i].now
  {
  }

  lemma OneWindow(h: Hash, calls: seq<Action>, cfg: Config)
    requires h.StateOf().Closed? && h.windowStart.Some? && 0 <= h.Failures() < cfg.failureThreshold
    requires cfg.failureWindowMs >= 0
    requires CallsWithin(calls, 0, h.windowStart.value, h.windowStart.value + cfg.failureWindowMs)
    ensures Trips(h, calls, cfg)
            <==> SomeFull(WindowsOf(calls, h.windowStart.value, cfg), h.Failures(), cfg.failureThreshold)
  {
    TripsExactlyAtThreshold(h, calls, cfg);
    assert Fitting(calls, h.windowStart.value + cfg.failureWindowMs) == |calls|;
    assert WindowsOf(calls, h.windowStart.value, cfg) == [calls] + [];
    SomeFullCons(calls, [], h.Failures(), cfg.failureThreshold);
  }

  /** The first window's calls are counted apart from the rest. */
  lemma FirstWindowApart(h: Hash, calls: seq<Action>, p: nat, cfg: Config)
    requires h.StateOf().Closed? && h.windowStart.Some? && 0 <= h.Failures() < cfg.failureThreshold
    requires cfg.failureWindowMs >= 0 && p < |calls| && forall i :: 0 <= i < |calls| ==> calls[i].Calling?
    requires p == Fitting(calls, h.windowStart.value + cfg.failureWindowMs)
    requires CallsWithin(calls[..p], 0, h.windowStart.value, h.windowStart.value + cfg.failureWindowMs)
    ensures SomeFull(WindowsOf(calls, h.windowStart.value, cfg), h.Failures(), cfg.failureThreshold)
            <==> (Trips(h, calls[..p], cfg)
                  || SomeFull(WindowsOf(calls[p..], calls[p].now, cfg), 0, cfg.failureThreshold))
  {
    TripsExactlyAtThreshold(h, calls[..p], cfg);
    SomeFullCons(calls[..p], WindowsOf(calls[p..], calls[p].now, cfg), h.Failures(), cfg.failureThreshold);
  }

  /** They trip the circuit on their own, or leave the rest to a renewed one. */
  lemma FirstWindowRuns(h: Hash, first: seq<Action>, rest: seq<Action>, cfg: Config)
    requires h.StateOf().Closed? && h.windowStart.Some? && cfg.failureWindowMs >= 0
    requires CallsWithin(first, 0, h.windowStart.value, h.windowStart.value + cfg.failureWindowMs)
    requires rest != [] && forall i :: 0 <= i < |rest| ==> rest[i].Calling?
    requires rest[0].now > h.windowStart.value + cfg.failureWindowMs
    ensures Trips(h, first, cfg) ==> Trips(h, first + rest, cfg)
    ensures !Trips(h, first, cfg) ==>
              var h' := AfterCalls(h, first, cfg);
              && h'.StateOf().Closed?
              && (Trips(h, first + rest, cfg) <==> Trips(Renewed(h', rest[0].now), rest, cfg))
  {
    TripsAppend(h, first, rest, cfg);
    if !Trips(h, first, cfg) {
      UntrippedStaysClosed(h, first, cfg);
      RenewedTripsAlike(AfterCalls(h, first, cfg), rest, cfg);
    }
  }

  lemma FirstWindowCut(h: Hash, calls: seq<Action>, p: nat, cfg: Config)
    requires h.StateOf().Closed? && h.windowStart.Some? && cfg.failureWindowMs >= 0
    requires p < |calls| && forall i :: 0 <= i < |calls| ==> calls[i].Calling?
    requires CallsWithin(calls[..p], 0, h.windowStart.value, h.windowStart.value + cfg.failureWindowMs)
    requires calls[p].now > h.windowStart.value + cfg.failureWindowMs
    ensures Trips(h, calls[..p], cfg) ==> Trips(h, calls, cfg)
    ensures !Trips(h, calls[..p], cfg) ==>
              var h' := AfterCalls(h, calls[..p], cfg);
              && h'.StateOf().Closed?
              && (Trips(h, calls, cfg) <==> Trips(Renewed(h', calls[p].now), calls[p..], cfg))
  {
    assert calls[..p] + calls[p..] == calls;
    FirstWindowRuns(h, calls[..p], calls[p..], cfg);
  }

  /** Any sequence of calls in clock order trips a closed circuit iff one of its windows holds
      failureThreshold failures. */
  lemma {:induction false} TripsIffAWindowIsFull(h: Hash, calls: seq<Action>, cfg: Config)
    requires h.StateOf().Closed? && h.windowStart.Some? && 0 <= h.Failures() < cfg.failureThreshold
    requires cfg.failureWindowMs >= 0 && InOrder(calls)
    requires forall i :: 0 <= i < |calls| ==> calls[i].Calling? && h.windowStart.value <= calls[i].now
    ensures Trips(h, calls, cfg)
            <==> SomeFull(WindowsOf(calls, h.windowStart.value, cfg), h.Failures(), cfg.failureThreshold)
    decreases |calls|, calls != [] && calls[0].now > h.windowStart.value + cfg.failureWindowMs
  {
    var from := h.windowStart.value;
    var p := Fitting(calls, from + cfg.failureWindowMs);
    if p == |calls| {
      OneWindow(h, calls, cfg);
    } else {
      FirstWindowApart(h, calls, p, cfg);
      FirstWindowCut(h, calls, p, cfg);
      if !Trips(h, calls[..p], cfg) {
        OrderedTail(calls, p);
        var renewed := Renewed(AfterCalls(h, calls[..p], cfg), calls[p].now);
        TripsIffAWindowIsFull(renewed, calls[p..], cfg);
      }
    }
  }

  /** From a missing key, the first window begins with the first call. */
  lemma FreshCircuitTripsIff(calls: seq<Action>, cfg: Config)
    requires cfg.failureThreshold >= 1 && cfg.failureWindowMs >= 0 && InOrder(calls) && calls != []
    requires forall i :: 0 <= i < |calls| ==> calls[i].Calling?
    ensures Trips(MISSING, calls, cfg)
            <==> SomeFull(WindowsOf(calls, calls[0].now, cfg), 0, cfg.failureThreshold)
  {
    var h := MISSING.(windowStart := Some(calls[0].now));
    assert Act(h, calls[0], cfg) == Act(MISSING, calls[0], cfg);
    TripsIffAWindowIsFull(h, calls, cfg);
  }

  /** p is the first call begun after the window that started at `from` has passed, if there is one. */
  ghost predicate SplitsAtEnd(calls: seq<Action>, p: nat, from: int, cfg: Config) {
    && p <= |calls|
    && (forall i :: 0 <= i < p ==> calls[i].Calling? && calls[i].now <= from + cfg.failureWindowMs)
    && (p < |calls| ==> calls[p].Calling? && calls[p].now > from + cfg.failureWindowMs)
  }

  /** So failureThreshold failures within failureWindowMs of each other, on which a rolling window would
      trip, trip the circuit iff they all lie on the same side of the end of its window. */
  lemma RollingTripsIff(h: Hash, calls: seq<Action>, p: nat, cfg: Config)
    requires h.StateOf().Closed? && h.windowStart.Some? && h.Failures() == 0
    requires cfg.failureWindowMs >= 0 && cfg.failureThreshold >= 1
    requires calls != [] && calls[0].Calling? && h.windowStart.value <= calls[0].now
    requires InOrder(calls) && CallsWithin(calls, 0, calls[0].now, calls[0].now + cfg.failureWindowMs)
    requires FailedCalls(calls) == cfg.failureThreshold && SplitsAtEnd(calls, p, h.windowStart.value, cfg)
    ensures Trips(h, calls, cfg) <==> FailedCalls(calls[..p]) == 0 || FailedCalls(calls[p..]) == 0
  {
    if p == |calls| {
      assert calls[..p] == calls && FailedCalls(calls[p..]) == 0;
      TripsExactlyAtThreshold(h, calls, cfg);
    } else {
      assert CallsWithin(calls[..p], 0, h.windowStart.value, h.windowStart.value + cfg.failureWindowMs);
      TailWithin(calls, p, cfg);
      SidesAreApart(h, calls, calls[..p], calls[p..], cfg);
    }
  }

  lemma TailWithin(calls: seq<Action>, p: nat, cfg: Config)
    requires p < |calls| && InOrder(calls)
    requires calls[0].Calling? && CallsWithin(calls, 0, calls[0].now, calls[0].now + cfg.failureWindowMs)
    ensures calls[p].Calling? && CallsWithin(calls[p..], 0, calls[p].now, calls[p].now + cfg.failureWindowMs)
  {
  }

  lemma SidesAreApart(h: Hash, calls: seq<Action>, earlier: seq<Action>, later: seq<Action>, cfg: Config)
    requires h.StateOf().Closed? && h.windowStart.Some? && h.Failures() == 0
    requires cfg.failureWindowMs >= 0 && cfg.failureThreshold >= 1
    requires CallsWithin(earlier, 0, h.windowStart.value, h.windowStart.value + cfg.failureWindowMs)
    requires later != [] && later[0].Calling? && later[0].now > h.windowStart.value + cfg.failureWindowMs
    requires CallsWithin(later, 0, later[0].now, later[0].now + cfg.failureWindowMs)
    requires calls == earlier + later && FailedCalls(calls) == cfg.failureThreshold
    requires forall i :: 0 <= i < |calls| ==> calls[i].Calling?
    ensures Trips(h, calls, cfg) <==> FailedCalls(earlier) == 0 || FailedCalls(later) == 0
  {
    TripsAcrossRollover(h, earlier, later, cfg);
    FailedCallsAppend(earlier, later);
  }

  /** The window is aligned to its first call, not rolling: failureThreshold failures within
      failureWindowMs of each other that straddle two windows do not trip the circuit. */
  lemma WindowDoesNotRoll()
    ensures var cfg := Config(2, 60000, 30000);
            var calls := [Calling(0, true), Calling(60000, false), Calling(60001, false)];
            InOrder(calls) && Serial(calls, cfg).StateOf().Closed?
  {
    var cfg := Config(2, 60000, 30000);
    var calls := [Calling(0, true), Calling(60000, false), Calling(60001, false)];
    assert calls[..2] == [Calling(0, true), Calling(60000, false)];
    assert calls[..2][..1] == [Calling(0, true)];
    assert Serial(calls[..1], cfg) == Hash(None, None, Some(0), None, None) by {
      assert calls[..1] == [Calling(0, true)] && calls[..1][..0] == [];
    }
    assert Serial(calls[..2], cfg) == Hash(None, Some(1), Some(0), None, None);
    assert calls[..3] == calls;
  }
}
