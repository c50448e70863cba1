/** The three-state circuit breaker kept in one Redis hash per circuit.

    Each Lua script is one atomic step on the hash, written twice: as a function on hash
    values, and as a method of `Circuit` that updates the fields in place and is proved equal to
    it. The run theorems are about arbitrary interleavings of those steps. */
module CircuitBreaker {
  import opened Options

  datatype CircuitState = Closed | Open | HalfOpen

  datatype Config = Config(failureThreshold: int, failureWindowMs: int, openDurationMs: int)

  /** The hash `circuit:<name>`. A field Redis does not hold is None; a missing key is all None. */
  datatype Hash = Hash(
    state: Option<CircuitState>,
    failures: Option<int>,
    windowStart: Option<int>,
    openedAt: Option<int>,
    probeTaken: Option<bool>)
  {
    function StateOf(): CircuitState { state.GetOr(Closed) }
    function Failures(): int { failures.GetOr(0) }
    function OpenedAt(): int { openedAt.GetOr(0) }
  }

  const MISSING := Hash(None, None, None, None, None)

  datatype Attempted = Attempted(hash: Hash, allowed: bool, seen: CircuitState)
  datatype Reported = Reported(hash: Hash, answer: CircuitState)

  /** ATTEMPT_SCRIPT: may this caller proceed, and who holds the half-open probe. */
  function Attempt(h: Hash, now: int, cfg: Config): Attempted {
    match h.StateOf()
    case Closed =>
      Attempted(
        if h.windowStart.None? then h.(windowStart := Some(now))
        else if now - h.windowStart.value > cfg.failureWindowMs then
          h.(failures := Some(0), windowStart := Some(now))
        else h,
        true, Closed)
    case Open =>
      if now - h.OpenedAt() >= cfg.openDurationMs then
        Attempted(h.(state := Some(HalfOpen), probeTaken := Some(true)), true, HalfOpen)
      else
        Attempted(h, false, Open)
    case HalfOpen =>
      if h.probeTaken == Some(true) then Attempted(h, false, HalfOpen)
      else Attempted(h.(probeTaken := Some(true)), true, HalfOpen)
  }

  /** REPORT_SCRIPT: the outcome of a call that an earlier attempt let through. The hash may have
      changed in between in any way; the script looks only at what it finds. */
  function Report(h: Hash, now: int, success: bool, cfg: Config): Reported {
    if success then
      if h.StateOf().HalfOpen? then
        Reported(h.(state := Some(Closed), failures := Some(0), windowStart := Some(now),
                    probeTaken := Some(false)), Closed)
      else
        Reported(h, h.StateOf())
    else if h.StateOf().HalfOpen? then
      Reported(h.(state := Some(Open), openedAt := Some(now), probeTaken := Some(false)), Open)
    else
      var failures := h.Failures() + 1;
      if failures >= cfg.failureThreshold then
        Reported(h.(state := Some(Open), openedAt := Some(now), failures := Some(failures)), Open)
      else
        Reported(h.(failures := Some(failures)), Closed)
  }

  function ForceOpen(h: Hash, now: int): Hash {
    h.(state := Some(Open), openedAt := Some(now), probeTaken := Some(false))
  }

  datatype CallResult = Rejected | Returned | Threw

  /** One call of withCircuitBreaker with nobody else between its two scripts. Both scripts get
      the clock reading taken when the call began. */
  function Call(h: Hash, now: int, ok: bool, cfg: Config): (Hash, CallResult) {
    var a := Attempt(h, now, cfg);
    if !a.allowed then (a.hash, Rejected)
    else (Report(a.hash, now, ok, cfg).hash, if ok then Returned else Threw)
  }

  /** The same when the report of a success takes effect and its reply is lost: the error leads to the
      catch block, which reports a failure and throws. (A report that fails without taking effect is a
      call that ends with ok == false.) */
  function CallReplyLost(h: Hash, now: int, cfg: Config): (Hash, CallResult) {
    var a := Attempt(h, now, cfg);
    if !a.allowed then (a.hash, Rejected)
    else (Report(Report(a.hash, now, true, cfg).hash, now, false, cfg).hash, Threw)
  }

  /** The hash as Redis holds it, updated in place. */
  class Circuit {
    var state: Option<CircuitState>
    var failures: Option<int>
    var windowStart: Option<int>
    var openedAt: Option<int>
    var probeTaken: Option<bool>

    function Value(): Hash
      reads this
    {
      Hash(state, failures, windowStart, openedAt, probeTaken)
    }

    constructor ()
      ensures Value() == MISSING
    {
      state, failures, windowStart, openedAt, probeTaken := None, None, None, None, None;
    }

    method RunAttempt(now: int, cfg: Config) returns (allowed: bool, seen: CircuitState)
      modifies this
      ensures Attempted(Value(), allowed, seen) == Attempt(old(Value()), now, cfg)
    {
      seen := state.GetOr(Closed);
      if seen == Closed {
        if windowStart.None? {
          windowStart := Some(now);
        } else if now - windowStart.value > cfg.failureWindowMs {
          failures := Some(0);
          windowStart := Some(now);
        }
        return true, Closed;
      }
      if seen == Open {
        if now - openedAt.GetOr(0) >= cfg.openDurationMs {
          state := Some(HalfOpen);
          probeTaken := Some(true);
          return true, HalfOpen;
        }
        return false, Open;
      }
      if probeTaken == Some(true) {
        return false, HalfOpen;
      }
      probeTaken := Some(true);
      return true, HalfOpen;
    }

    method RunReport(now: int, success: bool, cfg: Config) returns (answer: CircuitState)
      modifies this
      ensures Reported(Value(), answer) == Report(old(Value()), now, success, cfg)
    {
      var current := state.GetOr(Closed);
      var count := failures.GetOr(0);
      if success {
        if current == HalfOpen {
          state, failures := Some(Closed), Some(0);
          windowStart, probeTaken := Some(now), Some(false);
          return Closed;
        }
        return current;
      }
      if current == HalfOpen {
        state, openedAt, probeTaken := Some(Open), Some(now), Some(false);
        return Open;
      }
      count := count + 1;
      if count >= cfg.failureThreshold {
        state, openedAt, failures := Some(Open), Some(now), Some(count);
        return Open;
      }
      failures := Some(count);
      return Closed;
    }

    method RunForceOpen(now: int)
      modifies this
      ensures Value() == ForceOpen(old(Value()), now)
    {
      state, openedAt, probeTaken := Some(Open), Some(now), Some(false);
    }

    /** resetCircuit and key expiry both drop the whole key. */
    method Delete()
      modifies this
      ensures Value() == MISSING
    {
      state, failures, windowStart, openedAt, probeTaken := None, None, None, None, None;
    }

    /** What scripts run by others have made of the hash. */
    method Become(h: Hash)
      modifies this
      ensures Value() == h
    {
      state, failures, windowStart := h.state, h.failures, h.windowStart;
      openedAt, probeTaken := h.openedAt, h.probeTaken;
    }

    /** withCircuitBreaker run by a lone caller; `ok` is how fn ends, and fn runs iff the result
        is not Rejected. */
    method WithCircuitBreaker(now: int, ok: bool, replyLost: bool, cfg: Config) returns (r: CallResult)
      modifies this
      ensures (Value(), r) == if ok && replyLost then CallReplyLost(old(Value()), now, cfg)
                              else Call(old(Value()), now, ok, cfg)
    {
      var allowed, _ := RunAttempt(now, cfg);
      if !allowed {
        return Rejected;
      }
      if ok {
        var _ := RunReport(now, true, cfg);
        if !replyLost {
          return Returned;
        }
      }
      var _ := RunReport(now, false, cfg);
      r := Threw;
    }
  }

  // ---------------------------------------------------------------------------------------
  // Every interleaving
  // ---------------------------------------------------------------------------------------

  /** One atomic step by anybody. A Reporting step may carry any clock reading: it belongs to a
      call that may have begun long ago. */
  datatype Event =
    | Attempting(now: int)
    | Reporting(now: int, success: bool)
    | Forcing(now: int)
    | Resetting
    | Expiring

  function Step(h: Hash, e: Event, cfg: Config): Hash {
    match e
    case Attempting(now) => Attempt(h, now, cfg).hash
    case Reporting(now, success) => Report(h, now, success, cfg).hash
    case Forcing(now) => ForceOpen(h, now)
    case Resetting => MISSING
    case Expiring => MISSING
  }

  /** The hash after a run that starts with no key. */
  function After(es: seq<Event>, cfg: Config): Hash {
    if es == [] then MISSING
    else Step(After(es[..|es| - 1], cfg), es[|es| - 1], cfg)
  }

  ghost predicate Safe(h: Hash, cfg: Config) {
    && 0 <= h.Failures()
    && (h.StateOf().HalfOpen? ==> h.probeTaken == Some(true))
    && (h.StateOf().Closed? ==> h.Failures() < cfg.failureThreshold)
  }

  /** In every reachable state: a half-open circuit has its probe taken, and a closed circuit has
      not used up its failures. */
  lemma {:induction false} ReachableIsSafe(es: seq<Event>, cfg: Config)
    requires cfg.failureThreshold >= 1
    ensures Safe(After(es, cfg), cfg)
  {
    if es != [] {
      ReachableIsSafe(es[..|es| - 1], cfg);
    }
  }

  /** Event i of the run is an attempt that was let through as the half-open probe. */
  ghost predicate ProbeAt(es: seq<Event>, i: nat, cfg: Config)
    requires i < |es|
  {
    && es[i].Attempting?
    && var a := Attempt(After(es[..i], cfg), es[i].now, cfg);
       a.allowed && a.seen.HalfOpen?
  }

  lemma {:induction false} HalfOpenPersists(es: seq<Event>, i: nat, j: nat, cfg: Config)
    requires i < j <= |es| && ProbeAt(es, i, cfg)
    requires forall k :: i < k < j ==> es[k].Attempting?
    ensures After(es[..j], cfg).StateOf() == HalfOpen
    ensures After(es[..j], cfg).probeTaken == Some(true)
    decreases j
  {
    assert es[..j][..j - 1] == es[..j - 1];
    if j > i + 1 {
      HalfOpenPersists(es, i, j - 1, cfg);
    }
  }

  /** Between two probes of one run there is always a report, a force-open, a reset or an
      expiry: an entry into half-open lets exactly one call through until then. */
  lemma ProbesAreSeparated(es: seq<Event>, i: nat, j: nat, cfg: Config)
    requires i < j < |es| && ProbeAt(es, i, cfg) && ProbeAt(es, j, cfg)
    ensures exists k :: i < k < j && !es[k].Attempting?
  {
    if forall k :: i < k < j ==> es[k].Attempting? {
      HalfOpenPersists(es, i, j, cfg);
    }
  }

  /** Separation is by reports, not by the probe's own report: a call let through before the trip
      can report while the probe is still running and open the way for a second probe. */
  lemma StaleReportAdmitsSecondProbe()
    ensures var cfg := Config(1, 60000, 30000);
            var es := [Attempting(0), Attempting(0), Reporting(0, false),  // first call trips it
                       Attempting(30000),                                  // the probe starts
                       Reporting(0, false),                                // second call reports late
                       Attempting(30001)];                                 // a second probe starts
            ProbeAt(es, 3, cfg) && ProbeAt(es, 5, cfg)
  {
    var cfg := Config(1, 60000, 30000);
    var es := [Attempting(0), Attempting(0), Reporting(0, false), Attempting(30000),
               Reporting(0, false), Attempting(30001)];
    var h1 := Hash(None, None, Some(0), None, None);
    var h3 := Hash(Some(Open), Some(1), Some(0), Some(0), None);
    AfterSnoc(es, 0, cfg);
    AfterSnoc(es, 1, cfg);
    assert After(es[..2], cfg) == h1;
    AfterSnoc(es, 2, cfg);
    assert After(es[..3], cfg) == h3;
    AfterSnoc(es, 3, cfg);
    AfterSnoc(es, 4, cfg);
    assert After(es[..5], cfg) == Hash(Some(Open), Some(1), Some(0), Some(0), Some(false));
  }

  lemma AfterSnoc(es: seq<Event>, i: nat, cfg: Config)
    requires i < |es|
    ensures After(es[..i + 1], cfg) == Step(After(es[..i], cfg), es[i], cfg)
  {
    assert es[..i + 1][..i] == es[..i];
  }

  // ---------------------------------------------------------------------------------------
  // The open period
  // ---------------------------------------------------------------------------------------

  /** How many of a sequence of attempts are let through when nothing else happens. */
  function Admitted(h: Hash, times: seq<int>, cfg: Config): nat
    decreases |times|
  {
    if times == [] then 0
    else
      var a := Attempt(h, times[0], cfg);
      (if a.allowed then 1 else 0) + Admitted(a.hash, times[1..], cfg)
  }

  lemma {:induction false} TakenProbeAdmitsNobody(h: Hash, times: seq<int>, cfg: Config)
    requires h.StateOf().HalfOpen? && h.probeTaken == Some(true)
    ensures Admitted(h, times, cfg) == 0
  {
    if times != [] {
      TakenProbeAdmitsNobody(h, times[1..], cfg);
    }
  }

  /** An open circuit rejects everything until openDurationMs has passed, then admits exactly one
      of however many callers arrive, in any order. */
  lemma {:induction false} OpenAdmitsOneProbe(h: Hash, times: seq<int>, cfg: Config)
    requires h.StateOf().Open?
    ensures Admitted(h, times, cfg) ==
            if exists i :: 0 <= i < |times| && times[i] >= h.OpenedAt() + cfg.openDurationMs then 1 else 0
  {
    if times != [] {
      var a := Attempt(h, times[0], cfg);
      if a.allowed {
        TakenProbeAdmitsNobody(a.hash, times[1..], cfg);
      } else {
        OpenAdmitsOneProbe(h, times[1..], cfg);
        if i :| 0 <= i < |times| && times[i] >= h.OpenedAt() + cfg.openDurationMs {
          assert times[1..][i - 1] == times[i];
        }
      }
    }
  }

  /** A report that finds the circuit open keeps the end of the cool-down from moving earlier
      exactly when it is a success, stays under the threshold, or began no earlier than the trip.
      A late failure of an older call otherwise shortens the open period. */
  lemma LateReportKeepsCooldown(h: Hash, now: int, success: bool, cfg: Config)
    requires h.StateOf().Open?
    ensures var h' := Report(h, now, success, cfg).hash;
            && h'.StateOf().Open?
            && (h'.OpenedAt() >= h.OpenedAt() <==>
                (success || h.Failures() + 1 < cfg.failureThreshold || now >= h.OpenedAt()))
  {
  }

  /** Such a run: two calls overlap, the later one trips the circuit at 10, and the report of the earlier
      one dates the opening back to 0. */
  lemma LateReportShortensARun()
    ensures var cfg := Config(1, 60000, 30000);
            var es := [Attempting(0), Attempting(10), Reporting(10, false)];
            && After(es, cfg).StateOf().Open? && After(es, cfg).OpenedAt() == 10
            && After(es + [Reporting(0, false)], cfg).OpenedAt() == 0
  {
    var cfg := Config(1, 60000, 30000);
    var es := [Attempting(0), Attempting(10), Reporting(10, false)];
    AfterThree(es[0], es[1], es[2], cfg);
    assert (es + [Reporting(0, false)])[..3] == es;
  }

  lemma AfterThree(a: Event, b: Event, c: Event, cfg: Config)
    ensures After([a, b, c], cfg) == Step(Step(Step(MISSING, a, cfg), b, cfg), c, cfg)
  {
    assert [a, b, c][..2] == [a, b] && [a, b][..1] == [a] && [a][..0] == [];
    assert After([a], cfg) == Step(MISSING, a, cfg);
  }

  /** REPORT's answer is the state it leaves behind, except for a failure reported to an open
      circuit that is still under the threshold: it answers closed and leaves it open. */
  lemma ReportAnswerIsAccurate(h: Hash, now: int, success: bool, cfg: Config)
    ensures var r := Report(h, now, success, cfg);
            r.answer == r.hash.StateOf() <==>
            !(!success && h.StateOf().Open? && h.Failures() + 1 < cfg.failureThreshold)
  {
  }

  /** Such a run: an operator forces the circuit open during a call that then fails. */
  lemma ReportAnswersClosedInARun()
    ensures var cfg := Config(2, 60000, 30000);
            var r := Report(After([Attempting(0), Forcing(5)], cfg), 0, false, cfg);
            r.answer == Closed && r.hash.StateOf() == Open
  {
    var cfg := Config(2, 60000, 30000);
    var es := [Attempting(0), Forcing(5)];
    assert es[..1] == [Attempting(0)] && es[..1][..0] == [];
    assert After(es[..1], cfg) == Step(MISSING, Attempting(0), cfg);
  }

  // ---------------------------------------------------------------------------------------
  // Calls that do not overlap
  // ---------------------------------------------------------------------------------------

  datatype Action = Calling(now: int, ok: bool) | ForcingOpen(at: int) | Deleting

  function Act(h: Hash, a: Action, cfg: Config): Hash {
    match a
    case Calling(now, ok) => Call(h, now, ok, cfg).0
    case ForcingOpen(at) => ForceOpen(h, at)
    case Deleting => MISSING
  }

  function Serial(acts: seq<Action>, cfg: Config): Hash {
    if acts == [] then MISSING
    else Act(Serial(acts[..|acts| - 1], cfg), acts[|acts| - 1], cfg)
  }

  /** Calls begin in clock order. */
  ghost predicate InOrder(acts: seq<Action>) {
    forall i, j :: 0 <= i < j < |acts| && acts[i].Calling? && acts[j].Calling? ==>
      acts[i].now <= acts[j].now
  }

  function FailedCalls(acts: seq<Action>): nat {
    if acts == [] then 0
    else FailedCalls(acts[..|acts| - 1]) +
         (if acts[|acts| - 1].Calling? && !acts[|acts| - 1].ok then 1 else 0)
  }

  /** acts[s..] holds only calls, all begun between `earliest` and `latest`. */
  ghost predicate CallsWithin(acts: seq<Action>, s: nat, earliest: int, latest: int) {
    && s <= |acts|
    && forall i :: s <= i < |acts| ==> acts[i].Calling? && earliest <= acts[i].now <= latest
  }

  /** What a hash says about the run that led to it, seen from index s. */
  ghost predicate CountedFrom(h: Hash, acts: seq<Action>, s: nat, latest: int) {
    && s <= |acts|
    && !h.StateOf().HalfOpen?
    && (h.StateOf().Closed? ==>
        && h.Failures() == FailedCalls(acts[s..])
        && (h.windowStart.None? ==> s == |acts|)
        && (h.windowStart.Some? ==>
            h.windowStart.value <= latest && CallsWithin(acts, s, h.windowStart.value, latest)))
  }

  lemma CountAfterCall(h0: Hash, acts: seq<Action>, s0: nat, cfg: Config) returns (s: nat)
    requires acts != [] && acts[|acts| - 1].Calling? && cfg.failureWindowMs >= 0
    requires CountedFrom(h0, acts[..|acts| - 1], s0, acts[|acts| - 1].now)
    ensures CountedFrom(Act(h0, acts[|acts| - 1], cfg), acts, s, acts[|acts| - 1].now)
    // A call made while closed is itself in the suffix, and the window is at most that wide.
    ensures h0.StateOf().Closed? ==>
              && s < |acts|
              && CallsWithin(acts, s, acts[|acts| - 1].now - cfg.failureWindowMs, acts[|acts| - 1].now)
              && Attempt(h0, acts[|acts| - 1].now, cfg).hash.Failures() == FailedCalls(acts[s..|acts| - 1])
    ensures s == |acts| || (h0.StateOf().Closed? && (s == s0 || s == |acts| - 1))
  {
    var n := |acts| - 1;
    var last := acts[n];
    s := |acts|;
    if h0.StateOf().Closed? {
      var a := Attempt(h0, last.now, cfg).hash;
      if a == h0 {
        s := s0;
        assert acts[s0..][..n - s0] == acts[..n][s0..] == acts[s0..n];
      } else {
        s := n;
        assert acts[n..] == [last] && acts[n..n] == [];
        if h0.windowStart.None? {
          assert acts[..n][s0..] == [];
        }
      }
    } else {
      assert acts[s..] == [];
    }
  }

  /** The circuit was closed throughout from index s on: every call from there was let through. */
  ghost predicate ClosedSince(acts: seq<Action>, s: nat, cfg: Config) {
    forall k :: s <= k <= |acts| ==> Serial(acts[..k], cfg).StateOf().Closed?
  }

  lemma ClosedSinceSnoc(acts: seq<Action>, s: nat, cfg: Config)
    requires acts != [] && Serial(acts, cfg).StateOf().Closed?
    requires s == |acts| || ClosedSince(acts[..|acts| - 1], s, cfg)
    ensures ClosedSince(acts, s, cfg)
  {
    var n := |acts| - 1;
    forall k | s <= k <= |acts|
      ensures Serial(acts[..k], cfg).StateOf().Closed?
    {
      if k == |acts| {
        assert acts[..k] == acts;
      } else {
        assert acts[..n][..k] == acts[..k];
      }
    }
  }

  lemma {:induction false} CounterIsASuffix(acts: seq<Action>, latest: int, cfg: Config) returns (s: nat)
    requires cfg.failureWindowMs >= 0 && InOrder(acts)
    requires forall i :: 0 <= i < |acts| && acts[i].Calling? ==> acts[i].now <= latest
    ensures CountedFrom(Serial(acts, cfg), acts, s, latest)
    ensures Serial(acts, cfg).StateOf().Closed? ==> ClosedSince(acts, s, cfg)
  {
    s := |acts|;
    if acts != [] {
      var n := |acts| - 1;
      if acts[n].Calling? {
        var s0 := CounterIsASuffix(acts[..n], acts[n].now, cfg);
        s := CountAfterCall(Serial(acts[..n], cfg), acts, s0, cfg);
        SuffixStaysClosed(acts, s0, s, cfg);
      } else if Serial(acts, cfg).StateOf().Closed? {
        ClosedSinceSnoc(acts, s, cfg);
      }
    }
  }

  lemma SuffixStaysClosed(acts: seq<Action>, s0: nat, s: nat, cfg: Config)
    requires acts != []
    requires var h := Serial(acts[..|acts| - 1], cfg);
             && (h.StateOf().Closed? ==> ClosedSince(acts[..|acts| - 1], s0, cfg))
             && (s == |acts| || h.StateOf().Closed?)
             && (s == s0 || s == |acts| || s == |acts| - 1)
    ensures Serial(acts, cfg).StateOf().Closed? ==> ClosedSince(acts, s, cfg)
  {
    var n := |acts| - 1;
    if Serial(acts, cfg).StateOf().Closed? {
      if s == n {
        assert acts[..n][..n] == acts[..n];
        assert ClosedSince(acts[..n], n, cfg);
      }
      ClosedSinceSnoc(acts, s, cfg);
    }
  }

  /** Call i finds the circuit closed and leaves it open. */
  ghost predicate TripsAt(acts: seq<Action>, i: nat, cfg: Config)
    requires i < |acts|
  {
    && acts[i].Calling?
    && Serial(acts[..i], cfg).StateOf().Closed?
    && Serial(acts[..i + 1], cfg).StateOf().Open?
  }

  /** Every trip ends a stretch of nothing but calls, begun within one failureWindowMs of each
      other, all of them made with the circuit closed and so let through, of which exactly
      failureThreshold failed; the call that trips is one of them. */
  lemma TripIsExplained(acts: seq<Action>, i: nat, cfg: Config) returns (s: nat)
    requires cfg.failureThreshold >= 1 && cfg.failureWindowMs >= 0 && InOrder(acts)
    requires i < |acts| && TripsAt(acts, i, cfg)
    ensures s <= i && !acts[i].ok
    ensures CallsWithin(acts[..i + 1], s, acts[i].now - cfg.failureWindowMs, acts[i].now)
    ensures FailedCalls(acts[s..i + 1]) == cfg.failureThreshold
    ensures forall k :: s <= k <= i ==> Serial(acts[..k], cfg).StateOf().Closed?
  {
    var run := acts[..i + 1];
    assert run[..i] == acts[..i];
    s := LastCallTrips(run, cfg);
    assert acts[s..i + 1] == run[s..];
    forall k | s <= k <= i
      ensures Serial(acts[..k], cfg).StateOf().Closed?
    {
      assert run[..i][..k] == acts[..k];
    }
  }

  lemma LastCallTrips(run: seq<Action>, cfg: Config) returns (s: nat)
    requires cfg.failureThreshold >= 1 && cfg.failureWindowMs >= 0 && InOrder(run) && run != []
    requires var last := run[|run| - 1];
             && last.Calling? && Serial(run[..|run| - 1], cfg).StateOf().Closed? && Serial(run, cfg).StateOf().Open?
    ensures var last := run[|run| - 1];
            s < |run| && !last.ok && CallsWithin(run, s, last.now - cfg.failureWindowMs, last.now)
    ensures FailedCalls(run[s..]) == cfg.failureThreshold && ClosedSince(run[..|run| - 1], s, cfg)
  {
    var n := |run| - 1;
    var s0 := CounterIsASuffix(run[..n], run[n].now, cfg);
    s := CountAfterCall(Serial(run[..n], cfg), run, s0, cfg);
    ClosedIsUnderThreshold(run[..n], cfg);
    assert run[s..][..n - s] == run[s..n];
    if s == n {
      assert run[..n][..n] == run[..n];
    }
  }

  lemma {:induction false} ClosedIsUnderThreshold(acts: seq<Action>, cfg: Config)
    requires cfg.failureThreshold >= 1
    ensures var h := Serial(acts, cfg);
            0 <= h.Failures() && (h.StateOf().Closed? ==> h.Failures() < cfg.failureThreshold)
  {
    if acts != [] {
      ClosedIsUnderThreshold(acts[..|acts| - 1], cfg);
    }
  }

  /** Some call of the sequence trips the circuit. */
  predicate Trips(h: Hash, calls: seq<Action>, cfg: Config)
    requires forall i :: 0 <= i < |calls| ==> calls[i].Calling?
    decreases |calls|
  {
    calls != [] && (Act(h, calls[0], cfg).StateOf().Open? || Trips(Act(h, calls[0], cfg), calls[1..], cfg))
  }

  lemma {:induction false} FailedCallsHead(calls: seq<Action>)
    requires calls != []
    ensures FailedCalls(calls) == FailedCalls([calls[0]]) + FailedCalls(calls[1..])
  {
    if |calls| > 1 {
      FailedCallsHead(calls[..|calls| - 1]);
      assert calls[1..][..|calls| - 2] == calls[..|calls| - 1][1..];
    } else {
      assert calls == [calls[0]];
    }
  }

  /** Within one window the circuit trips exactly when the failures reach the threshold:
      interleaved successes neither help nor reset the count. */
  lemma {:induction false} TripsExactlyAtThreshold(h: Hash, calls: seq<Action>, cfg: Config)
    requires h.StateOf().Closed? && h.windowStart.Some? && h.Failures() < cfg.failureThreshold
    requires CallsWithin(calls, 0, h.windowStart.value, h.windowStart.value + cfg.failureWindowMs)
    ensures Trips(h, calls, cfg) <==> h.Failures() + FailedCalls(calls) >= cfg.failureThreshold
    decreases |calls|
  {
    if calls != [] {
      FailedCallsHead(calls);
      var h' := Act(h, calls[0], cfg);
      assert FailedCalls([calls[0]]) == if calls[0].ok then 0 else 1;
      if h'.StateOf().Closed? {
        TripsExactlyAtThreshold(h', calls[1..], cfg);
      }
    }
  }

  /** However the circuit came to be open (a trip, a failed probe, an operator), the cool-down
      runs from that moment: one caller gets through once openDurationMs has passed, no other. */
  lemma EveryOpeningStartsItsOwnCooldown(h: Hash, a: Action, times: seq<int>, cfg: Config)
    requires a.ForcingOpen? || (a.Calling? && Call(h, a.now, a.ok, cfg).1 == Threw)
    requires Act(h, a, cfg).StateOf().Open?
    ensures var began := if a.Calling? then a.now else a.at;
            Admitted(Act(h, a, cfg), times, cfg) ==
            if exists i :: 0 <= i < |times| && times[i] >= began + cfg.openDurationMs then 1 else 0
  {
    OpenAdmitsOneProbe(Act(h, a, cfg), times, cfg);
  }

  /** A successful probe restores the whole failure allowance: from then on the circuit behaves as
      one whose window has just begun. */
  lemma SuccessfulProbeRestoresAllowance(h: Hash, now: int, calls: seq<Action>, cfg: Config)
    requires h.StateOf().Open? && now - h.OpenedAt() >= cfg.openDurationMs && cfg.failureThreshold >= 1
    requires CallsWithin(calls, 0, now, now + cfg.failureWindowMs)
    ensures Call(h, now, true, cfg).1 == Returned
    ensures Trips(Call(h, now, true, cfg).0, calls, cfg) <==> FailedCalls(calls) >= cfg.failureThreshold
  {
    TripsExactlyAtThreshold(Call(h, now, true, cfg).0, calls, cfg);
  }
}
