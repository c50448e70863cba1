/** The billing lock: SET NX PX with a random token, released by compare-and-delete. */
module DistributedLock {
  import opened Options

  /** Each call draws a fresh token, so a caller stands for its token. */
  type Caller = nat

  datatype Lock = Lock(token: Caller, expiresAt: int)

  datatype LockOptions = LockOptions(ttlMs: int, retries: int)

  /** The lock key as Redis sees it at `now`: a lock past its expiry is not there. */
  function Held(key: Option<Lock>, now: int): Option<Lock> {
    if key.Some? && now < key.value.expiresAt then key else None
  }

  /** SET NX PX: a lock that is held stays, anything else is replaced. */
  function Acquired(key: Option<Lock>, token: Caller, now: int, opts: LockOptions): Option<Lock> {
    if Held(key, now).None? then Some(Lock(token, now + opts.ttlMs)) else key
  }

  function Release(key: Option<Lock>, token: Caller, now: int): Option<Lock> {
    var held := Held(key, now);
    if held.Some? && held.value.token == token then None else held
  }

  class LockKey {
    var key: Option<Lock>

    constructor ()
      ensures key == None
    {
      key := None;
    }

    method SetNx(token: Caller, now: int, opts: LockOptions) returns (acquired: bool)
      modifies this
      ensures acquired <==> Held(old(key), now).None?
      ensures key == Acquired(old(key), token, now, opts)
    {
      acquired := !(key.Some? && now < key.value.expiresAt);
      if acquired {
        key := Some(Lock(token, now + opts.ttlMs));
      }
    }

    /** RELEASE_SCRIPT */
    method RunRelease(token: Caller, now: int) returns (deleted: bool)
      modifies this
      ensures Held(key, now) == Release(old(key), token, now)
      ensures deleted <==> Held(old(key), now).Some? && Held(old(key), now).value.token == token
    {
      deleted := key.Some? && now < key.value.expiresAt && key.value.token == token;
      if deleted {
        key := None;
      }
    }
  }

  /** The acquisition loop of withDistributedLock; `free(i)` is the answer to SET NX number i. It
      stops at the first free answer, or throws after retries + 1 contended ones, sleeping between
      attempts only. */
  method Acquire(free: nat -> bool, retries: int) returns (acquired: bool, attempts: nat, sleeps: nat)
    ensures attempts <= (if retries >= 0 then retries + 1 else 0)
    ensures acquired ==> attempts >= 1 && free(attempts - 1) && sleeps == attempts - 1
    ensures !acquired && retries >= 0 ==> attempts == retries + 1 && sleeps == retries
    ensures retries < 0 ==> !acquired && attempts == 0 && sleeps == 0
    ensures forall i: nat :: i < (if acquired then attempts - 1 else attempts) ==> !free(i)
  {
    attempts, sleeps := 0, 0;
    while attempts <= retries
      invariant 0 <= attempts <= (if retries >= 0 then retries + 1 else 0)
      invariant sleeps == if attempts <= retries || attempts == 0 then attempts else attempts - 1
      invariant forall i: nat :: i < attempts ==> !free(i)
    {
      attempts := attempts + 1;
      if free(attempts - 1) {
        return true, attempts, sleeps;
      }
      if attempts - 1 < retries {
        sleeps := sleeps + 1;
      }
    }
    acquired := false;
  }

  // ---------------------------------------------------------------------------------------
  // Callers interleaving on one lock
  // ---------------------------------------------------------------------------------------

  datatype Pc =
    | Trying(made: nat)                 // about to SET NX, after `made` attempts
    | Sleeping(made: nat)
    | Inside(since: int, made: nat)     // fn is running, acquired at `since`
    | Releasing(made: nat)              // fn has ended; about to run the release script
    | Done(made: nat)
    | GaveUp(made: nat)                 // LockAcquisitionError
    | Crashed(made: nat)

  datatype State = State(now: int, key: Option<Lock>, pcs: map<Caller, Pc>)

  datatype Step =
    | Tick(ms: nat)
    | Arrive(c: Caller)
    | Attempt(c: Caller)
    | Wake(c: Caller)
    | Finish(c: Caller)
    | RunRelease(c: Caller)
    | Crash(c: Caller)

  const INITIAL := State(0, None, map[])

  function Apply(s: State, step: Step, opts: LockOptions): State {
    if step.Tick? then s.(now := s.now + step.ms)
    else if step.Arrive? then
      if step.c in s.pcs || opts.retries < 0 then s else s.(pcs := s.pcs[step.c := Trying(0)])
    else if step.c !in s.pcs then s
    else
      var c, pc := step.c, s.pcs[step.c];
      match step
      case Attempt(_) =>
        if !pc.Trying? then s
        else
          s.(key := Acquired(s.key, c, s.now, opts),
             pcs := s.pcs[c := if Held(s.key, s.now).None? then Inside(s.now, pc.made + 1)
                               else if pc.made < opts.retries then Sleeping(pc.made + 1)
                               else GaveUp(pc.made + 1)])
      case Wake(_) => if pc.Sleeping? then s.(pcs := s.pcs[c := Trying(pc.made)]) else s
      case Finish(_) => if pc.Inside? then s.(pcs := s.pcs[c := Releasing(pc.made)]) else s
      case RunRelease(_) =>
        if pc.Releasing? then s.(key := Release(s.key, c, s.now), pcs := s.pcs[c := Done(pc.made)]) else s
      case Crash(_) => s.(pcs := s.pcs[c := Crashed(pc.made)])
  }

  function Run(steps: seq<Step>, opts: LockOptions): State {
    if steps == [] then INITIAL
    else Apply(Run(steps[..|steps| - 1], opts), steps[|steps| - 1], opts)
  }

  /** The critical section of c has outlived the lock it was entered under. */
  ghost predicate Overstayed(s: State, c: Caller, opts: LockOptions)
    requires c in s.pcs && s.pcs[c].Inside?
  {
    s.now >= s.pcs[c].since + opts.ttlMs
  }

  /** Who is inside and has not overstayed holds the lock. */
  ghost predicate InsidersHold(s: State, opts: LockOptions) {
    forall c :: c in s.pcs && s.pcs[c].Inside? && !Overstayed(s, c, opts) ==>
      s.key == Some(Lock(c, s.pcs[c].since + opts.ttlMs))
  }

  ghost predicate AttemptsInRange(pc: Pc, opts: LockOptions) {
    && pc.made <= opts.retries + 1
    && (pc.Trying? || pc.Sleeping? ==> pc.made <= opts.retries)
    && (pc.GaveUp? ==> pc.made == opts.retries + 1)
  }

  lemma StepKeepsInsiders(s: State, step: Step, opts: LockOptions)
    requires InsidersHold(s, opts)
    ensures InsidersHold(Apply(s, step, opts), opts)
  {
    var s' := Apply(s, step, opts);
    forall c | c in s'.pcs && s'.pcs[c].Inside? && !Overstayed(s', c, opts)
      ensures s'.key == Some(Lock(c, s'.pcs[c].since + opts.ttlMs))
    {
      if c in s.pcs && s.pcs[c].Inside? {
        assert s.pcs[c] == s'.pcs[c] && !Overstayed(s, c, opts);
      }
    }
  }

  lemma {:induction false} RunsAreSafe(steps: seq<Step>, opts: LockOptions)
    ensures InsidersHold(Run(steps, opts), opts)
  {
    if steps != [] {
      RunsAreSafe(steps[..|steps| - 1], opts);
      StepKeepsInsiders(Run(steps[..|steps| - 1], opts), steps[|steps| - 1], opts);
    }
  }

  /** Step k is an attempt of caller c: a SET NX it issues while trying. */
  predicate AttemptsAt(steps: seq<Step>, k: nat, c: Caller, opts: LockOptions)
    requires k < |steps|
  {
    var s := Run(steps[..k], opts);
    steps[k] == Attempt(c) && c in s.pcs && s.pcs[c].Trying?
  }

  function AttemptsOf(steps: seq<Step>, c: Caller, opts: LockOptions): nat {
    if steps == [] then 0
    else AttemptsOf(steps[..|steps| - 1], c, opts) + if AttemptsAt(steps, |steps| - 1, c, opts) then 1 else 0
  }

  function MadeBy(s: State, c: Caller): nat { if c in s.pcs then s.pcs[c].made else 0 }

  lemma StepCountsAttempts(s: State, step: Step, c: Caller, opts: LockOptions)
    ensures MadeBy(Apply(s, step, opts), c) ==
            MadeBy(s, c) + if step == Attempt(c) && c in s.pcs && s.pcs[c].Trying? then 1 else 0
  {
  }

  lemma {:induction false} MadeCountsAttempts(steps: seq<Step>, c: Caller, opts: LockOptions)
    ensures MadeBy(Run(steps, opts), c) == AttemptsOf(steps, c, opts)
  {
    if steps != [] {
      MadeCountsAttempts(steps[..|steps| - 1], c, opts);
      StepCountsAttempts(Run(steps[..|steps| - 1], opts), steps[|steps| - 1], c, opts);
    }
  }

  ghost predicate AllAttemptsInRange(s: State, opts: LockOptions) {
    forall c :: c in s.pcs ==> AttemptsInRange(s.pcs[c], opts)
  }

  lemma {:induction false} CountsAreInRange(steps: seq<Step>, opts: LockOptions)
    ensures AllAttemptsInRange(Run(steps, opts), opts)
  {
    if steps != [] {
      CountsAreInRange(steps[..|steps| - 1], opts);
    }
  }

  /** In every run a caller issues at most retries + 1 SET NX, one that gives up issued exactly that
      many, and one that has issued that many without getting in has given up or crashed. */
  lemma AttemptsAreBounded(steps: seq<Step>, c: Caller, opts: LockOptions)
    requires opts.retries >= 0
    ensures AttemptsOf(steps, c, opts) <= opts.retries + 1
    ensures var s := Run(steps, opts);
            c in s.pcs ==>
              && (s.pcs[c].GaveUp? ==> AttemptsOf(steps, c, opts) == opts.retries + 1)
              && (s.pcs[c].Trying? || s.pcs[c].Sleeping? ==> AttemptsOf(steps, c, opts) <= opts.retries)
  {
    MadeCountsAttempts(steps, c, opts);
    CountsAreInRange(steps, opts);
  }

  /** A contended attempt is followed by another one, after the sleep, iff retries are left. */
  lemma ContendedAttempt(s: State, c: Caller, opts: LockOptions)
    requires c in s.pcs && s.pcs[c].Trying? && Held(s.key, s.now).Some?
    ensures var t := Apply(s, Attempt(c), opts);
            && t.key == s.key
            && (s.pcs[c].made < opts.retries ==> Apply(t, Wake(c), opts).pcs[c] == Trying(s.pcs[c].made + 1))
            && (s.pcs[c].made >= opts.retries ==> t.pcs[c].GaveUp?)
  {
  }

  lemma StepKeepsLock(s: State, step: Step, l: Lock, opts: LockOptions)
    requires s.key == Some(l) && s.now < l.expiresAt && step != RunRelease(l.token)
    ensures Apply(s, step, opts).key == Some(l) && s.now <= Apply(s, step, opts).now
  {
  }

  /** A lock stays, whatever happens to its owner, until the owner releases it or its lease ends. */
  lemma {:induction false} LockIsHeld(steps: seq<Step>, k: nat, l: Lock, opts: LockOptions)
    requires k <= |steps| && Run(steps[..k], opts).key == Some(l) && Run(steps, opts).now < l.expiresAt
    requires forall i :: k <= i < |steps| ==> steps[i] != RunRelease(l.token)
    ensures Run(steps, opts).key == Some(l)
  {
    var n := |steps| - 1;
    if k == |steps| {
      assert steps[..k] == steps;
    } else {
      assert steps[..n][..k] == steps[..k];
      assert Run(steps[..n], opts).now <= Run(steps, opts).now;
      LockIsHeld(steps[..n], k, l, opts);
      StepKeepsLock(Run(steps[..n], opts), steps[n], l, opts);
    }
  }

  /** When a caller that is within its lease is done, the lock is free for whoever tries next. */
  lemma ReleaseAdmitsNext(steps: seq<Step>, c: Caller, d: Caller, opts: LockOptions)
    requires var s := Run(steps, opts);
             && c in s.pcs && s.pcs[c].Inside? && !Overstayed(s, c, opts)
             && d in s.pcs && s.pcs[d].Trying?
    ensures var s := Run(steps, opts);
            var t := Apply(Apply(Apply(s, Finish(c), opts), RunRelease(c), opts), Attempt(d), opts);
            t.pcs[c].Done? && t.pcs[d] == Inside(s.now, s.pcs[d].made + 1)
  {
    RunsAreSafe(steps, opts);
  }

  /** In every reachable state two callers can be inside only if one of them has overstayed: if
      every critical section ends within ttlMs of its acquisition, there is never more than one. */
  lemma MutualExclusion(steps: seq<Step>, opts: LockOptions, c: Caller, d: Caller)
    requires var s := Run(steps, opts);
             && c in s.pcs && s.pcs[c].Inside? && !Overstayed(s, c, opts)
             && d in s.pcs && s.pcs[d].Inside? && !Overstayed(s, d, opts)
    ensures c == d
  {
    RunsAreSafe(steps, opts);
  }

  /** Without that condition exclusion fails: whenever the holder has overstayed and nobody else
      took the lock, the next attempt puts a second caller inside. */
  lemma OverstayingAdmitsAnother(steps: seq<Step>, opts: LockOptions, c: Caller, d: Caller)
    requires var s := Run(steps, opts);
             && c in s.pcs && s.pcs[c].Inside? && Overstayed(s, c, opts)
             && (s.key.Some? ==> s.key.value.token == c)
             && d in s.pcs && s.pcs[d].Trying?
    ensures var s' := Apply(Run(steps, opts), Attempt(d), opts);
            s'.pcs[c].Inside? && s'.pcs[d].Inside? && c != d
  {
    LocksComeFromAcquisitions(steps, opts);
  }

  ghost predicate OneInside(s: State) {
    forall c, d :: c in s.pcs && d in s.pcs && s.pcs[c].Inside? && s.pcs[d].Inside? ==> c == d
  }

  /** Nobody has been inside for longer than `limit`. */
  ghost predicate Brief(s: State, limit: int) {
    forall c :: c in s.pcs && s.pcs[c].Inside? ==> s.now <= s.pcs[c].since + limit
  }

  ghost predicate BriefRun(steps: seq<Step>, opts: LockOptions, limit: int) {
    Brief(Run(steps, opts), limit) && (steps != [] ==> BriefRun(steps[..|steps| - 1], opts, limit))
  }

  lemma Extend(steps: seq<Step>, a: Step, opts: LockOptions, limit: int)
    requires BriefRun(steps, opts, limit) && Brief(Apply(Run(steps, opts), a, opts), limit)
    ensures BriefRun(steps + [a], opts, limit)
    ensures Run(steps + [a], opts) == Apply(Run(steps, opts), a, opts)
  {
    assert (steps + [a])[..|steps|] == steps;
  }

  lemma ShortLeaseIsShared(opts: LockOptions, limit: int) returns (steps: seq<Step>)
    requires 0 <= opts.ttlMs <= limit && opts.retries >= 0
    ensures BriefRun(steps, opts, limit) && !OneInside(Run(steps, opts))
  {
    steps := [];
    Extend(steps, Arrive(1), opts, limit);
    steps := steps + [Arrive(1)];
    Extend(steps, Attempt(1), opts, limit);
    steps := steps + [Attempt(1)];
    assert Run(steps, opts) == State(0, Some(Lock(1, opts.ttlMs)), map[1 := Inside(0, 1)]);
    Extend(steps, Tick(opts.ttlMs), opts, limit);
    steps := steps + [Tick(opts.ttlMs)];
    Extend(steps, Arrive(2), opts, limit);
    steps := steps + [Arrive(2)];
    assert Run(steps, opts).pcs == map[1 := Inside(0, 1), 2 := Trying(0)];
    Extend(steps, Attempt(2), opts, limit);
    steps := steps + [Attempt(2)];
    assert Run(steps, opts).pcs == map[1 := Inside(0, 1), 2 := Inside(opts.ttlMs, 1)];
    assert Run(steps, opts).pcs[1].Inside? && Run(steps, opts).pcs[2].Inside?;
  }

  /** If no critical section takes longer than `limit`, then never more than one caller is inside, in any
      run, exactly when ttlMs > limit. */
  lemma ExclusionIff(opts: LockOptions, limit: int)
    requires opts.ttlMs >= 0 && opts.retries >= 0
    ensures (forall steps :: BriefRun(steps, opts, limit) ==> OneInside(Run(steps, opts)))
            <==> opts.ttlMs > limit
  {
    if opts.ttlMs > limit {
      forall steps | BriefRun(steps, opts, limit)
        ensures OneInside(Run(steps, opts))
      {
        RunsAreSafe(steps, opts);
      }
    } else {
      var steps := ShortLeaseIsShared(opts, limit);
    }
  }

  /** A lock still carrying the token of a caller that is inside is the one it acquired. */
  lemma {:induction false} LocksComeFromAcquisitions(steps: seq<Step>, opts: LockOptions)
    ensures var s := Run(steps, opts);
            && (s.key.Some? ==> s.key.value.token in s.pcs)
            && (s.key.Some? && s.pcs[s.key.value.token].Inside? ==>
                s.key.value.expiresAt == s.pcs[s.key.value.token].since + opts.ttlMs)
            && (s.key.Some? ==> !s.pcs[s.key.value.token].Trying? && !s.pcs[s.key.value.token].Sleeping?)
  {
    if steps != [] {
      LocksComeFromAcquisitions(steps[..|steps| - 1], opts);
    }
  }

  /** Step k's release takes effect on a lock only if that lock was the releaser's own: it never
      removes, or alters, a lock another caller acquired meanwhile. */
  lemma ReleaseSparesOthers(steps: seq<Step>, opts: LockOptions, c: Caller)
    requires var s := Run(steps, opts); c in s.pcs && s.pcs[c].Releasing?
    ensures var s, s' := Run(steps, opts), Apply(Run(steps, opts), RunRelease(c), opts);
            var held := Held(s.key, s.now);
            && (held.Some? && held.value.token != c ==> Held(s'.key, s'.now) == held)
            && (held.Some? && held.value.token == c ==> Held(s'.key, s'.now) == None)
            && (forall d :: d in s.pcs && d != c && s.pcs[d].Inside? && !Overstayed(s, d, opts) ==>
                  s'.key == Some(Lock(d, s.pcs[d].since + opts.ttlMs)))
  {
    RunsAreSafe(steps, opts);
  }
}
