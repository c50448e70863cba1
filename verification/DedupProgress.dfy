/** What request dedup is for: followers get the leader's result, and fn runs only for a reason. */
module DedupProgress {
  import opened Options
  import opened RequestDedup

  /** The caller a step belongs to, if any. */
  function CallerOf(step: Step): Option<Caller> { if step == Expire then None else Some(step.c) }

  /** No step of the sequence is c's own. */
  ghost predicate Others(steps: seq<Step>, c: Caller) {
    forall i :: 0 <= i < |steps| ==> CallerOf(steps[i]) != Some(c)
  }

  lemma OthersLeaveAlone(s: State, step: Step, c: Caller)
    requires CallerOf(step) != Some(c)
    ensures Apply(s, step).Pc(c) == s.Pc(c)
    ensures c in Apply(s, step).redis.mail <==> c in s.redis.mail
    ensures c in s.redis.mail ==> s.redis.mail[c] <= Apply(s, step).redis.mail[c]
  {
  }

  /** Whatever others do, a caller stays where it is, and its messages are only added to. */
  lemma {:induction false} OthersOnlyAddMail(s: State, ext: seq<Step>, c: Caller)
    requires Others(ext, c)
    ensures var t := RunFrom(s, ext);
            && t.Pc(c) == s.Pc(c) && (c in t.redis.mail <==> c in s.redis.mail)
            && (c in s.redis.mail ==> s.redis.mail[c] <= t.redis.mail[c])
  {
    if ext != [] {
      OthersOnlyAddMail(s, ext[..|ext| - 1], c);
      OthersLeaveAlone(RunFrom(s, ext[..|ext| - 1]), ext[|ext| - 1], c);
    }
  }

  // ---------------------------------------------------------------------------------------
  // Results are shared
  // ---------------------------------------------------------------------------------------

  predicate IsSettled(pc: Pc) { pc.Returned? || pc.Threw? || pc.Crashed? }

  /** A caller that has returned never does anything again, and never runs fn. */
  lemma {:induction false} SettledStays(s: State, ext: seq<Step>, c: Caller)
    requires IsSettled(s.Pc(c))
    ensures RunFrom(s, ext).Pc(c) == s.Pc(c) || RunFrom(s, ext).Pc(c).Crashed?
  {
    if ext != [] {
      SettledStays(s, ext[..|ext| - 1], c);
      SettledStep(RunFrom(s, ext[..|ext| - 1]), ext[|ext| - 1], c);
    }
  }

  lemma SettledStep(s: State, step: Step, c: Caller)
    requires IsSettled(s.Pc(c))
    ensures Apply(s, step).Pc(c) == s.Pc(c) || Apply(s, step).Pc(c).Crashed?
  {
  }

  /** A caller that arrives while the key is there does not claim it. If a result stands when it issues
      its GET, whatever happened in between, it returns that result; Redis is left as it was. */
  lemma StoredResultIsReturned(s: State, c: Caller, ext: seq<Step>, v: Value)
    requires c !in s.pcs && s.redis.entry.Some? && Others(ext, c)
    requires var t := RunFrom(Apply(s, Arrive(c)), ext);
             t.redis.entry.Some? && t.redis.entry.value.Stored? && t.redis.entry.value.v == v
    ensures var t := RunFrom(Apply(s, Arrive(c)), ext);
            Apply(t, Command(c)).Pc(c) == Returned(v) && Apply(t, Command(c)).redis == t.redis
  {
    OthersOnlyAddMail(Apply(s, Arrive(c)), ext, c);
  }

  /** The same for the GET after the SUBSCRIBE. */
  lemma RecheckedResultIsReturned(s: State, c: Caller, ext: seq<Step>, v: Value)
    requires s.Pc(c).Subscribing? && Others(ext, c)
    requires var t := RunFrom(Apply(s, Command(c)), ext);
             t.redis.entry.Some? && t.redis.entry.value.Stored? && t.redis.entry.value.v == v
    ensures var t := RunFrom(Apply(s, Command(c)), ext);
            Apply(t, Command(c)).Pc(c) == Returned(v) && Apply(t, Command(c)).redis == Unsubscribe(t.redis, c)
  {
    OthersOnlyAddMail(Apply(s, Command(c)), ext, c);
  }

  /** A waiting follower is decided by its oldest message, whatever comes after it. */
  lemma OldestMessageDecides(s: State, f: Caller, ext: seq<Step>)
    requires s.Pc(f).Waiting? && f in s.redis.mail && s.redis.mail[f] != [] && Others(ext, f)
    ensures var v := s.redis.mail[f][0];
            Apply(RunFrom(s, ext), Deliver(f)).Pc(f) ==
            if v.Null? then Hung else if v.dedupFailed then FallingBack else Returned(v)
  {
    OthersOnlyAddMail(s, ext, f);
  }

  lemma PublishReaches(s: State, l: Caller, f: Caller, v: Value)
    requires s.Pc(l) == Announcing(v) && f in s.redis.mail && s.Pc(f).Waiting?
    ensures var t := Apply(s, Command(l));
            f in t.redis.mail && t.redis.mail[f] == s.redis.mail[f] + [v] && t.Pc(f) == s.Pc(f)
  {
  }

  /** So a follower with nothing pending returns exactly the result of the next leader to publish, if
      it is neither null nor marked failed, and does not run fn for it. */
  lemma FollowerGetsTheResult(s: State, l: Caller, f: Caller, v: Value, ext: seq<Step>)
    requires s.Pc(l) == Announcing(v) && s.Pc(f).Waiting? && f in s.redis.mail && s.redis.mail[f] == []
    requires !v.Null? && !v.dedupFailed && Others(ext, f)
    ensures Apply(RunFrom(Apply(s, Command(l)), ext), Deliver(f)).Pc(f) == Returned(v)
  {
    PublishReaches(s, l, f, v);
    OldestMessageDecides(Apply(s, Command(l)), f, ext);
  }

  /** And one that hears of the leader's failure falls back at once. */
  lemma FollowerHearsOfFailure(s: State, l: Caller, f: Caller, ext: seq<Step>)
    requires s.Pc(l).AnnouncingFailure? && s.Pc(f).Waiting? && f in s.redis.mail && s.redis.mail[f] == []
    requires Others(ext, f)
    ensures Apply(RunFrom(Apply(s, Command(l)), ext), Deliver(f)).Pc(f) == FallingBack
  {
    var t := Apply(s, Command(l));
    assert t.redis.mail[f] == [] + [MARKER];
    OldestMessageDecides(t, f, ext);
  }

  /** A leader whose fn returns v stores v, publishes it and returns it, with others in between. */
  lemma LeaderReturnsItsResult(s: State, l: Caller, v: Value, first: seq<Step>, second: seq<Step>)
    requires s.Pc(l).Leading? && Others(first, l) && Others(second, l)
    ensures var t := Apply(RunFrom(Apply(s, FnReturns(l, v)), first), Command(l));
            && t.redis.entry == Some(Stored(l, v)) && t.Pc(l) == Announcing(v)
            && Apply(RunFrom(t, second), Command(l)).Pc(l) == Returned(v)
            && l in Apply(RunFrom(t, second), Command(l)).published
  {
    var u := Apply(s, FnReturns(l, v));
    OthersOnlyAddMail(u, first, l);
    OthersOnlyAddMail(Apply(RunFrom(u, first), Command(l)), second, l);
  }

  /** A leader whose fn throws gives the key up, publishes the marker and throws its own error. */
  lemma LeaderThrowsItsError(s: State, l: Caller, first: seq<Step>, second: seq<Step>)
    requires s.Pc(l).Leading? && Others(first, l) && Others(second, l)
    ensures var t := Apply(RunFrom(Apply(s, FnThrows(l)), first), Command(l));
            && t.redis.entry == None
            && Apply(RunFrom(t, second), Command(l)).Pc(l) == Threw(FnFailed(l))
            && l in Apply(RunFrom(t, second), Command(l)).published
  {
    var u := Apply(s, FnThrows(l));
    OthersOnlyAddMail(u, first, l);
    OthersOnlyAddMail(Apply(RunFrom(u, first), Command(l)), second, l);
  }

  /** A follower that falls back returns what its own fn returns, or throws what it throws. */
  lemma FallbackEndsAsItsFn(s: State, f: Caller, v: Value)
    requires s.Pc(f).FallingBack?
    ensures Apply(s, FnReturns(f, v)).Pc(f) == Returned(v)
    ensures Apply(s, FnThrows(f)).Pc(f) == Threw(FnFailed(f))
  {
  }

  // ---------------------------------------------------------------------------------------
  // Why fn runs, and why a caller throws
  // ---------------------------------------------------------------------------------------

  /** Step k makes c a leader: it arrives with no key there. */
  ghost predicate LeadsAt(steps: seq<Step>, k: nat, c: Caller) {
    k < |steps| && steps[k] == Arrive(c) && Run(steps[..k]).redis.entry.None?
  }

  /** What sends a follower in state s to run fn itself: its timeout, a failure marker, or an error of
      Redis in its wait. */
  predicate GivesUp(s: State, step: Step, f: Caller) {
    || (step == Timeout(f) && s.Pc(f).Waiting?)
    || (step == Deliver(f) && (s.Pc(f).Waiting? || s.Pc(f).Hung?) && f in s.redis.mail && s.redis.mail[f] != [] &&
        s.redis.mail[f][0].Doc? && s.redis.mail[f][0].dedupFailed)
    || ((step == CommandFails(f) || step == ReplyLost(f)) && (s.Pc(f).Subscribing? || s.Pc(f).Rechecking?))
  }

  ghost predicate GivesUpAt(steps: seq<Step>, k: nat, f: Caller) {
    k < |steps| && GivesUp(Run(steps[..k]), steps[k], f)
  }

  lemma StepToLeading(s: State, step: Step, c: Caller)
    requires Apply(s, step).Pc(c).Leading?
    ensures s.Pc(c).Leading? || (step == Arrive(c) && s.redis.entry.None?)
  {
  }

  lemma StepToFallback(s: State, step: Step, f: Caller)
    ensures Apply(s, step).Pc(f).FallingBack? && !s.Pc(f).FallingBack? ==> GivesUp(s, step, f)
    ensures GivesUp(s, step, f) ==> Apply(s, step).Pc(f).FallingBack?
  {
  }

  /** fn runs for a caller only if the caller found no key when it arrived, or was a follower that gave
      up waiting. */
  lemma {:induction false} FnRunsForAReason(steps: seq<Step>, c: Caller)
    requires RunsFn(Run(steps).Pc(c))
    ensures if Run(steps).Pc(c).Leading? then exists k: nat :: LeadsAt(steps, k, c)
            else exists k: nat :: GivesUpAt(steps, k, c)
  {
    var n := |steps| - 1;
    var before := Run(steps[..n]);
    StepToFallback(before, steps[n], c);
    if Run(steps).Pc(c).Leading? {
      StepToLeading(before, steps[n], c);
      if before.Pc(c).Leading? {
        FnRunsForAReason(steps[..n], c);
        var k: nat :| LeadsAt(steps[..n], k, c);
        assert steps[..n][..k] == steps[..k];
        assert LeadsAt(steps, k, c);
      } else {
        assert LeadsAt(steps, n, c);
      }
    } else if before.Pc(c).FallingBack? {
      FnRunsForAReason(steps[..n], c);
      var k: nat :| GivesUpAt(steps[..n], k, c);
      assert steps[..n][..k] == steps[..k];
      assert GivesUpAt(steps, k, c);
    } else {
      assert GivesUpAt(steps, n, c);
    }
  }

  /** The state a caller is in on the way to, or after, throwing this error. */
  predicate Carries(pc: Pc, e: Error) { (pc.Deleting? || pc.AnnouncingFailure? || pc.Threw?) && pc.e == e }

  /** What gives a caller the error: its own fn throws, or Redis fails it outside a follower's wait. */
  predicate GetsError(s: State, step: Step, c: Caller, e: Error) {
    if e == RedisFailed then
      || (step == ArriveReplyLost(c) && c !in s.pcs)
      || ((step == CommandFails(c) || step == ReplyLost(c)) && !s.Pc(c).Subscribing? && !s.Pc(c).Rechecking?)
    else
      step == FnThrows(c) && RunsFn(s.Pc(c)) && e == FnFailed(c)
  }

  ghost predicate GetsErrorAt(steps: seq<Step>, k: nat, c: Caller, e: Error) {
    k < |steps| && GetsError(Run(steps[..k]), steps[k], c, e)
  }

  lemma StepToError(s: State, step: Step, c: Caller, e: Error)
    requires Carries(Apply(s, step).Pc(c), e)
    ensures Carries(s.Pc(c), e) || GetsError(s, step, c, e)
  {
  }

  /** Every error a caller throws is its own: its fn threw, or Redis failed one of its commands outside
      a follower's wait, whose errors are caught. */
  lemma {:induction false} ErrorsHaveAReason(steps: seq<Step>, c: Caller, e: Error)
    requires Carries(Run(steps).Pc(c), e)
    ensures exists k: nat :: GetsErrorAt(steps, k, c, e)
  {
    var n := |steps| - 1;
    StepToError(Run(steps[..n]), steps[n], c, e);
    if Carries(Run(steps[..n]).Pc(c), e) {
      ErrorsHaveAReason(steps[..n], c, e);
      var k: nat :| GetsErrorAt(steps[..n], k, c, e);
      assert steps[..n][..k] == steps[..k];
      assert GetsErrorAt(steps, k, c, e);
    } else {
      assert GetsErrorAt(steps, n, c, e);
    }
  }

  // ---------------------------------------------------------------------------------------
  // Subscriptions
  // ---------------------------------------------------------------------------------------

  predicate Follows(pc: Pc) { pc.Rechecking? || pc.Rechecked? || pc.Waiting? || pc.Hung? }

  lemma CommandKeepsSubscription(s: State, step: Step, c: Caller)
    requires (c in s.redis.mail <==> Follows(s.Pc(c))) && IsCommand(step)
    ensures c in Apply(s, step).redis.mail <==> Follows(Apply(s, step).Pc(c))
  {
  }

  lemma OtherStepKeepsSubscription(s: State, step: Step, c: Caller)
    requires (c in s.redis.mail <==> Follows(s.Pc(c))) && !IsCommand(step)
    ensures c in Apply(s, step).redis.mail <==> Follows(Apply(s, step).Pc(c))
  {
  }

  /** In every run exactly the followers in the middle of their wait are subscribed: each one that
      returns, throws, falls back or crashes leaves nothing behind. */
  lemma {:induction false} SubscribedIff(steps: seq<Step>, c: Caller)
    ensures c in Run(steps).redis.mail <==> Follows(Run(steps).Pc(c))
  {
    if steps != [] {
      var n := |steps| - 1;
      SubscribedIff(steps[..n], c);
      if IsCommand(steps[n]) {
        CommandKeepsSubscription(Run(steps[..n]), steps[n], c);
      } else {
        OtherStepKeepsSubscription(Run(steps[..n]), steps[n], c);
      }
    }
  }
}
