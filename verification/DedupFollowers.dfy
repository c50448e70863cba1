/** What a waiting follower of request dedup can still hope for. */
module DedupFollowers {
  import opened Options
  import opened RequestDedup

  /** Still on its way to a PUBLISH. */
  predicate WillPublish(pc: Pc) { pc.Leading? || pc.Storing? || pc.Deleting? || Publishes(pc) }

  // ---------------------------------------------------------------------------------------
  // Whether a message can still come
  // ---------------------------------------------------------------------------------------

  ghost predicate Publisher(s: State) { exists l :: l in s.pcs && WillPublish(s.pcs[l]) }

  ghost predicate HasMail(s: State, f: Caller) { f in s.redis.mail && s.redis.mail[f] != [] }

  ghost predicate WithoutArrivals(steps: seq<Step>) {
    forall i :: 0 <= i < |steps| ==> !steps[i].Arrive?
  }

  lemma StepStaysQuiet(s: State, step: Step, f: Caller)
    requires !Publisher(s) && !HasMail(s, f) && !step.Arrive?
    ensures !Publisher(Apply(s, step)) && !HasMail(Apply(s, step), f)
  {
    var t := Apply(s, step);
    forall l | l in t.pcs
      ensures !WillPublish(t.pcs[l])
    {
      assert l in s.pcs ==> !WillPublish(s.pcs[l]);
    }
  }

  lemma {:induction false} StaysQuiet(s: State, ext: seq<Step>, f: Caller)
    requires !Publisher(s) && !HasMail(s, f) && WithoutArrivals(ext)
    ensures !Publisher(RunFrom(s, ext)) && !HasMail(RunFrom(s, ext), f)
  {
    if ext != [] {
      StaysQuiet(s, ext[..|ext| - 1], f);
      StepStaysQuiet(RunFrom(s, ext[..|ext| - 1]), ext[|ext| - 1], f);
    }
  }

  /** What a leader does next on the way to its PUBLISH. */
  function Onward(l: Caller, pc: Pc): Step { if pc.Leading? then FnThrows(l) else Command(l) }

  function Distance(pc: Pc): nat {
    if Publishes(pc) then 1 else if pc.Storing? || pc.Deleting? then 2 else 3
  }

  lemma OneStepCloser(s: State, l: Caller, f: Caller)
    requires l in s.pcs && WillPublish(s.pcs[l]) && f in s.redis.mail
    ensures var t := Apply(s, Onward(l, s.pcs[l]));
            if Publishes(s.pcs[l]) then HasMail(t, f)
            else f in t.redis.mail && WillPublish(t.Pc(l)) && Distance(t.Pc(l)) < Distance(s.pcs[l])
  {
  }

  lemma {:induction false} PublisherReaches(s: State, l: Caller, f: Caller) returns (ext: seq<Step>)
    requires l in s.pcs && WillPublish(s.pcs[l]) && f in s.redis.mail
    ensures WithoutArrivals(ext) && HasMail(RunFrom(s, ext), f)
    decreases Distance(s.pcs[l])
  {
    var a := Onward(l, s.pcs[l]);
    OneStepCloser(s, l, f);
    if Publishes(s.pcs[l]) {
      ext := [a];
      RunFromOne(s, a);
    } else {
      var rest := PublisherReaches(Apply(s, a), l, f);
      ext := [a] + rest;
      RunFromCons(s, a, rest);
    }
  }

  lemma {:induction false} RunFromCons(s: State, a: Step, rest: seq<Step>)
    ensures RunFrom(s, [a] + rest) == RunFrom(Apply(s, a), rest)
  {
    if rest == [] {
      assert [a] + rest == [a];
      RunFromOne(s, a);
    } else {
      var n := |rest| - 1;
      RunFromCons(s, a, rest[..n]);
      RunFromSnoc(s, [a] + rest[..n], rest[n]);
      assert [a] + rest == [a] + rest[..n] + [rest[n]];
    }
  }

  /** A subscriber with nothing pending can still get a message, without anybody new arriving, iff some
      leader has its PUBLISH before it. Otherwise only the timeout ends the wait. */
  lemma MessageCanComeIff(s: State, f: Caller)
    requires f in s.redis.mail && s.redis.mail[f] == []
    ensures (exists ext :: WithoutArrivals(ext) && HasMail(RunFrom(s, ext), f)) <==> Publisher(s)
  {
    if Publisher(s) {
      var l :| l in s.pcs && WillPublish(s.pcs[l]);
      var ext := PublisherReaches(s, l, f);
    } else {
      forall ext | WithoutArrivals(ext)
        ensures !HasMail(RunFrom(s, ext), f)
      {
        StaysQuiet(s, ext, f);
      }
    }
  }

  // ---------------------------------------------------------------------------------------
  // Whether the leader it follows will send it
  // ---------------------------------------------------------------------------------------

  /** l has claimed the key at some time: it is on its way to a PUBLISH, made it, or ended without. */
  ghost predicate Led(s: State, l: Caller) {
    l in s.pcs &&
    (WillPublish(s.pcs[l]) || s.pcs[l].Threw? || s.pcs[l].Crashed? || (s.pcs[l].Returned? && l in s.published))
  }

  ghost predicate SeenLed(s: State) {
    && (s.redis.entry.Some? ==> Led(s, s.redis.entry.value.owner))
    && (forall f :: f in s.pcs && Listens(s.pcs[f]) && s.pcs[f].seen.Some? ==> Led(s, s.pcs[f].seen.value))
  }

  lemma StepKeepsLed(s: State, step: Step, l: Caller)
    requires Led(s, l)
    ensures Led(Apply(s, step), l)
  {
  }

  lemma StepKeepsSeen(s: State, step: Step, f: Caller)
    requires f in s.pcs && Listens(Apply(s, step).Pc(f))
    ensures var seen := Apply(s, step).Pc(f).seen;
            seen.Some? ==>
              || (Listens(s.pcs[f]) && seen == s.pcs[f].seen)
              || (s.redis.entry.Some? && seen.value == s.redis.entry.value.owner)
  {
  }

  lemma StepKeepsOwnerLed(s: State, step: Step)
    requires SeenLed(s)
    ensures var t := Apply(s, step); t.redis.entry.Some? ==> Led(t, t.redis.entry.value.owner)
  {
    if s.redis.entry.Some? {
      StepKeepsLed(s, step, s.redis.entry.value.owner);
    }
  }

  lemma StepKeepsSeenLed(s: State, step: Step)
    requires SeenLed(s)
    ensures SeenLed(Apply(s, step))
  {
    var t := Apply(s, step);
    StepKeepsOwnerLed(s, step);
    forall f | f in t.pcs && Listens(t.pcs[f]) && t.pcs[f].seen.Some?
      ensures Led(t, t.pcs[f].seen.value)
    {
      assert f in s.pcs;
      StepKeepsSeen(s, step, f);
      StepKeepsLed(s, step, t.pcs[f].seen.value);
    }
  }

  lemma {:induction false} RunsKeepSeenLed(steps: seq<Step>)
    ensures SeenLed(Run(steps))
  {
    if steps != [] {
      RunsKeepSeenLed(steps[..|steps| - 1]);
      StepKeepsSeenLed(Run(steps[..|steps| - 1]), steps[|steps| - 1]);
    }
  }

  /** l ended without publishing: it crashed, or Redis failed it first. */
  ghost predicate GoneSilent(s: State, l: Caller) {
    (s.Pc(l).Threw? || s.Pc(l).Crashed?) && l !in s.published
  }

  /** l has sent its last message. */
  ghost predicate PublishedLast(s: State, l: Caller) { l in s.published && IsDone(s.Pc(l)) }

  /** A waiting follower with nothing pending is owed no PUBLISH by the leader it follows in exactly
      three cases: its recheck found no claim, that leader has sent its last message and a message fell into
      the gap before the listener, or that leader ended without publishing. */
  lemma OwedNothingIff(steps: seq<Step>, f: Caller)
    requires var s := Run(steps); s.Pc(f).Waiting? && f in s.redis.mail && s.redis.mail[f] == []
    ensures var s := Run(steps);
            var seen := s.Pc(f).seen;
            !(seen.Some? && WillPublish(s.Pc(seen.value))) <==>
              || seen.None?
              || (PublishedLast(s, seen.value) && f in s.missed)
              || GoneSilent(s, seen.value)
  {
    var s := Run(steps);
    RunsAreCoordinated(steps);
    RunsKeepSeenLed(steps);
    assert WokenAs(s, f, s.pcs[f]);
    var seen := s.pcs[f].seen;
    if seen.Some? {
      assert Led(s, seen.value);
    }
  }

  // ---------------------------------------------------------------------------------------
  // Runs that reach the bad cases
  // ---------------------------------------------------------------------------------------

  /** The system with leader 1 and follower 2 only. */
  function Pair(entry: Option<Entry>, mail: map<Caller, seq<Value>>, leader: Pc, follower: Pc): State {
    State(Server(entry, mail), map[1 := leader, 2 := follower], {}, {}, {}, {})
  }

  /** Caller 1 claims; caller 2 finds the claim and is about to subscribe. */
  const CLAIMED := [Arrive(1), Arrive(2), Command(2)]

  lemma AfterClaim()
    ensures Run(CLAIMED) == Pair(Some(Claim(1)), map[], Leading, Subscribing)
  {
    RunThree([], Arrive(1), Arrive(2), Command(2));
    assert [] + CLAIMED == CLAIMED;
    assert Apply(INITIAL, Arrive(1)).pcs == map[1 := Leading];
  }

  /** It subscribes and its recheck still finds the claim. */
  const RECHECKED := CLAIMED + [Command(2), Command(2)]

  lemma AfterRecheck()
    ensures Run(RECHECKED) == Pair(Some(Claim(1)), map[2 := []], Leading, Rechecked(Some(1)))
  {
    AfterClaim();
    RunTwo(CLAIMED, Command(2), Command(2));
    assert Apply(Run(CLAIMED), Command(2)) == Pair(Some(Claim(1)), map[2 := []], Leading, Rechecking);
  }

  /** The system holds leader 1 and follower 2 in these states, over this Redis. */
  ghost predicate At(s: State, leader: Pc, follower: Pc, entry: Option<Entry>, mail: map<Caller, seq<Value>>) {
    s.pcs == map[1 := leader, 2 := follower] && s.redis == Server(entry, mail)
  }

  lemma FnThrowsAt(s: State, follower: Pc, mail: map<Caller, seq<Value>>)
    requires At(s, Leading, follower, Some(Claim(1)), mail)
    ensures var t := Apply(s, FnThrows(1));
            At(t, Deleting(FnFailed(1)), follower, Some(Claim(1)), mail) && t.missed == s.missed
  {
  }

  lemma FnReturnsAt(s: State, v: Value, follower: Pc, mail: map<Caller, seq<Value>>)
    requires At(s, Leading, follower, Some(Claim(1)), mail)
    ensures var t := Apply(s, FnReturns(1, v));
            At(t, Storing(v), follower, Some(Claim(1)), mail) && t.missed == s.missed
  {
  }

  lemma CommandAt(s: State, leader: Pc, follower: Pc, entry: Option<Entry>, mail: map<Caller, seq<Value>>)
    requires At(s, leader, follower, entry, mail)
    ensures var t, (r, pc) := Apply(s, Command(1)), Exec(Server(entry, mail), 1, leader);
            At(t, pc, follower, r.entry, r.mail) && t.missed == s.missed
  {
  }

  lemma LeaderFails(s: State, follower: Pc)
    requires At(s, Leading, follower, Some(Claim(1)), map[])
    ensures var t := Apply(Apply(Apply(s, FnThrows(1)), Command(1)), Command(1));
            At(t, Threw(FnFailed(1)), follower, None, map[]) && t.missed == s.missed
  {
    FnThrowsAt(s, follower, map[]);
    var t := Apply(s, FnThrows(1));
    CommandAt(t, Deleting(FnFailed(1)), follower, Some(Claim(1)), map[]);
    CommandAt(Apply(t, Command(1)), AnnouncingFailure(FnFailed(1)), follower, None, map[]);
    PublishToNobody(Server(None, map[]), MARKER);
  }

  lemma PublishToNobody(r: Server, v: Value)
    requires r.mail == map[]
    ensures Publish(r, v) == r
  {
    assert Publish(r, v).mail.Keys == {};
  }

  lemma FollowerFindsNothing(s: State, leader: Pc)
    requires s.pcs == map[1 := leader, 2 := Subscribing] && s.redis == Server(None, map[])
    ensures var t := Apply(Apply(Apply(s, Command(2)), Command(2)), Listen(2));
            && t.pcs == map[1 := leader, 2 := Waiting(None)]
            && t.redis == Server(None, map[2 := []]) && t.missed == s.missed
  {
    var t := Apply(s, Command(2));
    assert t.pcs == map[1 := leader, 2 := Rechecking] && t.redis == Server(None, map[2 := []]);
    assert Apply(t, Command(2)).pcs == map[1 := leader, 2 := Rechecked(None)];
  }

  lemma NothingToCome(s: State, leader: Pc, follower: Pc)
    requires s.pcs == map[1 := leader, 2 := follower] && s.redis.mail == map[2 := []]
    requires !WillPublish(leader) && !WillPublish(follower)
    ensures forall ext :: WithoutArrivals(ext) ==> !HasMail(RunFrom(s, ext), 2)
  {
    MessageCanComeIff(s, 2);
  }

  /** The leader fails, deletes the key and publishes before the follower subscribes; the recheck finds
      nothing, and the follower waits for a message that was sent already: nothing but its timeout is
      left. */
  lemma FailedLeaderStrandsFollower()
    ensures var s := Run(CLAIMED + [FnThrows(1), Command(1), Command(1)] + [Command(2), Command(2), Listen(2)]);
            && s.Pc(2) == Waiting(None) && s.redis == Server(None, map[2 := []]) && s.missed == {}
            && forall ext :: WithoutArrivals(ext) ==> !HasMail(RunFrom(s, ext), 2)
  {
    AfterClaim();
    RunThree(CLAIMED, FnThrows(1), Command(1), Command(1));
    LeaderFails(Run(CLAIMED), Subscribing);
    var steps := CLAIMED + [FnThrows(1), Command(1), Command(1)];
    RunThree(steps, Command(2), Command(2), Listen(2));
    FollowerFindsNothing(Run(steps), Threw(FnFailed(1)));
    NothingToCome(Run(steps + [Command(2), Command(2), Listen(2)]), Threw(FnFailed(1)), Waiting(None));
  }

  lemma LeaderSucceeds(s: State, v: Value, follower: Pc)
    requires At(s, Leading, follower, Some(Claim(1)), map[2 := []])
    ensures var t := Apply(Apply(Apply(s, FnReturns(1, v)), Command(1)), Command(1));
            At(t, Returned(v), follower, Some(Stored(1, v)), map[2 := [v]]) && t.missed == s.missed
  {
    FnReturnsAt(s, v, follower, map[2 := []]);
    var t := Apply(s, FnReturns(1, v));
    CommandAt(t, Storing(v), follower, Some(Claim(1)), map[2 := []]);
    CommandAt(Apply(t, Command(1)), Announcing(v), follower, Some(Stored(1, v)), map[2 := []]);
    PublishToOne(Server(Some(Stored(1, v)), map[2 := []]), v);
  }

  lemma PublishToOne(r: Server, v: Value)
    requires r.mail == map[2 := []]
    ensures Publish(r, v) == Server(r.entry, map[2 := [v]])
  {
    var mail := Publish(r, v).mail;
    assert [] + [v] == [v];
    assert mail[2] == [v] && mail.Keys == {2};
  }

  /** The leader's message arrives between the recheck and the listener: the same end. */
  lemma MessageIsLostInARun(v: Value)
    ensures var s := Run(RECHECKED + [FnReturns(1, v), Command(1), Command(1)] + [Deliver(2), Listen(2)]);
            && s.Pc(2) == Waiting(Some(1)) && s.redis == Server(Some(Stored(1, v)), map[2 := []])
            && s.missed == {2} && forall ext :: WithoutArrivals(ext) ==> !HasMail(RunFrom(s, ext), 2)
  {
    AfterRecheck();
    RunThree(RECHECKED, FnReturns(1, v), Command(1), Command(1));
    LeaderSucceeds(Run(RECHECKED), v, Rechecked(Some(1)));
    var steps := RECHECKED + [FnReturns(1, v), Command(1), Command(1)];
    RunTwo(steps, Deliver(2), Listen(2));
    DeliveredInTheGap(Run(steps), v);
    NothingToCome(Run(steps + [Deliver(2), Listen(2)]), Returned(v), Waiting(Some(1)));
  }

  lemma DeliveredInTheGap(s: State, v: Value)
    requires s.pcs == map[1 := Returned(v), 2 := Rechecked(Some(1))] && s.redis.mail == map[2 := [v]] && s.missed == {}
    ensures var t := Apply(Apply(s, Deliver(2)), Listen(2));
            && t.pcs == map[1 := Returned(v), 2 := Waiting(Some(1))]
            && t.redis == Server(s.redis.entry, map[2 := []]) && t.missed == {2}
  {
    assert Apply(s, Deliver(2)).redis == Server(s.redis.entry, map[2 := []]);
  }

  /** fn returns null to a leader with a waiting follower: the follower has neither result nor timer,
      and nothing more will come. */
  lemma NullHangsInARun()
    ensures var s := Run(RECHECKED + [Listen(2)] + [FnReturns(1, Null), Command(1), Command(1)] + [Deliver(2)]);
            && s.Pc(2) == Hung && s.Pc(1) == Returned(Null)
            && forall ext :: WithoutArrivals(ext) ==> !HasMail(RunFrom(s, ext), 2)
  {
    AfterRecheck();
    RunOn(RECHECKED, [Listen(2)]);
    RunFromOne(Run(RECHECKED), Listen(2));
    var steps := RECHECKED + [Listen(2)];
    assert Run(steps) == Pair(Some(Claim(1)), map[2 := []], Leading, Waiting(Some(1)));
    RunThree(steps, FnReturns(1, Null), Command(1), Command(1));
    LeaderSucceeds(Run(steps), Null, Waiting(Some(1)));
    NullIsDelivered(steps + [FnReturns(1, Null), Command(1), Command(1)]);
  }

  lemma NullIsDelivered(steps: seq<Step>)
    requires var s := Run(steps);
             s.pcs == map[1 := Returned(Null), 2 := Waiting(Some(1))] && s.redis.mail == map[2 := [Null]]
    ensures var t := Run(steps + [Deliver(2)]);
            && t.pcs == map[1 := Returned(Null), 2 := Hung]
            && forall ext :: WithoutArrivals(ext) ==> !HasMail(RunFrom(t, ext), 2)
  {
    RunOn(steps, [Deliver(2)]);
    RunFromOne(Run(steps), Deliver(2));
    var t := Run(steps + [Deliver(2)]);
    assert t.pcs == map[1 := Returned(Null), 2 := Hung] && t.redis.mail == map[2 := []];
    NothingToCome(t, Returned(Null), Hung);
  }
}
