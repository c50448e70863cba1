/** When request dedup has one leader at a time.

    The claim is a lease: SET NX with a time to live. Two exact answers are given. At the level of
    single runs, an expiry is harmless exactly when the writer of the key has no command on it left to
    issue. With a clock, exclusion holds in all runs exactly when the time to live is longer than a
    leader may take. */
module DedupLease {
  import opened Options
  import opened Ids
  import opened RequestDedup

  ghost predicate OneLeader(s: State) {
    forall c, d :: c in s.pcs && d in s.pcs && s.pcs[c].Leading? && s.pcs[d].Leading? ==> c == d
  }

  // ---------------------------------------------------------------------------------------
  // Which expiries are harmless
  // ---------------------------------------------------------------------------------------

  ghost predicate WithoutExpiry(steps: seq<Step>) {
    forall i :: 0 <= i < |steps| ==> steps[i] != Expire
  }

  lemma {:induction false} OwnershipLasts(s: State, ext: seq<Step>)
    requires LeaderOwnsKey(s) && WithoutExpiry(ext)
    ensures LeaderOwnsKey(RunFrom(s, ext))
  {
    if ext != [] {
      OwnershipLasts(s, ext[..|ext| - 1]);
      StepKeepsOwnership(RunFrom(s, ext[..|ext| - 1]), ext[|ext| - 1]);
    }
  }

  lemma LeadingOwnerIsJoined(s: State, c: Caller, d: Caller)
    requires s.Pc(c).Leading? && s.redis.entry.None? && d !in s.pcs
    ensures !OneLeader(Apply(s, Arrive(d)))
  {
    var t := Apply(s, Arrive(d));
    assert t.pcs[c].Leading? && t.pcs[d].Leading?;
  }

  /** A leader about to DEL removes the claim of the one that came after it. */
  lemma DeletingOwnerUnclaims(s: State, c: Caller, d: Caller, e: Caller)
    requires s.Pc(c).Deleting? && s.redis.entry.None? && d !in s.pcs && e !in s.pcs && d != e
    ensures !OneLeader(Apply(Apply(Apply(s, Arrive(d)), Command(c)), Arrive(e)))
  {
    var t := Apply(Apply(s, Arrive(d)), Command(c));
    assert t.redis.entry.None? && t.pcs[d].Leading? && e !in t.pcs;
    LeadingOwnerIsJoined(t, d, e);
  }

  /** So does one whose SET or PUBLISH fails, which sends it to its catch block. */
  lemma FailingOwnerUnclaims(s: State, c: Caller, d: Caller, e: Caller)
    requires s.Pc(c).Storing? || s.Pc(c).Announcing?
    requires s.redis.entry.None? && d !in s.pcs && e !in s.pcs && d != e
    ensures !OneLeader(Apply(Apply(Apply(Apply(s, Arrive(d)), CommandFails(c)), Command(c)), Arrive(e)))
  {
    var t := Apply(Apply(Apply(s, Arrive(d)), CommandFails(c)), Command(c));
    assert t.redis.entry.None? && t.pcs[d].Leading? && e !in t.pcs;
    LeadingOwnerIsJoined(t, d, e);
  }

  /** Steps that follow an expiry under owner c, with newcomers d and e, and lead to two leaders. */
  function Intrusion(pc: Pc, c: Caller, d: Caller, e: Caller): seq<Step> {
    if pc.Leading? then [Arrive(d)]
    else if pc.Deleting? then [Arrive(d)] + [Command(c)] + [Arrive(e)]
    else [Arrive(d)] + [CommandFails(c)] + [Command(c)] + [Arrive(e)]
  }

  lemma DeletingOwnerAdmitsSecond(s: State, c: Caller, d: Caller, e: Caller)
    requires s.Pc(c).Deleting? && s.redis.entry.None? && d !in s.pcs && e !in s.pcs && d != e
    ensures !OneLeader(RunFrom(s, [Arrive(d)] + [Command(c)] + [Arrive(e)]))
  {
    RunFromOne(s, Arrive(d));
    RunFromSnoc(s, [Arrive(d)], Command(c));
    RunFromSnoc(s, [Arrive(d)] + [Command(c)], Arrive(e));
    DeletingOwnerUnclaims(s, c, d, e);
  }

  lemma FailingOwnerAdmitsSecond(s: State, c: Caller, d: Caller, e: Caller)
    requires s.Pc(c).Storing? || s.Pc(c).Announcing?
    requires s.redis.entry.None? && d !in s.pcs && e !in s.pcs && d != e
    ensures !OneLeader(RunFrom(s, [Arrive(d)] + [CommandFails(c)] + [Command(c)] + [Arrive(e)]))
  {
    RunFromOne(s, Arrive(d));
    RunFromSnoc(s, [Arrive(d)], CommandFails(c));
    RunFromSnoc(s, [Arrive(d)] + [CommandFails(c)], Command(c));
    RunFromSnoc(s, [Arrive(d)] + [CommandFails(c)] + [Command(c)], Arrive(e));
    FailingOwnerUnclaims(s, c, d, e);
  }

  lemma UnfinishedOwnerAdmitsSecond(s: State, c: Caller) returns (ext: seq<Step>)
    requires UnfinishedLeader(s.Pc(c)) && s.redis.entry.None?
    ensures WithoutExpiry(ext) && !OneLeader(RunFrom(s, ext))
  {
    var d := NewId(s.pcs.Keys);
    ext := Intrusion(s.Pc(c), c, d, d + 1);
    if s.Pc(c).Leading? {
      RunFromOne(s, Arrive(d));
      LeadingOwnerIsJoined(s, c, d);
    } else if s.Pc(c).Deleting? {
      DeletingOwnerAdmitsSecond(s, c, d, d + 1);
    } else {
      FailingOwnerAdmitsSecond(s, c, d, d + 1);
    }
  }

  /** After a run without early expiry, the expiry of a key that is there leaves one leader at a time
      in everything that follows, up to the next expiry, iff the caller that wrote it is finished. */
  lemma ExpiryIsHarmlessIff(steps: seq<Step>)
    requires NoEarlyExpiry(steps) && Run(steps).redis.entry.Some?
    ensures var s := Run(steps);
            (forall ext :: WithoutExpiry(ext) ==> OneLeader(RunFrom(Apply(s, Expire), ext)))
            <==> !UnfinishedLeader(s.Pc(s.redis.entry.value.owner))
  {
    var s := Run(steps);
    LeadersOwnTheKey(steps);
    if UnfinishedLeader(s.Pc(s.redis.entry.value.owner)) {
      var ext := UnfinishedOwnerAdmitsSecond(Apply(s, Expire), s.redis.entry.value.owner);
    } else {
      StepKeepsOwnership(s, Expire);
      forall ext | WithoutExpiry(ext)
        ensures OneLeader(RunFrom(Apply(s, Expire), ext))
      {
        OwnershipLasts(Apply(s, Expire), ext);
      }
    }
  }

  // ---------------------------------------------------------------------------------------
  // The lease
  // ---------------------------------------------------------------------------------------

  /** The protocol with a clock: when the key may go, and when each leader claimed it. */
  datatype Timed = Timed(state: State, clock: int, expiresAt: int, claimedAt: map<Caller, int>)

  const START := Timed(INITIAL, 0, 0, map[])

  datatype Move = Move(step: Step, at: int)

  predicate Claims(s: State, step: Step) {
    (step.Arrive? || step.ArriveReplyLost?) && step.c !in s.pcs && s.redis.entry.None?
  }

  predicate Stores(s: State, step: Step) {
    (step.Command? || step.ReplyLost?) && s.Pc(step.c).Storing?
  }

  /** Time goes forward, the key goes only once its time to live is over, and no leader is still
      unfinished more than `limit` after its claim. */
  ghost predicate Timely(t: Timed, m: Move, limit: int) {
    && t.clock <= m.at
    && (m.step == Expire && t.state.redis.entry.Some? ==> t.expiresAt <= m.at)
    && (forall c :: c in t.claimedAt && UnfinishedLeader(t.state.Pc(c)) ==> m.at <= t.claimedAt[c] + limit)
  }

  /** Both the claim and the stored result carry the same time to live. */
  function ApplyTimed(t: Timed, m: Move, ttl: int): Timed {
    Timed(Apply(t.state, m.step), m.at,
          if Claims(t.state, m.step) || Stores(t.state, m.step) then m.at + ttl else t.expiresAt,
          if Claims(t.state, m.step) then t.claimedAt[m.step.c := m.at] else t.claimedAt)
  }

  function RunTimed(moves: seq<Move>, ttl: int): Timed {
    if moves == [] then START else ApplyTimed(RunTimed(moves[..|moves| - 1], ttl), moves[|moves| - 1], ttl)
  }

  ghost predicate TimelyRun(moves: seq<Move>, ttl: int, limit: int) {
    moves == [] ||
    (TimelyRun(moves[..|moves| - 1], ttl, limit) &&
     Timely(RunTimed(moves[..|moves| - 1], ttl), moves[|moves| - 1], limit))
  }

  /** The key outlives its unfinished leader's claim by the whole time to live. */
  ghost predicate Covered(t: Timed, c: Caller, ttl: int) {
    c in t.claimedAt && t.claimedAt[c] <= t.clock && t.claimedAt[c] + ttl <= t.expiresAt
  }

  ghost predicate Inv(t: Timed, ttl: int) {
    && LeaderOwnsKey(t.state)
    && forall c :: c in t.state.pcs && UnfinishedLeader(t.state.pcs[c]) ==> Covered(t, c, ttl)
  }

  lemma StepKeepsCovered(t: Timed, m: Move, ttl: int, limit: int, c: Caller)
    requires Inv(t, ttl) && Timely(t, m, limit) && UnfinishedLeader(Apply(t.state, m.step).Pc(c))
    ensures Covered(ApplyTimed(t, m, ttl), c, ttl)
  {
    if UnfinishedLeader(t.state.Pc(c)) {
      assert Covered(t, c, ttl) && !Claims(t.state, m.step);
    } else {
      assert Claims(t.state, m.step) && m.step.c == c;
    }
  }

  lemma StepKeepsInv(t: Timed, m: Move, ttl: int, limit: int)
    requires ttl > limit && Inv(t, ttl) && Timely(t, m, limit)
    ensures Inv(ApplyTimed(t, m, ttl), ttl)
  {
    StepKeepsOwnership(t.state, m.step);
    forall c | c in Apply(t.state, m.step).pcs && UnfinishedLeader(Apply(t.state, m.step).pcs[c])
      ensures Covered(ApplyTimed(t, m, ttl), c, ttl)
    {
      StepKeepsCovered(t, m, ttl, limit, c);
    }
  }

  lemma {:induction false} TimelyRunsKeepInv(moves: seq<Move>, ttl: int, limit: int)
    requires ttl > limit && TimelyRun(moves, ttl, limit)
    ensures Inv(RunTimed(moves, ttl), ttl)
  {
    if moves != [] {
      TimelyRunsKeepInv(moves[..|moves| - 1], ttl, limit);
      StepKeepsInv(RunTimed(moves[..|moves| - 1], ttl), moves[|moves| - 1], ttl, limit);
    }
  }

  lemma Extend(moves: seq<Move>, m: Move, ttl: int, limit: int)
    requires TimelyRun(moves, ttl, limit) && Timely(RunTimed(moves, ttl), m, limit)
    ensures TimelyRun(moves + [m], ttl, limit)
    ensures RunTimed(moves + [m], ttl) == ApplyTimed(RunTimed(moves, ttl), m, ttl)
  {
    assert (moves + [m])[..|moves|] == moves;
  }

  lemma ShortLeaseIsShared(ttl: int, limit: int) returns (moves: seq<Move>)
    requires 1 <= ttl <= limit
    ensures TimelyRun(moves, ttl, limit) && !OneLeader(RunTimed(moves, ttl).state)
  {
    moves := [];
    Extend(moves, Move(Arrive(1), 0), ttl, limit);
    moves := moves + [Move(Arrive(1), 0)];
    var t := RunTimed(moves, ttl);
    assert t.expiresAt == ttl && t.claimedAt == map[1 := 0] && t.state.pcs == map[1 := Leading];
    Extend(moves, Move(Expire, ttl), ttl, limit);
    moves := moves + [Move(Expire, ttl)];
    t := RunTimed(moves, ttl);
    assert t.claimedAt == map[1 := 0] && t.state.pcs == map[1 := Leading];
    LeadingOwnerIsJoined(t.state, 1, 2);
    Extend(moves, Move(Arrive(2), ttl), ttl, limit);
    moves := moves + [Move(Arrive(2), ttl)];
  }

  /** If every leader issues its last command on the key within `limit` of its claim, then two leaders
      never run fn together, in any run, exactly when the time to live is longer than `limit`. */
  lemma OneLeaderIff(ttl: int, limit: int)
    requires 1 <= ttl
    ensures (forall moves :: TimelyRun(moves, ttl, limit) ==> OneLeader(RunTimed(moves, ttl).state))
            <==> ttl > limit
  {
    if ttl > limit {
      forall moves | TimelyRun(moves, ttl, limit)
        ensures OneLeader(RunTimed(moves, ttl).state)
      {
        TimelyRunsKeepInv(moves, ttl, limit);
      }
    } else {
      var moves := ShortLeaseIsShared(ttl, limit);
    }
  }
}
