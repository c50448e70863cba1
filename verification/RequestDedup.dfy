/** Coalescing of identical in-flight requests: one leader claims a Redis key and runs fn, the
    others follow its result over pub/sub. One key is modelled, at the level of single Redis
    commands, with any number of callers interleaving. */
module RequestDedup {
  import opened Options

  type Caller = nat

  /** What fn may return and JSON can carry. `dedupFailed` says whether the parsed value has a
      truthy __dedupFailed property. */
  datatype Value = Null | Doc(body: string, dedupFailed: bool)

  /** The failure signal a leader publishes. */
  const MARKER := Doc("", true)

  /** The key's text: the PROCESSING sentinel, or the JSON text of a result. JSON encoding is
      injective and never yields the sentinel, so the two are kept apart by constructor. `owner`
      records which caller wrote the text; no caller reads it. */
  datatype Entry = Claim(owner: Caller) | Stored(owner: Caller, v: Value)

  /** What Redis holds: the key, and per subscribed connection the messages not yet handled. */
  datatype Server = Server(entry: Option<Entry>, mail: map<Caller, seq<Value>>)

  function SetNx(r: Server, c: Caller): Server {
    if r.entry.None? then r.(entry := Some(Claim(c))) else r
  }

  /** SET overwrites whatever is there. */
  function Set(r: Server, c: Caller, v: Value): Server { r.(entry := Some(Stored(c, v))) }

  /** DEL, and what expiry does: whatever is there goes. */
  function Del(r: Server): Server { r.(entry := None) }

  /** Every connection subscribed at this moment gets the message, in order; nobody else. */
  function Publish(r: Server, v: Value): Server {
    r.(mail := map c | c in r.mail :: r.mail[c] + [v])
  }

  function Subscribe(r: Server, c: Caller): Server { r.(mail := r.mail[c := []]) }

  function Unsubscribe(r: Server, c: Caller): Server { r.(mail := r.mail - {c}) }

  /** The Redis side, updated in place. */
  class Redis {
    var entry: Option<Entry>
    var mail: map<Caller, seq<Value>>

    function Snapshot(): Server
      reads this
    {
      Server(entry, mail)
    }

    constructor ()
      ensures Snapshot() == Server(None, map[])
    {
      entry, mail := None, map[];
    }

    /** SET key PROCESSING EX ttl NX */
    method RunSetNx(c: Caller) returns (claimed: bool)
      modifies this
      ensures Snapshot() == SetNx(old(Snapshot()), c)
      ensures claimed <==> old(entry).None?
    {
      claimed := entry.None?;
      if claimed {
        entry := Some(Claim(c));
      }
    }

    /** SET key payload EX ttl */
    method RunSet(c: Caller, v: Value)
      modifies this`entry
      ensures Snapshot() == Set(old(Snapshot()), c, v)
    {
      entry := Some(Stored(c, v));
    }

    method RunDel()
      modifies this`entry
      ensures Snapshot() == Del(old(Snapshot()))
    {
      entry := None;
    }

    method RunPublish(v: Value)
      modifies this`mail
      ensures Snapshot() == Publish(old(Snapshot()), v)
    {
      mail := map c | c in mail :: mail[c] + [v];
    }

    method RunSubscribe(c: Caller)
      modifies this`mail
      ensures Snapshot() == Subscribe(old(Snapshot()), c)
    {
      mail := mail[c := []];
    }

    method RunUnsubscribe(c: Caller)
      modifies this`mail
      ensures Snapshot() == Unsubscribe(old(Snapshot()), c)
    {
      mail := mail - {c};
    }
  }

  datatype Error = FnFailed(who: Caller) | RedisFailed

  /** Where a caller is. `seen` in the last follower states is the owner of the claim its recheck
      read, if it read one. */
  datatype Pc =
    | Absent                                   // has not called yet
    | Leading                                  // claimed; fn is running
    | Storing(v: Value)                        // fn returned; about to SET the payload
    | Announcing(v: Value)                     // about to PUBLISH it
    | Deleting(e: Error)                       // in the catch block; about to DEL the key
    | AnnouncingFailure(e: Error)              // about to PUBLISH the marker
    | Checking                                 // not claimed; about to GET
    | Subscribing
    | Rechecking                               // subscribed; about to GET again
    | Rechecked(seen: Option<Caller>)          // GET answered; message listener not installed yet
    | Waiting(seen: Option<Caller>)            // listener and timer installed
    | FallingBack                              // running fn itself
    | Returned(v: Value)
    | Threw(e: Error)
    | Hung                                     // listener threw after clearing the timer; still subscribed
    | Crashed

  predicate UnfinishedLeader(pc: Pc) { pc.Leading? || pc.Storing? || pc.Announcing? || pc.Deleting? }

  predicate RunsFn(pc: Pc) { pc.Leading? || pc.FallingBack? }

  /** The whole system. `results`, `failed`, `published` and `missed` are history: results fn has
      returned, callers whose own fn threw, callers that have published, and followers that had a
      message arrive between their recheck and the installation of their listener. */
  datatype State = State(
    redis: Server,
    pcs: map<Caller, Pc>,
    results: set<Value>,
    failed: set<Caller>,
    published: set<Caller>,
    missed: set<Caller>)
  {
    function Pc(c: Caller): Pc { if c in pcs then pcs[c] else Absent }
    function Move(c: Caller, pc: Pc): State { this.(pcs := pcs[c := pc]) }
    function Leave(c: Caller, pc: Pc): State {
      this.(pcs := pcs[c := pc], redis := Unsubscribe(redis, c))
    }
  }

  const INITIAL := State(Server(None, map[]), map[], {}, {}, {}, {})

  datatype Step =
    | Arrive(c: Caller)                 // the SET NX of a new caller
    | ArriveReplyLost(c: Caller)        // it takes effect, but throws
    | FnReturns(c: Caller, v: Value)
    | FnThrows(c: Caller)
    | Command(c: Caller)                // the caller's next Redis command succeeds
    | CommandFails(c: Caller)           // or throws without effect
    | ReplyLost(c: Caller)              // or takes effect and throws
    | Listen(c: Caller)                 // the follower installs its message listener
    | Deliver(c: Caller)                // the oldest pending message reaches the caller
    | Timeout(c: Caller)
    | Expire
    | Crash(c: Caller)

  /** One step; a step that is not possible in s changes nothing. */
  function Apply(s: State, step: Step): State {
    match step
    case Arrive(c) =>
      if c in s.pcs then s
      else s.(redis := SetNx(s.redis, c), pcs := s.pcs[c := if s.redis.entry.None? then Leading else Checking])
    case ArriveReplyLost(c) =>
      if c in s.pcs then s else s.(redis := SetNx(s.redis, c), pcs := s.pcs[c := Threw(RedisFailed)])
    case FnReturns(c, v) =>
      if s.Pc(c).Leading? then s.Move(c, Storing(v)).(results := s.results + {v})
      else if s.Pc(c).FallingBack? then s.Move(c, Returned(v)).(results := s.results + {v})
      else s
    case FnThrows(c) =>
      if s.Pc(c).Leading? then s.Move(c, Deleting(FnFailed(c))).(failed := s.failed + {c})
      else if s.Pc(c).FallingBack? then s.Move(c, Threw(FnFailed(c))).(failed := s.failed + {c})
      else s
    case Command(c) => if c in s.pcs then RunCommand(s, c) else s
    case CommandFails(c) => if c in s.pcs then FailCommand(s, c) else s
    case ReplyLost(c) => if c in s.pcs then LoseReply(s, c) else s
    case Listen(c) =>
      if s.Pc(c).Rechecked? then s.Move(c, Waiting(s.pcs[c].seen)) else s
    case Deliver(c) =>
      if c in s.pcs && c in s.redis.mail && s.redis.mail[c] != [] then Handle(s, c) else s
    case Timeout(c) =>
      if s.Pc(c).Waiting? then s.Leave(c, FallingBack) else s
    case Expire => s.(redis := Del(s.redis))
    case Crash(c) => if c in s.pcs then s.Leave(c, Crashed) else s
  }

  /** The caller's next Redis command, when it succeeds: what it does to Redis, and where the caller
      goes on. A caller that has no command to issue stays where it is. */
  function Exec(r: Server, c: Caller, pc: Pc): (Server, Pc) {
    match pc
    case Storing(v) => (Set(r, c, v), Announcing(v))
    case Announcing(v) => (Publish(r, v), Returned(v))
    case Deleting(e) => (Del(r), AnnouncingFailure(e))
    case AnnouncingFailure(e) => (Publish(r, MARKER), Threw(e))
    case Checking =>
      (r, if r.entry.Some? && r.entry.value.Stored? then Returned(r.entry.value.v) else Subscribing)
    case Subscribing => (Subscribe(r, c), Rechecking)
    case Rechecking =>
      if r.entry.Some? && r.entry.value.Stored? then (Unsubscribe(r, c), Returned(r.entry.value.v))
      else (r, Rechecked(if r.entry.Some? then Some(r.entry.value.owner) else None))
    case _ => (r, pc)
  }

  /** withRequestDedup and waitForLeader, one Redis command at a time. */
  method Perform(redis: Redis, c: Caller, pc: Pc) returns (next: Pc)
    modifies redis
    ensures (redis.Snapshot(), next) == Exec(old(redis.Snapshot()), c, pc)
  {
    next := pc;
    match pc
    case Storing(v) =>
      redis.RunSet(c, v);
      next := Announcing(v);
    case Announcing(v) =>
      redis.RunPublish(v);
      next := Returned(v);
    case Deleting(e) =>
      redis.RunDel();
      next := AnnouncingFailure(e);
    case AnnouncingFailure(e) =>
      redis.RunPublish(MARKER);
      next := Threw(e);
    case Checking =>
      var existing := redis.entry;
      next := if existing.Some? && existing.value.Stored? then Returned(existing.value.v) else Subscribing;
    case Subscribing =>
      redis.RunSubscribe(c);
      next := Rechecking;
    case Rechecking =>
      var recheck := redis.entry;
      if recheck.Some? && recheck.value.Stored? {
        redis.RunUnsubscribe(c);
        next := Returned(recheck.value.v);
      } else {
        next := Rechecked(if recheck.Some? then Some(recheck.value.owner) else None);
      }
    case _ =>
  }

  predicate Publishes(pc: Pc) { pc.Announcing? || pc.AnnouncingFailure? }

  function RunCommand(s: State, c: Caller): State
    requires c in s.pcs
  {
    var (r, pc) := Exec(s.redis, c, s.pcs[c]);
    s.(redis := r, pcs := s.pcs[c := pc],
       published := if Publishes(s.pcs[c]) then s.published + {c} else s.published)
  }

  /** An error inside the leader's try block leads to its catch block; one inside the catch block,
      or in the follower's first GET, is thrown; the follower's later ones are caught. */
  function FailCommand(s: State, c: Caller): State
    requires c in s.pcs
  {
    match s.pcs[c]
    case Storing(_) => s.Move(c, Deleting(RedisFailed))
    case Announcing(_) => s.Move(c, Deleting(RedisFailed))
    case Deleting(_) => s.Move(c, Threw(RedisFailed))
    case AnnouncingFailure(_) => s.Move(c, Threw(RedisFailed))
    case Checking => s.Move(c, Threw(RedisFailed))
    case Subscribing => s.Leave(c, FallingBack)
    case Rechecking => s.Leave(c, FallingBack)
    case _ => s
  }

  /** Redis is as after the command, the caller as after its failure. */
  function LoseReply(s: State, c: Caller): State
    requires c in s.pcs
  {
    FailCommand(RunCommand(s, c).(pcs := s.pcs), c)
  }

  /** The listener has run once it throws on null, but it stays installed: a later message can still
      settle the promise. */
  function Handle(s: State, c: Caller): State
    requires c in s.pcs && c in s.redis.mail && s.redis.mail[c] != []
  {
    var v := s.redis.mail[c][0];
    var s' := s.(redis := s.redis.(mail := s.redis.mail[c := s.redis.mail[c][1..]]));
    if s.pcs[c].Waiting? || s.pcs[c].Hung? then
      if v.Null? then s'.Move(c, Hung)
      else if v.dedupFailed then s.Leave(c, FallingBack)
      else s.Leave(c, Returned(v))
    else if s.pcs[c].Rechecked? then s'.(missed := s.missed + {c})
    else s'
  }

  function Run(steps: seq<Step>): State {
    if steps == [] then INITIAL else Apply(Run(steps[..|steps| - 1]), steps[|steps| - 1])
  }

  /** The same from any state on. */
  function RunFrom(s: State, steps: seq<Step>): State {
    if steps == [] then s else Apply(RunFrom(s, steps[..|steps| - 1]), steps[|steps| - 1])
  }

  lemma RunFromOne(s: State, a: Step)
    ensures RunFrom(s, [a]) == Apply(s, a)
  {
    assert [a][..0] == [];
  }

  lemma RunFromSnoc(s: State, steps: seq<Step>, a: Step)
    ensures RunFrom(s, steps + [a]) == Apply(RunFrom(s, steps), a)
  {
    assert (steps + [a])[..|steps|] == steps;
  }

  lemma {:induction false} RunOn(steps: seq<Step>, ext: seq<Step>)
    ensures Run(steps + ext) == RunFrom(Run(steps), ext)
  {
    if ext == [] {
      assert steps + ext == steps;
    } else {
      RunOn(steps, ext[..|ext| - 1]);
      assert (steps + ext)[..|steps + ext| - 1] == steps + ext[..|ext| - 1];
    }
  }

  lemma RunTwo(steps: seq<Step>, a: Step, b: Step)
    ensures Run(steps + [a, b]) == Apply(Apply(Run(steps), a), b)
  {
    RunOn(steps, [a, b]);
    RunFromOne(Run(steps), a);
    RunFromSnoc(Run(steps), [a], b);
    assert [a] + [b] == [a, b];
  }

  lemma RunThree(steps: seq<Step>, a: Step, b: Step, c: Step)
    ensures Run(steps + [a, b, c]) == Apply(Apply(Apply(Run(steps), a), b), c)
  {
    RunTwo(steps, a, b);
    RunOn(steps + [a, b], [c]);
    RunFromOne(Run(steps + [a, b]), c);
    assert steps + [a, b, c] == steps + [a, b] + [c];
  }

  // ---------------------------------------------------------------------------------------
  // Value safety
  // ---------------------------------------------------------------------------------------

  ghost predicate PcSafe(s: State, c: Caller, pc: Pc) {
    && (pc.Storing? || pc.Announcing? || pc.Returned? ==> pc.v in s.results)
    && (pc.Deleting? || pc.AnnouncingFailure? || pc.Threw? ==>
        pc.e == RedisFailed || (pc.e == FnFailed(c) && c in s.failed))
  }

  ghost predicate EntrySafe(s: State) {
    s.redis.entry.Some? && s.redis.entry.value.Stored? ==> s.redis.entry.value.v in s.results
  }

  ghost predicate MailSafe(s: State, mail: seq<Value>) {
    forall i :: 0 <= i < |mail| ==> mail[i] == MARKER || mail[i] in s.results
  }

  ghost predicate ValuesSafe(s: State) {
    && EntrySafe(s)
    && (forall c :: c in s.pcs ==> PcSafe(s, c, s.pcs[c]))
    && (forall c :: c in s.redis.mail ==> MailSafe(s, s.redis.mail[c]))
  }

  lemma StepKeepsEntrySafe(s: State, step: Step)
    requires ValuesSafe(s)
    ensures EntrySafe(Apply(s, step))
    ensures s.results <= Apply(s, step).results <= s.results + (if step.FnReturns? then {step.v} else {})
  {
  }

  predicate IsCommand(step: Step) { step.Command? || step.CommandFails? || step.ReplyLost? }

  lemma CommandKeepsPcSafe(s: State, step: Step, c: Caller)
    requires ValuesSafe(s) && c in s.pcs && IsCommand(step)
    ensures c in Apply(s, step).pcs && PcSafe(Apply(s, step), c, Apply(s, step).pcs[c])
  {
    assert PcSafe(s, c, s.pcs[c]);
  }

  lemma OtherStepKeepsPcSafe(s: State, step: Step, c: Caller)
    requires ValuesSafe(s) && c in Apply(s, step).pcs && !IsCommand(step)
    ensures PcSafe(Apply(s, step), c, Apply(s, step).pcs[c])
  {
    if c in s.pcs {
      assert PcSafe(s, c, s.pcs[c]);
    }
  }

  lemma PublishKeepsMailSafe(s: State, step: Step, c: Caller)
    requires ValuesSafe(s) && c in Apply(s, step).redis.mail && IsCommand(step) && Publishes(s.Pc(step.c))
    ensures MailSafe(Apply(s, step), Apply(s, step).redis.mail[c])
  {
    assert c in s.redis.mail && MailSafe(s, s.redis.mail[c]) && PcSafe(s, step.c, s.pcs[step.c]);
  }

  lemma CommandKeepsMailSafe(s: State, step: Step, c: Caller)
    requires ValuesSafe(s) && c in Apply(s, step).redis.mail && IsCommand(step) && !Publishes(s.Pc(step.c))
    ensures MailSafe(Apply(s, step), Apply(s, step).redis.mail[c])
  {
    if c in s.redis.mail {
      assert MailSafe(s, s.redis.mail[c]);
    }
  }

  lemma OtherStepKeepsMailSafe(s: State, step: Step, c: Caller)
    requires ValuesSafe(s) && c in Apply(s, step).redis.mail && !IsCommand(step)
    ensures MailSafe(Apply(s, step), Apply(s, step).redis.mail[c])
  {
    assert MailSafe(s, s.redis.mail[c]);
  }

  lemma StepKeepsValuesSafe(s: State, step: Step)
    requires ValuesSafe(s)
    ensures ValuesSafe(Apply(s, step))
    ensures s.results <= Apply(s, step).results <= s.results + (if step.FnReturns? then {step.v} else {})
  {
    var s' := Apply(s, step);
    StepKeepsEntrySafe(s, step);
    forall c | c in s'.pcs
      ensures PcSafe(s', c, s'.pcs[c])
    {
      if IsCommand(step) {
        CommandKeepsPcSafe(s, step, c);
      } else {
        OtherStepKeepsPcSafe(s, step, c);
      }
    }
    forall c | c in s'.redis.mail
      ensures MailSafe(s', s'.redis.mail[c])
    {
      if IsCommand(step) && Publishes(s.Pc(step.c)) {
        PublishKeepsMailSafe(s, step, c);
      } else if IsCommand(step) {
        CommandKeepsMailSafe(s, step, c);
      } else {
        OtherStepKeepsMailSafe(s, step, c);
      }
    }
  }

  lemma {:induction false} RunsAreValueSafe(steps: seq<Step>)
    ensures ValuesSafe(Run(steps))
  {
    if steps != [] {
      RunsAreValueSafe(steps[..|steps| - 1]);
      StepKeepsValuesSafe(Run(steps[..|steps| - 1]), steps[|steps| - 1]);
    }
  }

  /** Step k of the run is a completed execution of fn by caller d, returning v. */
  ghost predicate Computes(steps: seq<Step>, k: nat, v: Value) {
    && k < |steps| && steps[k].FnReturns? && steps[k].v == v
    && RunsFn(Run(steps[..k]).Pc(steps[k].c))
  }

  lemma {:induction false} ResultsWereComputed(steps: seq<Step>, v: Value)
    requires v in Run(steps).results
    ensures exists k: nat :: Computes(steps, k, v)
  {
    var n := |steps| - 1;
    var before := Run(steps[..n]);
    if v in before.results {
      ResultsWereComputed(steps[..n], v);
      var k: nat :| Computes(steps[..n], k, v);
      assert steps[..n][..k] == steps[..k];
      assert Computes(steps, k, v);
    } else {
      assert Computes(steps, n, v);
    }
  }

  /** Whatever expires, crashes or is overwritten: a value a caller gets is the result of some
      completed execution of fn, and an error it gets is its own fn's or Redis'. */
  lemma OutcomesAreGenuine(steps: seq<Step>, c: Caller)
    requires c in Run(steps).pcs
    ensures var pc := Run(steps).pcs[c];
            && (pc.Returned? ==> exists k: nat :: Computes(steps, k, pc.v))
            && (pc.Threw? ==> pc.e == RedisFailed || (pc.e == FnFailed(c) && c in Run(steps).failed))
  {
    RunsAreValueSafe(steps);
    var pc := Run(steps).pcs[c];
    if pc.Returned? {
      ResultsWereComputed(steps, pc.v);
    }
  }

  /** A waiting follower hangs on a message exactly when that message is null .. */
  lemma NullMessageHangs(s: State, f: Caller)
    requires s.Pc(f).Waiting? || s.Pc(f).Hung?
    requires f in s.redis.mail && s.redis.mail[f] != []
    ensures Apply(s, Deliver(f)).Pc(f).Hung? <==> s.redis.mail[f][0].Null?
  {
  }

  lemma StepHangsOnlyOnNull(s: State, step: Step, c: Caller)
    requires ValuesSafe(s) && Null !in s.results
    requires !s.Pc(c).Hung?
    ensures !Apply(s, step).Pc(c).Hung?
  {
    if step == Deliver(c) && c in s.redis.mail {
      assert MailSafe(s, s.redis.mail[c]);
    }
  }

  /** .. so no follower hangs unless some execution of fn returned null. */
  lemma {:induction false} HangsOnlyOnNull(steps: seq<Step>, c: Caller)
    requires forall k :: 0 <= k < |steps| && steps[k].FnReturns? ==> !steps[k].v.Null?
    ensures Null !in Run(steps).results
    ensures !Run(steps).Pc(c).Hung?
  {
    if steps != [] {
      var n := |steps| - 1;
      var before := Run(steps[..n]);
      HangsOnlyOnNull(steps[..n], c);
      RunsAreValueSafe(steps[..n]);
      StepKeepsEntrySafe(before, steps[n]);
      StepHangsOnlyOnNull(before, steps[n], c);
    }
  }

  // ---------------------------------------------------------------------------------------
  // Coordination
  // ---------------------------------------------------------------------------------------

  predicate IsDone(pc: Pc) { pc.Returned? || pc.Threw? || pc.Crashed? }

  /** A claim still standing belongs to a leader that has published nothing. */
  ghost predicate ClaimUnannounced(s: State) {
    s.redis.entry.Some? && s.redis.entry.value.Claim? ==>
      var owner := s.redis.entry.value.owner;
      && owner !in s.published && owner in s.pcs
      && !s.pcs[owner].Announcing? && !s.pcs[owner].AnnouncingFailure?
  }

  /** Who has published is done, or had the reply lost and is in its catch block. */
  ghost predicate PublishersAreDone(s: State) {
    forall c :: c in s.published ==>
      c in s.pcs && (IsDone(s.pcs[c]) || s.pcs[c].Deleting? || s.pcs[c].AnnouncingFailure?)
  }

  ghost predicate ClaimsUnannounced(s: State) { ClaimUnannounced(s) && PublishersAreDone(s) }

  predicate Listens(pc: Pc) { pc.Rechecked? || pc.Waiting? }

  /** A follower that saw a claim, is still waiting and missed no message has mail as soon as that
      claim's leader has published. */
  ghost predicate WokenAs(s: State, c: Caller, pc: Pc) {
    && (pc.Rechecking? || Listens(pc) ==> c in s.redis.mail)
    && (Listens(pc) && pc.seen.Some? && pc.seen.value in s.published ==>
          c in s.redis.mail && (s.redis.mail[c] != [] || c in s.missed))
  }

  ghost predicate Woken(s: State) { forall c :: c in s.pcs ==> WokenAs(s, c, s.pcs[c]) }

  lemma StepKeepsClaimUnannounced(s: State, step: Step)
    requires ClaimsUnannounced(s)
    ensures ClaimUnannounced(Apply(s, step))
  {
  }

  lemma StepKeepsPublishersDone(s: State, step: Step)
    requires PublishersAreDone(s)
    ensures PublishersAreDone(Apply(s, step)) && s.published <= Apply(s, step).published
  {
  }

  lemma CommandKeepsWokenAs(s: State, step: Step, c: Caller)
    requires ClaimUnannounced(s) && c in s.pcs && WokenAs(s, c, s.pcs[c]) && IsCommand(step)
    ensures WokenAs(Apply(s, step), c, Apply(s, step).Pc(c))
  {
  }

  lemma OtherStepKeepsWokenAs(s: State, step: Step, c: Caller)
    requires c in s.pcs && WokenAs(s, c, s.pcs[c]) && !IsCommand(step)
    ensures WokenAs(Apply(s, step), c, Apply(s, step).Pc(c))
  {
  }

  lemma StepKeepsWoken(s: State, step: Step)
    requires ClaimsUnannounced(s) && Woken(s)
    ensures Woken(Apply(s, step))
  {
    var s' := Apply(s, step);
    forall c | c in s'.pcs
      ensures WokenAs(s', c, s'.pcs[c])
    {
      if c in s.pcs {
        if IsCommand(step) {
          CommandKeepsWokenAs(s, step, c);
        } else {
          OtherStepKeepsWokenAs(s, step, c);
        }
      }
    }
  }

  lemma {:induction false} RunsAreCoordinated(steps: seq<Step>)
    ensures ClaimsUnannounced(Run(steps)) && Woken(Run(steps))
  {
    if steps != [] {
      RunsAreCoordinated(steps[..|steps| - 1]);
      StepKeepsClaimUnannounced(Run(steps[..|steps| - 1]), steps[|steps| - 1]);
      StepKeepsPublishersDone(Run(steps[..|steps| - 1]), steps[|steps| - 1]);
      StepKeepsWoken(Run(steps[..|steps| - 1]), steps[|steps| - 1]);
    }
  }

  /** Step k is a PUBLISH of caller l. */
  ghost predicate PublishesAt(steps: seq<Step>, k: nat, l: Caller) {
    && k < |steps| && (steps[k] == Command(l) || steps[k] == ReplyLost(l))
    && Publishes(Run(steps[..k]).Pc(l))
  }

  lemma {:induction false} PublishedStays(steps: seq<Step>, k: nat, l: Caller)
    requires PublishesAt(steps, k, l)
    ensures l in Run(steps).published
  {
    var n := |steps| - 1;
    if k < n {
      assert steps[..n][..k] == steps[..k];
      PublishedStays(steps[..n], k, l);
      RunsAreCoordinated(steps[..n]);
      StepKeepsPublishersDone(Run(steps[..n]), steps[n]);
    }
  }

  /** If the recheck at step j still reads PROCESSING, every PUBLISH of that claim's leader
      comes after it, and so after the follower's SUBSCRIBE. */
  lemma RecheckPrecedesPublish(steps: seq<Step>, j: nat, k: nat, f: Caller, l: Caller)
    requires j < |steps| && steps[j] == Command(f) && Run(steps[..j]).Pc(f).Rechecking?
    requires Run(steps[..j]).redis.entry == Some(Claim(l))
    requires PublishesAt(steps, k, l)
    ensures j < k
  {
    if k < j {
      assert steps[..j][..k] == steps[..k];
      PublishedStays(steps[..j], k, l);
      RunsAreCoordinated(steps[..j]);
    }
  }

  // ---------------------------------------------------------------------------------------
  // One leader at a time
  // ---------------------------------------------------------------------------------------

  /** No key expires before the leader that wrote it is done with its own commands. */
  ghost predicate NoEarlyExpiry(steps: seq<Step>) {
    forall k :: 0 <= k < |steps| && steps[k] == Expire ==>
      var s := Run(steps[..k]);
      s.redis.entry.Some? ==> !UnfinishedLeader(s.Pc(s.redis.entry.value.owner))
  }

  ghost predicate LeaderOwnsKey(s: State) {
    forall c :: c in s.pcs && UnfinishedLeader(s.pcs[c]) ==>
      s.redis.entry.Some? && s.redis.entry.value.owner == c
  }

  lemma CommandKeepsOwnership(s: State, step: Step)
    requires LeaderOwnsKey(s) && IsCommand(step)
    ensures LeaderOwnsKey(Apply(s, step))
  {
  }

  lemma StepKeepsOwnership(s: State, step: Step)
    requires LeaderOwnsKey(s)
    requires step == Expire && s.redis.entry.Some? ==> !UnfinishedLeader(s.Pc(s.redis.entry.value.owner))
    ensures LeaderOwnsKey(Apply(s, step))
  {
    if IsCommand(step) {
      CommandKeepsOwnership(s, step);
    }
  }

  lemma {:induction false} LeadersOwnTheKey(steps: seq<Step>)
    requires NoEarlyExpiry(steps)
    ensures LeaderOwnsKey(Run(steps))
  {
    if steps != [] {
      var n := |steps| - 1;
      forall k | 0 <= k < n && steps[..n][k] == Expire
        ensures steps[..n][..k] == steps[..k]
      {
      }
      LeadersOwnTheKey(steps[..n]);
      StepKeepsOwnership(Run(steps[..n]), steps[n]);
    }
  }

  /** If no key expires under an unfinished leader, two leaders never run fn at the same time. */
  lemma OneLeaderAtATime(steps: seq<Step>, c: Caller, d: Caller)
    requires NoEarlyExpiry(steps)
    requires Run(steps).Pc(c).Leading? && Run(steps).Pc(d).Leading?
    ensures c == d
  {
    LeadersOwnTheKey(steps);
  }

  /** The condition cannot be weakened to claims not expiring while their fn runs. Here caller 1's
      claim expires only after its fn returned, and caller 2's claim never expires: caller 1's late
      SET overwrites it, and the payload expires. Callers 2 and 3 then both run fn as leaders. */
  lemma ExpiryAfterFnStillBreaksExclusion(v: Value)
    ensures var first := [Arrive(1), FnReturns(1, v)];
            var second := first + [Expire, Arrive(2)];
            var third := second + [Command(1)];
            var fourth := third + [Expire, Arrive(3)];
            && Run(first).Pc(1).Storing? && Run(third).redis.entry == Some(Stored(1, v))
            && Run(fourth).Pc(2).Leading? && Run(fourth).Pc(3).Leading?
  {
    var first := [Arrive(1), FnReturns(1, v)];
    FirstClaim(v);
    TwoClaims(v);
    RunTwo(first, Expire, Arrive(2));
    LateSetInARun(first + [Expire, Arrive(2)], v);
  }

  lemma LateSetInARun(steps: seq<Step>, v: Value)
    requires Run(steps).Pc(1) == Storing(v) && Run(steps).Pc(2).Leading? && 3 !in Run(steps).pcs
    ensures Run(steps + [Command(1)]).redis.entry == Some(Stored(1, v))
    ensures var s := Run(steps + [Command(1)] + [Expire, Arrive(3)]); s.Pc(2).Leading? && s.Pc(3).Leading?
  {
    RunOn(steps, [Command(1)]);
    RunFromOne(Run(steps), Command(1));
    RunTwo(steps + [Command(1)], Expire, Arrive(3));
    LateSetAdmitsAnother(Run(steps), 1, 2, 3, v);
  }

  lemma FirstClaim(v: Value)
    ensures Run([Arrive(1), FnReturns(1, v)]) == Apply(Apply(INITIAL, Arrive(1)), FnReturns(1, v))
  {
    var first := [Arrive(1), FnReturns(1, v)];
    assert [] + first == first;
    RunTwo([], Arrive(1), FnReturns(1, v));
  }

  lemma TwoClaims(v: Value)
    ensures var s := Apply(Apply(INITIAL, Arrive(1)), FnReturns(1, v));
            var t := Apply(Apply(s, Expire), Arrive(2));
            s.Pc(1).Storing? && t.Pc(1) == Storing(v) && t.Pc(2).Leading? && t.Pc(3).Absent?
  {
  }

  /** A leader that stores its result after a second one has claimed the key overwrites that claim;
      when the stored result expires, a third caller becomes leader beside the second. */
  lemma LateSetAdmitsAnother(s: State, c: Caller, d: Caller, e: Caller, v: Value)
    requires s.Pc(c) == Storing(v) && s.Pc(d).Leading? && e !in s.pcs
    ensures var t := Apply(s, Command(c));
            var u := Apply(Apply(t, Expire), Arrive(e));
            t.redis.entry == Some(Stored(c, v)) && u.Pc(d).Leading? && u.Pc(e).Leading?
  {
  }
}
