/** Background jobs: a Postgres row per job, a queue entry per enqueue, three attempts per entry,
    then the dead-letter state, from which a replay enqueues the same row again. */
module JobLifecycle {
  import opened Options
  import opened Ids

  const MAX_JOB_ATTEMPTS := 3

  type JobId = nat
  type EntryId = nat

  datatype Status = Queued | Running | Failed | Completed | DeadLetter

  datatype Row = Row(status: Status, attempts: nat, progress: nat, error: Option<string>)

  datatype Event = JobCompleted(job: JobId) | JobFailed(job: JobId, error: string)

  /** The jobs table and the outbox rows written with it. */
  datatype Store = Store(rows: map<JobId, Row>, outbox: seq<Event>)

  const NEW_ROW := Row(Queued, 0, 0, None)

  function MarkRunning(s: Store, j: JobId, attempt: nat): Store {
    if j !in s.rows then s
    else s.(rows := s.rows[j := s.rows[j].(status := Running, attempts := attempt, progress := 0)])
  }

  /** Absent rows make the update, and with it the transaction, throw: nothing is written. */
  function MarkCompleted(s: Store, j: JobId): Store {
    if j !in s.rows then s
    else Store(s.rows[j := s.rows[j].(status := Completed, progress := 100, error := None)],
               s.outbox + [JobCompleted(j)])
  }

  function MarkFailed(s: Store, j: JobId, message: string, isFinalAttempt: bool): Store {
    if j !in s.rows then s
    else if isFinalAttempt then
      Store(s.rows[j := s.rows[j].(status := DeadLetter, error := Some(message))],
            s.outbox + [JobFailed(j, message)])
    else
      s.(rows := s.rows[j := s.rows[j].(status := Failed, error := Some(message))])
  }

  /** The row reset of replayJob, once its check has passed. */
  function ResetForReplay(s: Store, j: JobId): Store {
    if j !in s.rows then s else s.(rows := s.rows[j := NEW_ROW])
  }

  /** The table, updated in place. */
  class JobStore {
    var rows: map<JobId, Row>
    var outbox: seq<Event>

    function Value(): Store
      reads this
    {
      Store(rows, outbox)
    }

    constructor ()
      ensures Value() == Store(map[], [])
    {
      rows, outbox := map[], [];
    }

    method RunMarkRunning(j: JobId, attempt: nat)
      modifies this`rows
      ensures Value() == MarkRunning(old(Value()), j, attempt)
    {
      if j in rows {
        rows := rows[j := rows[j].(status := Running, attempts := attempt, progress := 0)];
      }
    }

    method RunMarkCompleted(j: JobId) returns (found: bool)
      modifies this
      ensures found == (j in old(rows)) && Value() == MarkCompleted(old(Value()), j)
    {
      found := j in rows;
      if found {
        rows := rows[j := rows[j].(status := Completed, progress := 100, error := None)];
        outbox := outbox + [JobCompleted(j)];
      }
    }

    method RunMarkFailed(j: JobId, message: string, isFinalAttempt: bool)
      modifies this
      ensures Value() == MarkFailed(old(Value()), j, message, isFinalAttempt)
    {
      if j in rows {
        var status := if isFinalAttempt then DeadLetter else Failed;
        rows := rows[j := rows[j].(status := status, error := Some(message))];
        if isFinalAttempt {
          outbox := outbox + [JobFailed(j, message)];
        }
      }
    }

    /** The read replayJob begins with: only a dead-lettered job passes. */
    method RunReplayCheck(j: JobId) returns (replayable: bool)
      ensures replayable <==> j in rows && rows[j].status == DeadLetter
    {
      replayable := false;
      if j in rows {
        replayable := rows[j].status == DeadLetter;
      }
    }

    /** The update that follows, in a transaction of its own: it does not look at the status again. */
    method RunResetForReplay(j: JobId)
      modifies this`rows
      ensures Value() == ResetForReplay(old(Value()), j)
    {
      if j in rows {
        rows := rows[j := NEW_ROW];
      }
    }
  }

  // ---------------------------------------------------------------------------------------
  // Callers, the queue and the worker
  // ---------------------------------------------------------------------------------------

  /** A createJob or replayJob call under way: past the status check, or past the row write and
      about to enqueue. */
  datatype Phase = Checked(job: JobId) | Written(job: JobId)

  /** A live queue entry: how many attempts it was given, how many it has behind it, and whether one is
      running. */
  datatype Entry = Entry(job: JobId, attempts: nat, made: nat, active: bool)

  /** `runs` is history: how often the handler was started for each entry ever made. */
  datatype State = State(
    store: Store,
    callers: map<nat, Phase>,
    entries: map<EntryId, Entry>,
    next: EntryId,
    runs: map<EntryId, nat>)

  datatype Step =
    | Create(c: nat, j: JobId)          // createJob inserts the row
    | CheckReplay(c: nat, j: JobId)     // replayJob reads the row
    | WriteReplay(c: nat)               // .. and resets it
    | Enqueue(c: nat)                   // queue.add
    | Abandon(c: nat)                   // the caller dies, or queue.add throws
    | Pick(e: EntryId)                  // a worker starts the next attempt
    | Succeed(e: EntryId)               // the handler returns
    | Fail(e: EntryId, message: string) // the handler throws

  const INITIAL := State(Store(map[], []), map[], map[], 0, map[])

  predicate Replayable(s: State, j: JobId) { j in s.store.rows && s.store.rows[j].status == DeadLetter }

  /** One step; a step that is not possible in s changes nothing. */
  function Apply(s: State, step: Step): State {
    match step
    case Create(c, j) =>
      if c in s.callers || j in s.store.rows then s
      else s.(store := s.store.(rows := s.store.rows[j := NEW_ROW]), callers := s.callers[c := Written(j)])
    case CheckReplay(c, j) =>
      if c in s.callers || !Replayable(s, j) then s else s.(callers := s.callers[c := Checked(j)])
    case WriteReplay(c) =>
      if c !in s.callers || !s.callers[c].Checked? then s
      else s.(store := ResetForReplay(s.store, s.callers[c].job), callers := s.callers[c := Written(s.callers[c].job)])
    case Enqueue(c) =>
      if c !in s.callers || !s.callers[c].Written? then s
      else s.(callers := s.callers - {c},
              entries := s.entries[s.next := Entry(s.callers[c].job, MAX_JOB_ATTEMPTS, 0, false)],
              next := s.next + 1, runs := s.runs[s.next := 0])
    case Abandon(c) => s.(callers := s.callers - {c})
    case Pick(e) =>
      if e !in s.entries || s.entries[e].active then s
      else
        var en := s.entries[e];
        s.(store := MarkRunning(s.store, en.job, en.made + 1),
           entries := s.entries[e := en.(active := true)],
           runs := s.runs[e := (if e in s.runs then s.runs[e] else 0) + 1])
    case Succeed(e) =>
      if e !in s.entries || !s.entries[e].active then s
      else s.(store := MarkCompleted(s.store, s.entries[e].job), entries := s.entries - {e})
    case Fail(e, message) =>
      if e !in s.entries || !s.entries[e].active then s
      else
        var en := s.entries[e];
        var attemptsMade := en.made + 1;
        // The listener decides about the row, the queue about the entry, each by its own limit.
        s.(store := MarkFailed(s.store, en.job, message, attemptsMade >= MAX_JOB_ATTEMPTS),
           entries := if attemptsMade >= en.attempts then s.entries - {e}
                      else s.entries[e := en.(made := attemptsMade, active := false)])
  }

  function Run(steps: seq<Step>): State {
    if steps == [] then INITIAL else Apply(Run(steps[..|steps| - 1]), steps[|steps| - 1])
  }

  /** Replays of a job do not overlap: no status check is made between another replay's check of that
      job and its write. */
  predicate Overlaps(s: State, step: Step) {
    step.CheckReplay? && exists c :: c in s.callers && s.callers[c] == Checked(step.j)
  }

  ghost predicate NoOverlap(steps: seq<Step>) {
    forall k :: 0 <= k < |steps| ==> !Overlaps(Run(steps[..k]), steps[k])
  }

  // ---------------------------------------------------------------------------------------
  // What every run keeps
  // ---------------------------------------------------------------------------------------

  /** At most one call or queue entry is carrying a job. */
  ghost predicate OneCarrier(s: State) {
    && (forall c, d :: c in s.callers && d in s.callers && s.callers[c].job == s.callers[d].job ==> c == d)
    && (forall e, f :: e in s.entries && f in s.entries && s.entries[e].job == s.entries[f].job ==> e == f)
    && (forall c, e :: c in s.callers && e in s.entries ==> s.callers[c].job != s.entries[e].job)
  }

  ghost predicate CallerFits(s: State, p: Phase) {
    p.job in s.store.rows && s.store.rows[p.job].status == if p.Checked? then DeadLetter else Queued
  }

  ghost predicate EntryFits(s: State, en: Entry) {
    && en.job in s.store.rows && en.attempts == MAX_JOB_ATTEMPTS && en.made < MAX_JOB_ATTEMPTS
    && var row := s.store.rows[en.job];
       if en.active then row.status == Running && row.attempts == en.made + 1
       else row.status == (if en.made == 0 then Queued else Failed) && row.attempts == en.made
  }

  ghost predicate StatusesFit(s: State) {
    && (forall c :: c in s.callers ==> CallerFits(s, s.callers[c]))
    && (forall e :: e in s.entries ==> EntryFits(s, s.entries[e]))
    && (forall j :: j in s.store.rows && s.store.rows[j].status == Queued ==> s.store.rows[j].attempts == 0)
  }

  ghost predicate RunsMatch(s: State, e: EntryId)
    requires e in s.entries
  {
    && s.entries[e].attempts == MAX_JOB_ATTEMPTS && s.entries[e].made < MAX_JOB_ATTEMPTS && e in s.runs
    && s.runs[e] == s.entries[e].made + if s.entries[e].active then 1 else 0
  }

  ghost predicate RunsFit(s: State) {
    && (forall e :: e in s.entries ==> RunsMatch(s, e))
    && (forall e :: e in s.runs ==> e < s.next && s.runs[e] <= MAX_JOB_ATTEMPTS)
  }

  /** Nobody carries a job that has no row or is dead-lettered, except a replay past its check. */
  lemma NotCarried(s: State, j: JobId)
    requires StatusesFit(s)
    ensures j !in s.store.rows ==> forall c :: c in s.callers ==> s.callers[c].job != j
    ensures j !in s.store.rows || Replayable(s, j) ==> forall e :: e in s.entries ==> s.entries[e].job != j
  {
    forall c | c in s.callers
      ensures j !in s.store.rows ==> s.callers[c].job != j
    {
      assert CallerFits(s, s.callers[c]);
    }
    forall e | e in s.entries
      ensures j !in s.store.rows || Replayable(s, j) ==> s.entries[e].job != j
    {
      assert EntryFits(s, s.entries[e]);
    }
  }

  lemma CallStepKeepsOneCarrier(s: State, step: Step)
    requires OneCarrier(s) && StatusesFit(s) && !Overlaps(s, step)
    requires step.Create? || step.CheckReplay? || step.WriteReplay? || step.Abandon?
    ensures OneCarrier(Apply(s, step))
  {
    if step.Create? || step.CheckReplay? {
      NotCarried(s, step.j);
    }
  }

  lemma EnqueueKeepsOneCarrier(s: State, c: nat)
    requires OneCarrier(s)
    ensures OneCarrier(Apply(s, Enqueue(c)))
  {
  }

  lemma WorkerStepKeepsOneCarrier(s: State, step: Step)
    requires OneCarrier(s) && (step.Pick? || step.Succeed? || step.Fail?)
    ensures OneCarrier(Apply(s, step))
  {
    var s' := Apply(s, step);
    assert s'.callers == s.callers && s'.entries.Keys <= s.entries.Keys;
    assert forall e :: e in s'.entries ==> s'.entries[e].job == s.entries[e].job;
  }

  lemma StepKeepsOneCarrier(s: State, step: Step)
    requires OneCarrier(s) && StatusesFit(s) && !Overlaps(s, step)
    ensures OneCarrier(Apply(s, step))
  {
    if step.Enqueue? {
      EnqueueKeepsOneCarrier(s, step.c);
    } else if step.Pick? || step.Succeed? || step.Fail? {
      WorkerStepKeepsOneCarrier(s, step);
    } else {
      CallStepKeepsOneCarrier(s, step);
    }
  }

  lemma StepKeepsCallerFits(s: State, step: Step, c: nat)
    requires OneCarrier(s) && StatusesFit(s) && c in Apply(s, step).callers
    ensures CallerFits(Apply(s, step), Apply(s, step).callers[c])
  {
    if c in s.callers {
      assert CallerFits(s, s.callers[c]);
    }
  }

  lemma CallStepKeepsEntryFits(s: State, step: Step, e: EntryId)
    requires OneCarrier(s) && StatusesFit(s) && e in Apply(s, step).entries
    requires !step.Pick? && !step.Succeed? && !step.Fail?
    ensures EntryFits(Apply(s, step), Apply(s, step).entries[e])
  {
    if e in s.entries {
      assert EntryFits(s, s.entries[e]);
    }
    if (step.WriteReplay? || step.Enqueue?) && step.c in s.callers {
      assert CallerFits(s, s.callers[step.c]);
    }
  }

  lemma WorkerStepKeepsEntryFits(s: State, step: Step, e: EntryId)
    requires OneCarrier(s) && StatusesFit(s) && e in Apply(s, step).entries
    requires step.Pick? || step.Succeed? || step.Fail?
    ensures EntryFits(Apply(s, step), Apply(s, step).entries[e])
  {
    assert EntryFits(s, s.entries[e]);
    if step.e in s.entries && step.e != e {
      assert s.entries[e].job != s.entries[step.e].job;
    }
  }

  lemma StepKeepsStatuses(s: State, step: Step)
    requires OneCarrier(s) && StatusesFit(s)
    ensures StatusesFit(Apply(s, step))
  {
    forall c | c in Apply(s, step).callers
      ensures CallerFits(Apply(s, step), Apply(s, step).callers[c])
    {
      StepKeepsCallerFits(s, step, c);
    }
    forall e | e in Apply(s, step).entries
      ensures EntryFits(Apply(s, step), Apply(s, step).entries[e])
    {
      if step.Pick? || step.Succeed? || step.Fail? {
        WorkerStepKeepsEntryFits(s, step, e);
      } else {
        CallStepKeepsEntryFits(s, step, e);
      }
    }
  }

  lemma StepKeepsRuns(s: State, step: Step)
    requires RunsFit(s)
    ensures RunsFit(Apply(s, step))
  {
  }

  lemma {:induction false} RunsAreSound(steps: seq<Step>)
    requires NoOverlap(steps)
    ensures OneCarrier(Run(steps)) && StatusesFit(Run(steps))
  {
    if steps != [] {
      var n := |steps| - 1;
      forall k | 0 <= k < n
        ensures !Overlaps(Run(steps[..n][..k]), steps[..n][k])
      {
        assert steps[..n][..k] == steps[..k];
        assert !Overlaps(Run(steps[..k]), steps[k]);
      }
      RunsAreSound(steps[..n]);
      assert !Overlaps(Run(steps[..n]), steps[n]);
      StepKeepsOneCarrier(Run(steps[..n]), steps[n]);
      StepKeepsStatuses(Run(steps[..n]), steps[n]);
    }
  }

  /** With replays that do not overlap: a row never has two live entries, and a job that is completed
      or dead-lettered has none. */
  lemma LiveEntriesAreUnique(steps: seq<Step>, j: JobId)
    requires NoOverlap(steps)
    ensures var s := Run(steps);
            && OneLive(s, j)
            && (j in s.store.rows && (s.store.rows[j].status == Completed || s.store.rows[j].status == DeadLetter) ==>
                  forall e :: e in s.entries ==> s.entries[e].job != j)
  {
    RunsAreSound(steps);
  }

  /** The queue's own limit on attempts and the listener's test agree: a failure ends the queue entry
      iff it dead-letters the row. */
  lemma EntryEndsWithItsRow(steps: seq<Step>, e: EntryId, message: string)
    requires NoOverlap(steps) && e in Run(steps).entries && Run(steps).entries[e].active
    ensures var s, s' := Run(steps), Apply(Run(steps), Fail(e, message));
            e !in s'.entries <==> Replayable(s', s.entries[e].job)
  {
    RunsAreSound(steps);
    FailureEndsBoth(Run(steps), e, message);
  }

  lemma FailureEndsBoth(s: State, e: EntryId, message: string)
    requires e in s.entries && s.entries[e].active && EntryFits(s, s.entries[e])
    ensures var s' := Apply(s, Fail(e, message)); e !in s'.entries <==> Replayable(s', s.entries[e].job)
  {
  }

  /** Every enqueue starts the handler at most three times. */
  lemma {:induction false} AtMostThreeRuns(steps: seq<Step>)
    ensures RunsFit(Run(steps))
  {
    if steps != [] {
      AtMostThreeRuns(steps[..|steps| - 1]);
      StepKeepsRuns(Run(steps[..|steps| - 1]), steps[|steps| - 1]);
    }
  }

  // ---------------------------------------------------------------------------------------
  // Transitions and events
  // ---------------------------------------------------------------------------------------

  predicate Fails(s: State, step: Step, e: EntryId) {
    step.Fail? && step.e == e && e in s.entries && s.entries[e].active
  }

  /** Step k is a failure of entry e. */
  predicate FailsAt(steps: seq<Step>, k: nat, e: EntryId)
    requires k < |steps|
  {
    Fails(Run(steps[..k]), steps[k], e)
  }

  function Failures(steps: seq<Step>, e: EntryId): nat {
    if steps == [] then 0
    else Failures(steps[..|steps| - 1], e) + if FailsAt(steps, |steps| - 1, e) then 1 else 0
  }

  lemma StepCountsFailures(s: State, step: Step, e: EntryId)
    requires RunsFit(s)
    ensures var s' := Apply(s, step);
            && s.next <= s'.next
            && (Fails(s, step, e) ==> e < s.next)
            && (e in s'.entries ==> e < s'.next)
            && (e in s'.entries ==>
                s'.entries[e].made ==
                  (if e in s.entries then s.entries[e].made else 0) + (if Fails(s, step, e) then 1 else 0))
            && (e in s'.entries && e !in s.entries ==> e == s.next)
  {
  }

  lemma {:induction false} MadeCountsFailures(steps: seq<Step>, e: EntryId)
    ensures var s := Run(steps);
            && (e >= s.next ==> Failures(steps, e) == 0)
            && (e in s.entries ==> s.entries[e].made == Failures(steps, e))
  {
    if steps != [] {
      var n := |steps| - 1;
      AtMostThreeRuns(steps[..n]);
      MadeCountsFailures(steps[..n], e);
      StepCountsFailures(Run(steps[..n]), steps[n], e);
    }
  }

  function StatusAfter(steps: seq<Step>, j: JobId): Option<Status> {
    var rows := Run(steps).store.rows;
    if j in rows then Some(rows[j].status) else None
  }

  /** Step k moves job j into the status. */
  predicate EntersAt(steps: seq<Step>, k: nat, j: JobId, status: Status)
    requires k < |steps|
  {
    StatusAfter(steps[..k], j) != Some(status) && StatusAfter(steps[..k + 1], j) == Some(status)
  }

  lemma RunSnoc(steps: seq<Step>, k: nat)
    requires k < |steps|
    ensures Run(steps[..k + 1]) == Apply(Run(steps[..k]), steps[k])
  {
    assert steps[..k + 1][..k] == steps[..k];
  }

  lemma NoOverlapPrefix(steps: seq<Step>, k: nat)
    requires NoOverlap(steps) && k <= |steps|
    ensures NoOverlap(steps[..k])
  {
    forall i | 0 <= i < k
      ensures !Overlaps(Run(steps[..k][..i]), steps[..k][i])
    {
      assert steps[..k][..i] == steps[..i];
      assert !Overlaps(Run(steps[..i]), steps[i]);
    }
  }

  lemma StepDeadLetters(s: State, step: Step, j: JobId)
    requires OneCarrier(s) && StatusesFit(s)
    ensures (!Replayable(s, j) && Replayable(Apply(s, step), j)) <==>
            (step.Fail? && Fails(s, step, step.e) && s.entries[step.e].job == j &&
             s.entries[step.e].made + 1 == MAX_JOB_ATTEMPTS)
  {
    if step.Fail? && Fails(s, step, step.e) {
      assert EntryFits(s, s.entries[step.e]);
    }
  }

  /** A job is dead-lettered exactly by the third failure of one queue entry. */
  lemma DeadLetterIsTheThirdFailure(steps: seq<Step>, k: nat, j: JobId)
    requires NoOverlap(steps) && k < |steps|
    ensures EntersAt(steps, k, j, DeadLetter) <==>
            (steps[k].Fail? && FailsAt(steps, k, steps[k].e) &&
             Run(steps[..k]).entries[steps[k].e].job == j &&
             Failures(steps[..k + 1], steps[k].e) == MAX_JOB_ATTEMPTS)
  {
    NoOverlapPrefix(steps, k);
    RunsAreSound(steps[..k]);
    RunSnoc(steps, k);
    StepDeadLetters(Run(steps[..k]), steps[k], j);
    if steps[k].Fail? && FailsAt(steps, k, steps[k].e) {
      MadeCountsFailures(steps[..k], steps[k].e);
      assert steps[..k + 1][..k] == steps[..k];
    }
  }

  function Entries(steps: seq<Step>, j: JobId, status: Status): nat {
    if steps == [] then 0
    else Entries(steps[..|steps| - 1], j, status) + if EntersAt(steps, |steps| - 1, j, status) then 1 else 0
  }

  function Announced(outbox: seq<Event>, j: JobId, completed: bool): nat {
    if outbox == [] then 0
    else Announced(outbox[..|outbox| - 1], j, completed) +
         if outbox[|outbox| - 1].job == j && outbox[|outbox| - 1].JobCompleted? == completed then 1 else 0
  }

  ghost predicate HasStatus(s: State, j: JobId, status: Status) {
    j in s.store.rows && s.store.rows[j].status == status
  }

  predicate Settles(s: State, step: Step) {
    (step.Succeed? || step.Fail?) && step.e in s.entries && s.entries[step.e].active
  }

  lemma OtherStepsAnnounceNothing(s: State, step: Step, j: JobId, status: Status)
    requires !Settles(s, step) && (status == Completed || status == DeadLetter)
    ensures Apply(s, step).store.outbox == s.store.outbox
    ensures HasStatus(Apply(s, step), j, status) ==> HasStatus(s, j, status)
  {
  }

  lemma SettlingAnnounces(s: State, step: Step, j: JobId, completed: bool)
    requires OneCarrier(s) && StatusesFit(s) && Settles(s, step)
    ensures var s' := Apply(s, step);
            var status := if completed then Completed else DeadLetter;
            Announced(s'.store.outbox, j, completed) == Announced(s.store.outbox, j, completed) +
              if !HasStatus(s, j, status) && HasStatus(s', j, status) then 1 else 0
  {
    var s' := Apply(s, step);
    assert EntryFits(s, s.entries[step.e]);
    if |s'.store.outbox| > |s.store.outbox| {
      assert s'.store.outbox[..|s.store.outbox|] == s.store.outbox;
    }
  }

  lemma StepAnnounces(s: State, step: Step, j: JobId, completed: bool)
    requires OneCarrier(s) && StatusesFit(s)
    ensures var s' := Apply(s, step);
            var status := if completed then Completed else DeadLetter;
            Announced(s'.store.outbox, j, completed) == Announced(s.store.outbox, j, completed) +
              if !HasStatus(s, j, status) && HasStatus(s', j, status) then 1 else 0
  {
    if Settles(s, step) {
      SettlingAnnounces(s, step, j, completed);
    } else {
      OtherStepsAnnounceNothing(s, step, j, if completed then Completed else DeadLetter);
    }
  }

  /** The outbox holds one job.completed per completion and one job.failed per dead-lettering. */
  lemma {:induction false} EventsMatchTransitions(steps: seq<Step>, j: JobId, completed: bool)
    requires NoOverlap(steps)
    ensures Announced(Run(steps).store.outbox, j, completed)
         == Entries(steps, j, if completed then Completed else DeadLetter)
  {
    if steps != [] {
      var n := |steps| - 1;
      NoOverlapPrefix(steps, n);
      EventsMatchTransitions(steps[..n], j, completed);
      RunsAreSound(steps[..n]);
      StepAnnounces(Run(steps[..n]), steps[n], j, completed);
      assert steps[..n + 1] == steps;
    }
  }

  // ---------------------------------------------------------------------------------------
  // Where the promises stop
  // ---------------------------------------------------------------------------------------

  function RunFrom(s: State, steps: seq<Step>): State {
    if steps == [] then s else Apply(RunFrom(s, steps[..|steps| - 1]), steps[|steps| - 1])
  }

  ghost predicate WithoutChecks(steps: seq<Step>) {
    forall i :: 0 <= i < |steps| ==> !steps[i].CheckReplay?
  }

  ghost predicate OneLive(s: State, j: JobId) {
    forall e, f :: e in s.entries && f in s.entries && s.entries[e].job == j == s.entries[f].job ==> e == f
  }

  lemma {:induction false} SoundnessLasts(s: State, ext: seq<Step>)
    requires OneCarrier(s) && StatusesFit(s) && WithoutChecks(ext)
    ensures OneCarrier(RunFrom(s, ext)) && StatusesFit(RunFrom(s, ext))
  {
    if ext != [] {
      SoundnessLasts(s, ext[..|ext| - 1]);
      StepKeepsOneCarrier(RunFrom(s, ext[..|ext| - 1]), ext[|ext| - 1]);
      StepKeepsStatuses(RunFrom(s, ext[..|ext| - 1]), ext[|ext| - 1]);
    }
  }

  /** A replay past its check enqueues its job, whatever has become of the row. */
  lemma CheckedEnqueues(s: State, c: nat, j: JobId)
    requires c in s.callers && s.callers[c] == Checked(j)
    ensures var t := Apply(Apply(s, WriteReplay(c)), Enqueue(c));
            && t.entries == s.entries[s.next := Entry(j, MAX_JOB_ATTEMPTS, 0, false)] && t.next == s.next + 1
            && forall d :: d in s.callers && d != c ==> d in t.callers && t.callers[d] == s.callers[d]
  {
  }

  /** Two replays that both read DEAD_LETTER before either writes put two live entries on one row. */
  lemma OverlappingReplaysDuplicate(s: State, j: JobId, c: nat, d: nat)
    requires c in s.callers && d in s.callers && c != d && s.callers[c] == Checked(j) == s.callers[d]
    ensures !OneLive(RunFrom(s, [WriteReplay(c), Enqueue(c)] + [WriteReplay(d), Enqueue(d)]), j)
  {
    var t := Apply(Apply(s, WriteReplay(c)), Enqueue(c));
    var u := Apply(Apply(t, WriteReplay(d)), Enqueue(d));
    CheckedEnqueues(s, c, j);
    CheckedEnqueues(t, d, j);
    assert u.entries[s.next].job == j && u.entries[s.next + 1].job == j;
    RunFromTwo(s, WriteReplay(c), Enqueue(c));
    RunFromTwo(t, WriteReplay(d), Enqueue(d));
    RunFromAppend(s, [WriteReplay(c), Enqueue(c)], [WriteReplay(d), Enqueue(d)]);
  }

  lemma RunFromSnoc(s: State, steps: seq<Step>, a: Step)
    ensures RunFrom(s, steps + [a]) == Apply(RunFrom(s, steps), a)
  {
    assert (steps + [a])[..|steps|] == steps;
  }

  lemma RunFromTwo(s: State, a: Step, b: Step)
    ensures RunFrom(s, [a, b]) == Apply(Apply(s, a), b)
  {
    RunFromSnoc(s, [], a);
    RunFromSnoc(s, [a], b);
    assert [] + [a] == [a] && [a] + [b] == [a, b];
  }

  lemma {:induction false} RunFromAppend(s: State, a: seq<Step>, b: seq<Step>)
    ensures RunFrom(s, a + b) == RunFrom(RunFrom(s, a), b)
  {
    if b == [] {
      assert a + b == a;
    } else {
      var n := |b| - 1;
      RunFromAppend(s, a, b[..n]);
      RunFromSnoc(s, a + b[..n], b[n]);
      assert a + b == a + b[..n] + [b[n]];
    }
  }

  /** The job keeps to one live entry through everything that follows, up to the next check. */
  ghost predicate StaysOneLive(s: State, j: JobId) {
    forall ext :: WithoutChecks(ext) ==> OneLive(RunFrom(s, ext), j)
  }

  lemma SecondCheckDuplicates(s: State, j: JobId, c: nat, d: nat)
    requires Replayable(s, j) && d !in s.callers && c in s.callers && s.callers[c] == Checked(j)
    ensures !StaysOneLive(Apply(s, CheckReplay(d, j)), j)
  {
    var t := Apply(s, CheckReplay(d, j));
    var ext := [WriteReplay(c), Enqueue(c)] + [WriteReplay(d), Enqueue(d)];
    OverlappingReplaysDuplicate(t, j, c, d);
    assert WithoutChecks(ext);
  }

  lemma LoneCheckIsSafe(s: State, j: JobId, d: nat)
    requires OneCarrier(s) && StatusesFit(s) && !Overlaps(s, CheckReplay(d, j))
    ensures StaysOneLive(Apply(s, CheckReplay(d, j)), j)
  {
    var t := Apply(s, CheckReplay(d, j));
    StepKeepsOneCarrier(s, CheckReplay(d, j));
    StepKeepsStatuses(s, CheckReplay(d, j));
    forall ext | WithoutChecks(ext)
      ensures OneLive(RunFrom(t, ext), j)
    {
      SoundnessLasts(t, ext);
    }
  }

  /** A replay of a job that passes its check keeps the job at one live entry, through everything that
      follows up to the next check, iff no other replay has passed its check and not yet written. */
  lemma ReplayIsSafeIff(steps: seq<Step>, j: JobId, d: nat)
    requires NoOverlap(steps) && Replayable(Run(steps), j) && d !in Run(steps).callers
    ensures var s := Run(steps);
            StaysOneLive(Apply(s, CheckReplay(d, j)), j)
            <==> forall c :: c in s.callers ==> s.callers[c] != Checked(j)
  {
    var s := Run(steps);
    if c :| c in s.callers && s.callers[c] == Checked(j) {
      SecondCheckDuplicates(s, j, c, d);
    } else {
      RunsAreSound(steps);
      LoneCheckIsSafe(s, j, d);
    }
  }

  /** A job whose enqueue failed: queued, with nobody carrying it. */
  ghost predicate Orphaned(s: State, j: JobId) {
    && j in s.store.rows && s.store.rows[j].status == Queued
    && (forall c :: c in s.callers ==> s.callers[c].job != j)
    && (forall e :: e in s.entries ==> s.entries[e].job != j)
  }

  lemma StepKeepsOrphaned(s: State, j: JobId, step: Step)
    requires Orphaned(s, j)
    ensures Orphaned(Apply(s, step), j)
  {
  }

  /** Such a job stays as it is through every later run: replay, which accepts only dead-lettered
      jobs, cannot recover it. */
  lemma {:induction false} OrphanedJobIsStuck(s: State, j: JobId, steps: seq<Step>)
    requires Orphaned(s, j)
    ensures Orphaned(RunFrom(s, steps), j) && !Replayable(RunFrom(s, steps), j)
  {
    if steps != [] {
      OrphanedJobIsStuck(s, j, steps[..|steps| - 1]);
      StepKeepsOrphaned(RunFrom(s, steps[..|steps| - 1]), j, steps[|steps| - 1]);
    }
  }

  /** And that is how it comes about: a fresh job abandoned between its row and its enqueue. */
  lemma AbandonedCreateIsOrphaned(s: State, j: JobId, c: nat)
    requires OneCarrier(s) && StatusesFit(s) && j !in s.store.rows && c !in s.callers
    ensures Orphaned(Apply(Apply(s, Create(c, j)), Abandon(c)), j)
  {
    forall d | d in s.callers
      ensures s.callers[d].job != j
    {
      assert CallerFits(s, s.callers[d]);
    }
    forall e | e in s.entries
      ensures s.entries[e].job != j
    {
      assert EntryFits(s, s.entries[e]);
    }
  }

  /** So is any job whose create or replay ends between the row and the enqueue. */
  lemma AbandonedCallIsOrphaned(s: State, j: JobId, c: nat)
    requires OneCarrier(s) && StatusesFit(s) && c in s.callers && s.callers[c] == Written(j)
    ensures Orphaned(Apply(s, Abandon(c)), j)
  {
    assert CallerFits(s, s.callers[c]);
  }

  ghost predicate Carried(s: State, j: JobId) {
    || (exists c :: c in s.callers && s.callers[c].job == j)
    || (exists e :: e in s.entries && s.entries[e].job == j)
  }

  /** Some continuation gets the job running. */
  ghost predicate CanStart(s: State, j: JobId) { exists ext :: HasStatus(RunFrom(s, ext), j, Running) }

  lemma CanStartBefore(s: State, a: Step, j: JobId)
    requires CanStart(Apply(s, a), j)
    ensures CanStart(s, j)
  {
    var ext :| HasStatus(RunFrom(Apply(s, a), ext), j, Running);
    RunFromSnoc(s, [], a);
    assert [] + [a] == [a];
    RunFromAppend(s, [a], ext);
    assert HasStatus(RunFrom(s, [a] + ext), j, Running);
  }

  lemma IdleEntryStarts(s: State, e: EntryId, j: JobId)
    requires j in s.store.rows && e in s.entries && s.entries[e].job == j && !s.entries[e].active
    ensures CanStart(s, j)
  {
    assert RunFrom(Apply(s, Pick(e)), []) == Apply(s, Pick(e));
    assert HasStatus(RunFrom(Apply(s, Pick(e)), []), j, Running);
    CanStartBefore(s, Pick(e), j);
  }

  lemma CallStarts(s: State, c: nat, j: JobId)
    requires j in s.store.rows && c in s.callers && s.callers[c].job == j
    ensures CanStart(s, j)
  {
    var t := if s.callers[c].Checked? then Apply(s, WriteReplay(c)) else s;
    var u := Apply(t, Enqueue(c));
    assert u.entries[t.next] == Entry(j, MAX_JOB_ATTEMPTS, 0, false);
    IdleEntryStarts(u, t.next, j);
    CanStartBefore(t, Enqueue(c), j);
    if s.callers[c].Checked? {
      CanStartBefore(s, WriteReplay(c), j);
    }
  }

  /** Even if an attempt is under way beside a queued row, its failure leads to another. */
  lemma ActiveEntryStarts(s: State, e: EntryId, j: JobId)
    requires j in s.store.rows && e in s.entries && s.entries[e].job == j && s.entries[e].active
    requires s.entries[e].attempts == MAX_JOB_ATTEMPTS
    ensures CanStart(s, j)
  {
    var t := Apply(s, Fail(e, ""));
    if e in t.entries {
      IdleEntryStarts(t, e, j);
    } else {
      var d := NewId(t.callers.Keys);
      CallStarts(Apply(t, CheckReplay(d, j)), d, j);
      CanStartBefore(t, CheckReplay(d, j), j);
    }
    CanStartBefore(s, Fail(e, ""), j);
  }

  /** After any run, a queued job can still get to run iff a call or a queue entry carries it. */
  lemma QueuedJobCanStartIff(steps: seq<Step>, j: JobId)
    requires HasStatus(Run(steps), j, Queued)
    ensures CanStart(Run(steps), j) <==> Carried(Run(steps), j)
  {
    var s := Run(steps);
    if c :| c in s.callers && s.callers[c].job == j {
      CallStarts(s, c, j);
    } else if e :| e in s.entries && s.entries[e].job == j {
      AtMostThreeRuns(steps);
      assert RunsMatch(s, e);
      if s.entries[e].active {
        ActiveEntryStarts(s, e, j);
      } else {
        IdleEntryStarts(s, e, j);
      }
    } else {
      forall ext
        ensures !HasStatus(RunFrom(s, ext), j, Running)
      {
        OrphanedJobIsStuck(s, j, ext);
      }
    }
  }

  // ---------------------------------------------------------------------------------------
  // What each step of a worker writes
  // ---------------------------------------------------------------------------------------

  /** Calls and queue entries are about jobs that have a row. */
  ghost predicate JobsExist(s: State) {
    && (forall c :: c in s.callers ==> s.callers[c].job in s.store.rows)
    && (forall e :: e in s.entries ==> s.entries[e].job in s.store.rows)
  }

  lemma StepKeepsJobs(s: State, step: Step)
    requires JobsExist(s)
    ensures JobsExist(Apply(s, step))
  {
    var t := Apply(s, step);
    assert s.store.rows.Keys <= t.store.rows.Keys;
  }

  lemma {:induction false} RunsKeepJobs(steps: seq<Step>)
    ensures JobsExist(Run(steps))
  {
    if steps != [] {
      RunsKeepJobs(steps[..|steps| - 1]);
      StepKeepsJobs(Run(steps[..|steps| - 1]), steps[|steps| - 1]);
    }
  }

  /** The only row that changes is j's, and it becomes `row`. */
  ghost predicate Writes(s: State, t: State, j: JobId, row: Row) { t.store.rows == s.store.rows[j := row] }

  /** In any run: starting an attempt makes the row RUNNING with the attempt's number and no progress,
      and announces nothing. */
  lemma PickStartsAttempt(steps: seq<Step>, e: EntryId)
    requires e in Run(steps).entries && !Run(steps).entries[e].active
    ensures var s, t := Run(steps), Apply(Run(steps), Pick(e));
            var en := s.entries[e];
            && en.job in s.store.rows
            && Writes(s, t, en.job, Row(Running, en.made + 1, 0, s.store.rows[en.job].error))
            && t.entries == s.entries[e := en.(active := true)] && t.store.outbox == s.store.outbox
  {
    RunsKeepJobs(steps);
  }

  /** A handler that returns completes its job: the row says so in full, the queue entry is gone, and
      one job.completed is written. */
  lemma SuccessCompletes(steps: seq<Step>, e: EntryId)
    requires e in Run(steps).entries && Run(steps).entries[e].active
    ensures var s, t := Run(steps), Apply(Run(steps), Succeed(e));
            var j := s.entries[e].job;
            && j in s.store.rows && Writes(s, t, j, Row(Completed, s.store.rows[j].attempts, 100, None))
            && t.entries == s.entries - {e} && t.store.outbox == s.store.outbox + [JobCompleted(j)]
  {
    RunsKeepJobs(steps);
  }

  /** One that throws leaves its message in the row: to be retried, with the entry idle again, or, the
      third time, dead-lettered with one job.failed. */
  lemma FailureIsRecorded(steps: seq<Step>, e: EntryId, message: string)
    requires e in Run(steps).entries && Run(steps).entries[e].active
    ensures var s, t := Run(steps), Apply(Run(steps), Fail(e, message));
            var en := s.entries[e];
            && en.job in s.store.rows
            && var row := s.store.rows[en.job];
               if en.made + 1 < MAX_JOB_ATTEMPTS then
                 && Writes(s, t, en.job, Row(Failed, row.attempts, row.progress, Some(message)))
                 && t.entries == s.entries[e := Entry(en.job, MAX_JOB_ATTEMPTS, en.made + 1, false)]
                 && t.store.outbox == s.store.outbox
               else
                 && Writes(s, t, en.job, Row(DeadLetter, row.attempts, row.progress, Some(message)))
                 && t.entries == s.entries - {e}
                 && t.store.outbox == s.store.outbox + [JobFailed(en.job, message)]
  {
    RunsKeepJobs(steps);
    AtMostThreeRuns(steps);
    assert RunsMatch(Run(steps), e);
  }

  /** A replay past its check puts the row back to a new one's. */
  lemma ReplayStartsOver(steps: seq<Step>, c: nat)
    requires c in Run(steps).callers && Run(steps).callers[c].Checked?
    ensures var s, t := Run(steps), Apply(Run(steps), WriteReplay(c));
            && Writes(s, t, s.callers[c].job, Row(Queued, 0, 0, None))
            && t.callers == s.callers[c := Written(s.callers[c].job)] && t.store.outbox == s.store.outbox
  {
    RunsKeepJobs(steps);
  }
}
