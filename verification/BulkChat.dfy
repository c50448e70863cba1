/** Billing of bulk_chat jobs: each prompt under a request id derived from the job and its index,
    so that retries and replays repeat the ids and are billed once. */
module BulkChat {
  import opened Options
  import opened Billing

  function Digit(d: nat): char
    requires d < 10
  {
    ('0' as int + d) as char
  }

  /** The decimal text of a number, as a template literal prints it. */
  function Decimal(n: nat): (s: string)
    ensures s != ""
  {
    if n < 10 then [Digit(n)] else Decimal(n / 10) + [Digit(n % 10)]
  }

  function Parse(s: string): int {
    if s == "" then 0 else 10 * Parse(s[..|s| - 1]) + (s[|s| - 1] as int - '0' as int)
  }

  lemma {:induction false} DecimalRoundTrip(n: nat)
    ensures Parse(Decimal(n)) == n
    ensures forall i :: 0 <= i < |Decimal(n)| ==> '0' <= Decimal(n)[i] <= '9'
    ensures Decimal(n)[0] == '0' ==> n == 0 && |Decimal(n)| == 1
  {
    if n < 10 {
      assert Decimal(n)[..0] == "";
    } else {
      DecimalRoundTrip(n / 10);
      assert Decimal(n)[..|Decimal(n)| - 1] == Decimal(n / 10);
    }
  }

  function RequestId(jobRecordId: string, promptIndex: nat): string {
    "job:" + jobRecordId + ":" + Decimal(promptIndex)
  }

  ghost predicate NoColon(s: string) { forall i :: 0 <= i < |s| ==> s[i] != ':' }

  lemma SplitAtLastColon(a: string, x: string, b: string, y: string)
    requires NoColon(x) && NoColon(y) && a + ":" + x == b + ":" + y
    ensures a == b && x == y
  {
    var s, t := a + ":" + x, b + ":" + y;
    assert s[|a|] == ':' && t[|b|] == ':';
    assert |a| == |b|;
    assert a == s[..|a|] && b == t[..|b|] && x == s[|a| + 1..] && y == t[|b| + 1..];
  }

  /** No two prompts of any two jobs share a request id, whatever text the job ids hold. */
  lemma RequestIdIsInjective(job: string, i: nat, job': string, i': nat)
    requires RequestId(job, i) == RequestId(job', i')
    ensures job == job' && i == i'
  {
    DecimalRoundTrip(i);
    DecimalRoundTrip(i');
    SplitAtLastColon("job:" + job, Decimal(i), "job:" + job', Decimal(i'));
    assert job == ("job:" + job)[4..] && job' == ("job:" + job')[4..];
  }

  /** And the ids of jobs are told apart from all others by their first four characters. */
  lemma RequestIdIsTagged(job: string, i: nat)
    ensures |RequestId(job, i)| > 4 && RequestId(job, i)[..4] == "job:"
  {
    assert RequestId(job, i) == "job:" + (job + ":" + Decimal(i));
  }

  datatype Usage = Usage(promptTokens: nat, completionTokens: nat, costUsd: real)

  /** What happens to one prompt during one attempt. A worker crash at any point is one of these
      too: it ends the attempt with the writes made so far. */
  datatype Trial =
    | ChatFails
    | Chats(content: string, usage: Option<Usage>, billing: Ending, reports: bool)

  datatype Run = Run(ops: seq<Op>, completed: bool)

  function RowFor(job: string, i: nat, u: Usage): UsageRow {
    UsageRow(RequestId(job, i), u.promptTokens, u.completionTokens, u.costUsd)
  }

  /** The recording made for prompt i, if there is a key to bill and a usage to bill it for. */
  function Billed(job: string, hasKey: bool, i: nat, t: Trial): seq<Op>
    requires t.Chats?
  {
    if hasKey && t.usage.Some? then [Recording(RowFor(job, i, t.usage.value), t.billing)] else []
  }

  /** Whether the attempt goes on after prompt i. */
  predicate GoesOn(hasKey: bool, t: Trial) {
    t.Chats? && (hasKey && t.usage.Some? ==> t.billing == Commits) && t.reports
  }

  /** The recordings of one attempt from prompt i on, and whether it reaches the end. */
  function Attempt(job: string, hasKey: bool, trials: seq<Trial>, i: nat): Run
    requires i <= |trials|
    decreases |trials| - i
  {
    if i == |trials| then Run([], true)
    else if trials[i].ChatFails? then Run([], false)
    else if !GoesOn(hasKey, trials[i]) then Run(Billed(job, hasKey, i, trials[i]), false)
    else
      var rest := Attempt(job, hasKey, trials, i + 1);
      Run(Billed(job, hasKey, i, trials[i]) + rest.ops, rest.completed)
  }

  /** billJobUsage: false if the recording threw. */
  method BillJobUsage(db: BillingDb, job: string, hasKey: bool, i: nat, t: Trial) returns (ok: bool)
    requires t.Chats?
    modifies db
    ensures db.Value() == RunOps(old(db.Value()), Billed(job, hasKey, i, t))
    ensures ok <==> (hasKey && t.usage.Some? ==> t.billing == Commits)
  {
    if !hasKey || t.usage.None? {
      return true;
    }
    var row := RowFor(job, i, t.usage.value);
    var r := db.RecordUsageAndOutbox(row, t.billing);
    assert [Recording(row, t.billing)][..0] == [];
    ok := r != Aborted;
  }

  /** Where the database ends up once the run has been made on it, and whether it completes. */
  function Outcome(db: Db, run: Run): (Db, bool) { (RunOps(db, run.ops), run.completed) }

  lemma {:induction false} RunOpsAppend(db: Db, a: seq<Op>, b: seq<Op>)
    ensures RunOps(db, a + b) == RunOps(RunOps(db, a), b)
  {
    if b == [] {
      assert a + b == a;
    } else {
      RunOpsAppend(db, a, b[..|b| - 1]);
      assert (a + b)[..|a + b| - 1] == a + b[..|b| - 1];
    }
  }

  lemma Proceeds(db: Db, billed: seq<Op>, rest: Run)
    ensures Outcome(db, Run(billed + rest.ops, rest.completed)) == Outcome(RunOps(db, billed), rest)
  {
    RunOpsAppend(db, billed, rest.ops);
  }

  /** bulkChatHandler.run: one attempt, prompt by prompt. */
  method RunBulkChat(db: BillingDb, job: string, hasKey: bool, modelKnown: bool, trials: seq<Trial>)
    returns (responses: seq<string>, completed: bool)
    modifies db
    ensures !modelKnown ==> !completed && db.Value() == old(db.Value())
    ensures modelKnown ==>
              (db.Value(), completed) == Outcome(old(db.Value()), Attempt(job, hasKey, trials, 0))
    ensures completed ==>
              |responses| == |trials| &&
              forall k :: 0 <= k < |trials| ==> trials[k].Chats? && responses[k] == trials[k].content
  {
    responses := [];
    if !modelKnown {
      return [], false;
    }
    for i := 0 to |trials|
      invariant |responses| == i
      invariant forall k :: 0 <= k < i ==> trials[k].Chats? && responses[k] == trials[k].content
      invariant Outcome(db.Value(), Attempt(job, hasKey, trials, i))
             == Outcome(old(db.Value()), Attempt(job, hasKey, trials, 0))
    {
      var t := trials[i];
      if t.ChatFails? {
        return responses, false;
      }
      responses := responses + [t.content];
      ghost var before := db.Value();
      var ok := BillJobUsage(db, job, hasKey, i, t);
      if !ok || !t.reports {
        return responses, false;
      }
      Proceeds(before, Billed(job, hasKey, i, t), Attempt(job, hasKey, trials, i + 1));
    }
    completed := true;
  }

  /** A completed attempt with a live key whose every call reported usage committed a recording for
      every prompt. */
  lemma {:induction false} CompletedAttemptCommitsAll(job: string, trials: seq<Trial>, i: nat, p: nat)
    requires i <= p < |trials| && Attempt(job, true, trials, i).completed
    requires forall k :: 0 <= k < |trials| && trials[k].Chats? ==> trials[k].usage.Some?
    ensures exists k :: CommitsAt(Attempt(job, true, trials, i).ops, k, RequestId(job, p))
    decreases |trials| - i
  {
    var all, rest := Attempt(job, true, trials, i).ops, Attempt(job, true, trials, i + 1).ops;
    assert |all| == 1 + |rest| && all[1..] == rest;
    if i == p {
      assert CommitsAt(all, 0, RequestId(job, p));
    } else {
      CompletedAttemptCommitsAll(job, trials, i + 1, p);
      var k :| CommitsAt(rest, k, RequestId(job, p));
      assert CommitsAt(all, k + 1, RequestId(job, p));
    }
  }

  /** Among the operations on the database are those of a completed attempt of the job with a live
      key and reported usage, in any order and interleaved with any others. */
  ghost predicate HoldsCompletedAttempt(ops: seq<Op>, job: string, trials: seq<Trial>) {
    && Attempt(job, true, trials, 0).completed
    && (forall k :: 0 <= k < |trials| && trials[k].Chats? ==> trials[k].usage.Some?)
    && (forall op :: op in Attempt(job, true, trials, 0).ops ==> op in ops)
  }

  /** Over any operations on the database, by any mix of attempts, crashes, retries and replays of
      any jobs: every prompt of every job is billed at most once, and announced as often as it is
      billed. */
  lemma PromptsAreBilledAtMostOnce(ops: seq<Op>, job: string, p: nat)
    ensures var db := RunOps(EMPTY, ops);
            && Count(db.usage, RequestId(job, p)) <= 1
            && Count(Announced(db.outbox), RequestId(job, p)) == Count(db.usage, RequestId(job, p))
  {
    BilledExactlyOnce(ops, RequestId(job, p));
  }

  lemma CompletedAttemptCommits(ops: seq<Op>, job: string, trials: seq<Trial>, p: nat)
    requires p < |trials| && HoldsCompletedAttempt(ops, job, trials)
    ensures exists k :: CommitsAt(ops, k, RequestId(job, p))
  {
    CompletedAttemptCommitsAll(job, trials, 0, p);
    var mine := Attempt(job, true, trials, 0).ops;
    var k :| CommitsAt(mine, k, RequestId(job, p));
    assert mine[k] in ops;
    var k' :| 0 <= k' < |ops| && ops[k'] == mine[k];
    assert CommitsAt(ops, k', RequestId(job, p));
  }

  /** And if one attempt of a job completed, each of its prompts is billed exactly once. */
  lemma CompletedJobIsBilledExactlyOnce(ops: seq<Op>, job: string, trials: seq<Trial>, p: nat)
    requires p < |trials| && HoldsCompletedAttempt(ops, job, trials)
    ensures Count(RunOps(EMPTY, ops).usage, RequestId(job, p)) == 1
  {
    CompletedAttemptCommits(ops, job, trials, p);
    BilledExactlyOnce(ops, RequestId(job, p));
  }

  /** An attempt completes iff every prompt's call succeeds, its recording, if there is one to make,
      commits, and its progress is reported. */
  lemma {:induction false} CompletesIff(job: string, hasKey: bool, trials: seq<Trial>, i: nat)
    requires i <= |trials|
    ensures Attempt(job, hasKey, trials, i).completed <==>
            forall k :: i <= k < |trials| ==>
              && trials[k].Chats? && trials[k].reports
              && (hasKey && trials[k].usage.Some? ==> trials[k].billing == Commits)
    decreases |trials| - i
  {
    if i < |trials| {
      CompletesIff(job, hasKey, trials, i + 1);
    }
  }

  /** It stops at the first prompt for which that is not so: later prompts play no part. */
  lemma {:induction false} StopsAtFailure(job: string, hasKey: bool, trials: seq<Trial>, i: nat, p: nat)
    requires i <= p < |trials| && !GoesOn(hasKey, trials[p])
    ensures Attempt(job, hasKey, trials, i) == Attempt(job, hasKey, trials[..p + 1], i)
    decreases p - i
  {
    if i < p {
      StopsAtFailure(job, hasKey, trials, i + 1, p);
    }
  }

  /** Without a key nothing is recorded. */
  lemma {:induction false} NoKeyNoBill(job: string, trials: seq<Trial>, i: nat)
    requires i <= |trials|
    ensures Attempt(job, false, trials, i).ops == []
    decreases |trials| - i
  {
    if i < |trials| {
      NoKeyNoBill(job, trials, i + 1);
    }
  }

  /** The row for prompt p is billed exactly the usage that its call reported. */
  ghost predicate BillsUsage(row: UsageRow, job: string, p: nat, u: Usage) {
    && row.requestId == RequestId(job, p)
    && row.promptTokens == u.promptTokens && row.completionTokens == u.completionTokens && row.costUsd == u.costUsd
  }

  ghost predicate RecordsPrompt(op: Op, job: string, p: nat, t: Trial) {
    && op.Recording? && op.ending == Commits
    && t.Chats? && t.usage.Some? && BillsUsage(op.row, job, p, t.usage.value)
  }

  lemma {:induction false} AttemptRecordsUsage(job: string, trials: seq<Trial>, i: nat)
    requires i <= |trials| && Attempt(job, true, trials, i).completed
    requires forall k :: 0 <= k < |trials| && trials[k].Chats? ==> trials[k].usage.Some?
    ensures var ops := Attempt(job, true, trials, i).ops;
            |ops| == |trials| - i && forall q :: 0 <= q < |ops| ==> RecordsPrompt(ops[q], job, i + q, trials[i + q])
    decreases |trials| - i
  {
    if i < |trials| {
      AttemptRecordsUsage(job, trials, i + 1);
      var all, rest := Attempt(job, true, trials, i).ops, Attempt(job, true, trials, i + 1).ops;
      assert |all| == 1 + |rest| && all[1..] == rest;
      forall q | 0 <= q < |all|
        ensures RecordsPrompt(all[q], job, i + q, trials[i + q])
      {
        if q > 0 {
          assert all[q] == rest[q - 1];
        }
      }
    }
  }

  lemma {:induction false} NewIdsAreAllRecorded(ops: seq<Op>)
    requires forall k :: 0 <= k < |ops| ==> ops[k].Recording? && ops[k].ending == Commits
    requires forall j, k :: 0 <= j < k < |ops| ==> ops[j].row.requestId != ops[k].row.requestId
    ensures |FirstCommitted(ops)| == |ops| && forall k :: 0 <= k < |ops| ==> FirstCommitted(ops)[k] == ops[k].row
  {
    if ops != [] {
      NewIdsAreAllRecorded(ops[..|ops| - 1]);
    }
  }

  /** A completed attempt on an empty table leaves one row per prompt, in order, each with exactly the
      tokens and cost its call reported. */
  lemma CompletedAttemptBillsReportedUsage(job: string, trials: seq<Trial>)
    requires Attempt(job, true, trials, 0).completed
    requires forall k :: 0 <= k < |trials| && trials[k].Chats? ==> trials[k].usage.Some?
    ensures var usage := RunOps(EMPTY, Attempt(job, true, trials, 0).ops).usage;
            && |usage| == |trials|
            && forall p :: 0 <= p < |trials| ==>
                 trials[p].Chats? && BillsUsage(usage[p], job, p, trials[p].usage.value)
  {
    var ops := Attempt(job, true, trials, 0).ops;
    AttemptRecordsUsage(job, trials, 0);
    forall k | 0 <= k < |ops|
      ensures RecordsPrompt(ops[k], job, k, trials[k])
    {
      assert RecordsPrompt(ops[k], job, 0 + k, trials[0 + k]);
    }
    RecordsAreKept(ops, job, trials);
  }

  lemma RecordsAreKept(ops: seq<Op>, job: string, trials: seq<Trial>)
    requires |ops| == |trials| && forall k :: 0 <= k < |ops| ==> RecordsPrompt(ops[k], job, k, trials[k])
    ensures var usage := RunOps(EMPTY, ops).usage;
            |usage| == |ops| && forall k :: 0 <= k < |usage| ==> ops[k].Recording? && usage[k] == ops[k].row
  {
    forall j, k | 0 <= j < k < |ops|
      ensures ops[j].row.requestId != ops[k].row.requestId
    {
      DistinctPrompts(job, j, k);
    }
    NewIdsAreAllRecorded(ops);
    UsageIsFirstCommitted(ops);
  }

  lemma DistinctPrompts(job: string, j: nat, k: nat)
    requires j != k
    ensures RequestId(job, j) != RequestId(job, k)
  {
    if RequestId(job, j) == RequestId(job, k) {
      RequestIdIsInjective(job, j, job, k);
    }
  }
}
