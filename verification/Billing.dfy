/** Usage recording and the soft budget check for one organisation and one billing month. */
module Billing {
  import opened Options

  datatype UsageRow = UsageRow(requestId: string, promptTokens: nat, completionTokens: nat, costUsd: real)

  /** The outbox events this part of the gateway writes. */
  datatype Event =
    | UsageRecorded(row: UsageRow)
    | BudgetExceeded(spentUsd: real, budgetUsd: real)
    | BudgetWarning(spentUsd: real, budgetUsd: real)

  /** usage_records and outbox_events, oldest row first. */
  datatype Db = Db(usage: seq<UsageRow>, outbox: seq<Event>)

  const EMPTY := Db([], [])

  predicate HasRow(usage: seq<UsageRow>, requestId: string) {
    exists i :: 0 <= i < |usage| && usage[i].requestId == requestId
  }

  /** INSERT .. ON CONFLICT (request_id) DO NOTHING with its outbox row, as one transaction. */
  function Record(db: Db, row: UsageRow): Db {
    if HasRow(db.usage, row.requestId) then db
    else Db(db.usage + [row], db.outbox + [UsageRecorded(row)])
  }

  function Spent(usage: seq<UsageRow>): real {
    if usage == [] then 0.0 else Spent(usage[..|usage| - 1]) + usage[|usage| - 1].costUsd
  }

  /** The per-organisation override wins over the plan's budget; with neither there is no cap. */
  function BudgetOf(override: Option<real>, plan: Option<real>): Option<real> {
    if override.Some? then override else plan
  }

  /** Whether a request gets through the check. */
  predicate Admits(usage: seq<UsageRow>, budget: Option<real>) {
    budget.None? || Spent(usage) < budget.value
  }

  /** A transaction either commits or leaves no trace. */
  datatype Ending = Commits | AbortsAfterInsert | AbortsAfterOutbox

  datatype RecordResult = Recorded | Duplicate | Aborted

  class BillingDb {
    var usage: seq<UsageRow>
    var outbox: seq<Event>

    function Value(): Db
      reads this
    {
      Db(usage, outbox)
    }

    constructor ()
      ensures Value() == EMPTY
    {
      usage, outbox := [], [];
    }

    /** recordUsageAndOutbox, with the transaction's ending as an input. */
    method RecordUsageAndOutbox(row: UsageRow, ending: Ending) returns (r: RecordResult)
      modifies this
      ensures Value() == if ending == Commits then Record(old(Value()), row) else old(Value())
      ensures r == if ending != Commits then Aborted
                   else if HasRow(old(usage), row.requestId) then Duplicate else Recorded
    {
      var savedUsage, savedOutbox := usage, outbox;
      var affected := !HasRow(usage, row.requestId);
      if affected {
        usage := usage + [row];
      }
      if ending == AbortsAfterInsert {
        usage := savedUsage;
        return Aborted;
      }
      if affected {
        outbox := outbox + [UsageRecorded(row)];
      }
      if ending == AbortsAfterOutbox {
        usage, outbox := savedUsage, savedOutbox;
        return Aborted;
      }
      r := if affected then Recorded else Duplicate;
    }

    /** enforceBudget's critical section: admit while money is left, else leave an event and
        reject. */
    method EnforceBudget(override: Option<real>, plan: Option<real>) returns (admitted: bool)
      modifies this`outbox
      ensures admitted <==> Admits(usage, BudgetOf(override, plan))
      ensures outbox == old(outbox) +
                if admitted then [] else [BudgetExceeded(Spent(usage), BudgetOf(override, plan).value)]
    {
      var budget := override;
      if budget.None? {
        budget := plan;
      }
      var spent := SumUsage();
      if budget.Some? && budget.value - spent <= 0.0 {
        outbox := outbox + [BudgetExceeded(spent, budget.value)];
        return false;
      }
      admitted := true;
    }

    method SumUsage() returns (sum: real)
      ensures sum == Spent(usage)
    {
      sum := 0.0;
      for i := 0 to |usage|
        invariant sum == Spent(usage[..i])
      {
        assert usage[..i + 1][..i] == usage[..i];
        sum := sum + usage[i].costUsd;
      }
      assert usage[..|usage|] == usage;
    }
  }

  // ---------------------------------------------------------------------------------------
  // Usage rows and their events
  // ---------------------------------------------------------------------------------------

  datatype Op = Recording(row: UsageRow, ending: Ending) | Noting(e: Event)

  function Do(db: Db, op: Op): Db {
    match op
    case Recording(row, ending) => if ending == Commits then Record(db, row) else db
    case Noting(e) => if e.UsageRecorded? then db else db.(outbox := db.outbox + [e])
  }

  function RunOps(db: Db, ops: seq<Op>): Db {
    if ops == [] then db else Do(RunOps(db, ops[..|ops| - 1]), ops[|ops| - 1])
  }

  /** The rows announced by usage.recorded events, in order. */
  function Announced(outbox: seq<Event>): seq<UsageRow> {
    if outbox == [] then []
    else Announced(outbox[..|outbox| - 1]) +
         if outbox[|outbox| - 1].UsageRecorded? then [outbox[|outbox| - 1].row] else []
  }

  ghost predicate UniqueIds(usage: seq<UsageRow>) {
    forall i, j :: 0 <= i < j < |usage| ==> usage[i].requestId != usage[j].requestId
  }

  /** One usage.recorded event per usage row, with the same contents, and no request id twice. */
  ghost predicate OneToOne(db: Db) {
    Announced(db.outbox) == db.usage && UniqueIds(db.usage)
  }

  lemma DoKeepsOneToOne(db: Db, op: Op)
    requires OneToOne(db)
    ensures OneToOne(Do(db, op))
    ensures db.usage <= Do(db, op).usage
    ensures op.Recording? && op.ending == Commits ==> HasRow(Do(db, op).usage, op.row.requestId)
  {
    var db' := Do(db, op);
    if |db'.outbox| > |db.outbox| {
      assert db'.outbox[..|db.outbox|] == db.outbox;
    }
    if op.Recording? && |db'.usage| > |db.usage| {
      assert db'.usage[|db.usage|] == op.row;
    }
  }

  /** Over any sequence of recordings, repeats and aborts the tables stay one-to-one, and a row
      once written is never changed or removed. */
  lemma {:induction false} RunsStayOneToOne(db: Db, ops: seq<Op>)
    requires OneToOne(db)
    ensures OneToOne(RunOps(db, ops)) && db.usage <= RunOps(db, ops).usage
  {
    if ops != [] {
      RunsStayOneToOne(db, ops[..|ops| - 1]);
      DoKeepsOneToOne(RunOps(db, ops[..|ops| - 1]), ops[|ops| - 1]);
    }
  }

  function Count(usage: seq<UsageRow>, requestId: string): nat {
    if usage == [] then 0
    else Count(usage[..|usage| - 1], requestId) +
         if usage[|usage| - 1].requestId == requestId then 1 else 0
  }

  lemma {:induction false} UniqueMeansAtMostOnce(usage: seq<UsageRow>, requestId: string)
    requires UniqueIds(usage)
    ensures Count(usage, requestId) == if HasRow(usage, requestId) then 1 else 0
  {
    if usage != [] {
      var n := |usage| - 1;
      UniqueMeansAtMostOnce(usage[..n], requestId);
      assert usage[..n + 1] == usage;
      if i :| 0 <= i < |usage| && usage[i].requestId == requestId {
        if i < n {
          assert usage[..n][i].requestId == requestId;
        }
      }
    }
  }

  /** A request id recorded by any number of attempts is billed exactly once if one of them
      committed, and its event is in the outbox exactly once; otherwise it is not billed. */
  lemma {:induction false} BilledExactlyOnce(ops: seq<Op>, requestId: string)
    ensures var db := RunOps(EMPTY, ops);
            && Count(db.usage, requestId) == Count(Announced(db.outbox), requestId)
            && Count(db.usage, requestId) ==
               if exists k :: CommitsAt(ops, k, requestId) then 1 else 0
  {
    RunsStayOneToOne(EMPTY, ops);
    UniqueMeansAtMostOnce(RunOps(EMPTY, ops).usage, requestId);
    BilledIffCommitted(ops, requestId);
  }

  ghost predicate CommitsAt(ops: seq<Op>, k: int, requestId: string) {
    0 <= k < |ops| && ops[k].Recording? && ops[k].ending == Commits && ops[k].row.requestId == requestId
  }

  lemma HasRowGrows(a: seq<UsageRow>, b: seq<UsageRow>, requestId: string)
    requires a <= b && HasRow(a, requestId)
    ensures HasRow(b, requestId)
  {
    var i :| 0 <= i < |a| && a[i].requestId == requestId;
    assert b[i].requestId == requestId;
  }

  lemma RecordAddsItsRow(db: Db, row: UsageRow, requestId: string)
    ensures HasRow(Record(db, row).usage, requestId) <==> HasRow(db.usage, requestId) || row.requestId == requestId
  {
    var after := Record(db, row).usage;
    if HasRow(db.usage, requestId) {
      HasRowGrows(db.usage, after, requestId);
    } else if row.requestId == requestId {
      assert after[|db.usage|].requestId == requestId;
    }
  }

  lemma CommitsSnoc(ops: seq<Op>, requestId: string)
    requires ops != []
    ensures var n := |ops| - 1;
            (exists k :: CommitsAt(ops, k, requestId))
            <==> (exists k :: CommitsAt(ops[..n], k, requestId)) || CommitsAt(ops, n, requestId)
  {
    var n := |ops| - 1;
    if k :| CommitsAt(ops[..n], k, requestId) {
      assert CommitsAt(ops, k, requestId);
    }
    if k :| CommitsAt(ops, k, requestId) {
      assert k == n || CommitsAt(ops[..n], k, requestId);
    }
  }

  lemma {:induction false} BilledIffCommitted(ops: seq<Op>, requestId: string)
    ensures HasRow(RunOps(EMPTY, ops).usage, requestId) <==> exists k :: CommitsAt(ops, k, requestId)
  {
    if ops != [] {
      var n := |ops| - 1;
      BilledIffCommitted(ops[..n], requestId);
      CommitsSnoc(ops, requestId);
      if ops[n].Recording? {
        RecordAddsItsRow(RunOps(EMPTY, ops[..n]), ops[n].row, requestId);
      }
    }
  }

  /** The rows of the recordings that committed first under their request ids, in order. */
  ghost function FirstCommitted(ops: seq<Op>): seq<UsageRow> {
    if ops == [] then []
    else
      var n := |ops| - 1;
      FirstCommitted(ops[..n]) +
      if ops[n].Recording? && ops[n].ending == Commits && !(exists k :: CommitsAt(ops[..n], k, ops[n].row.requestId))
      then [ops[n].row] else []
  }

  /** Over any operations the usage table is exactly those rows, whole and unchanged, and the
      usage.recorded events announce exactly those rows. */
  lemma {:induction false} UsageIsFirstCommitted(ops: seq<Op>)
    ensures RunOps(EMPTY, ops).usage == FirstCommitted(ops)
    ensures Announced(RunOps(EMPTY, ops).outbox) == FirstCommitted(ops)
  {
    RunsStayOneToOne(EMPTY, ops);
    if ops != [] {
      var n := |ops| - 1;
      UsageIsFirstCommitted(ops[..n]);
      if ops[n].Recording? {
        BilledIffCommitted(ops[..n], ops[n].row.requestId);
      }
    }
  }

  /** Recording a new id raises the spend by exactly its cost; a repeat or an abort by nothing. */
  lemma SpendGrowsByCost(db: Db, row: UsageRow, ending: Ending)
    ensures Spent([]) == 0.0
    ensures Spent(Do(db, Recording(row, ending)).usage) ==
            Spent(db.usage) + if ending == Commits && !HasRow(db.usage, row.requestId) then row.costUsd else 0.0
  {
    assert (db.usage + [row])[..|db.usage|] == db.usage;
  }

  /** The check is strict, an override decides whatever the plan says, and without either there is no
      cap. */
  lemma BudgetDecides(usage: seq<UsageRow>, override: real, plan: Option<real>, planBudget: real)
    ensures Admits(usage, BudgetOf(Some(override), plan)) <==> Spent(usage) < override
    ensures Admits(usage, BudgetOf(None, Some(planBudget))) <==> Spent(usage) < planBudget
    ensures Admits(usage, BudgetOf(None, None))
  {
  }

  // ---------------------------------------------------------------------------------------
  // Overshoot of the soft budget
  // ---------------------------------------------------------------------------------------

  /** What an admitted request may still cost, for each request in flight. */
  datatype Month = Month(usage: seq<UsageRow>, flight: seq<real>)

  /** A request enters flight when its budget check reads the spend; while in flight it may record
      usage, any number of times (a job records once per prompt); it leaves when it is done,
      whether or not all it might have cost was recorded. */
  datatype Move =
    | Admit(cost: real)
    | Charge(i: nat, row: UsageRow)
    | Finish(i: nat)

  function Sum(xs: seq<real>): real {
    if xs == [] then 0.0 else Sum(xs[..|xs| - 1]) + xs[|xs| - 1]
  }

  predicate Allowed(m: Month, budget: real, move: Move) {
    match move
    case Admit(cost) => cost >= 0.0 && Admits(m.usage, Some(budget))
    case Charge(i, row) => i < |m.flight| && 0.0 <= row.costUsd <= m.flight[i]
    case Finish(i) => i < |m.flight|
  }

  /** A move that is not possible changes nothing. */
  function Next(m: Month, budget: real, move: Move): Month {
    if !Allowed(m, budget, move) then m
    else
      match move
      case Admit(cost) => m.(flight := m.flight + [cost])
      case Charge(i, row) =>
        Month(Record(Db(m.usage, []), row).usage, m.flight[i := m.flight[i] - row.costUsd])
      case Finish(i) => m.(flight := m.flight[..i] + m.flight[i + 1..])
  }

  function MonthAfter(moves: seq<Move>, budget: real): Month {
    if moves == [] then Month([], [])
    else Next(MonthAfter(moves[..|moves| - 1], budget), budget, moves[|moves| - 1])
  }

  ghost predicate AdmitsAt(moves: seq<Move>, k: nat, budget: real)
    requires k < |moves|
  {
    moves[k].Admit? && Allowed(MonthAfter(moves[..k], budget), budget, moves[k])
  }

  lemma {:induction false} SumAppend(a: seq<real>, b: seq<real>)
    ensures Sum(a + b) == Sum(a) + Sum(b)
  {
    if b == [] {
      assert a + b == a;
    } else {
      SumAppend(a, b[..|b| - 1]);
      assert (a + b)[..|a + b| - 1] == a + b[..|b| - 1];
    }
  }

  lemma SumAt(xs: seq<real>, i: nat)
    requires i < |xs|
    ensures Sum(xs) == Sum(xs[..i]) + xs[i] + Sum(xs[i + 1..])
  {
    var a, x, b := xs[..i], xs[i], xs[i + 1..];
    SumAppend(a + [x], b);
    SumAppend(a, [x]);
    assert [x][..0] == [];
    assert xs == a + [x] + b;
  }

  ghost predicate NonNegative(xs: seq<real>) { forall i :: 0 <= i < |xs| ==> xs[i] >= 0.0 }

  lemma {:induction false} SumBounds(xs: seq<real>, c: real)
    requires NonNegative(xs) && forall i :: 0 <= i < |xs| ==> xs[i] <= c
    ensures 0.0 <= Sum(xs) <= |xs| as real * c
  {
    if xs != [] {
      SumBounds(xs[..|xs| - 1], c);
    }
  }

  lemma {:induction false} SumNonNegative(xs: seq<real>)
    requires NonNegative(xs)
    ensures Sum(xs) >= 0.0
  {
    if xs != [] {
      SumNonNegative(xs[..|xs| - 1]);
    }
  }

  lemma SumUpdate(xs: seq<real>, i: nat, x: real)
    requires i < |xs|
    ensures Sum(xs[i := x]) == Sum(xs) - xs[i] + x
  {
    SumAt(xs, i);
    SumAt(xs[i := x], i);
    assert xs[i := x][..i] == xs[..i] && xs[i := x][i + 1..] == xs[i + 1..];
  }

  lemma RecordAddsAtMostItsCost(usage: seq<UsageRow>, row: UsageRow)
    requires row.costUsd >= 0.0
    ensures Spent(usage) <= Spent(Record(Db(usage, []), row).usage) <= Spent(usage) + row.costUsd
  {
    assert (usage + [row])[..|usage|] == usage;
  }

  /** Money spent plus money still in flight: a charge moves it, only an admission adds to it. */
  lemma NextConserves(m: Month, budget: real, move: Move)
    requires NonNegative(m.flight)
    ensures var m' := Next(m, budget, move);
            && NonNegative(m'.flight)
            && (if move.Admit? && Allowed(m, budget, move) then
                  m'.usage == m.usage && Sum(m'.flight) == Sum(m.flight) + move.cost
                else
                  Spent(m'.usage) + Sum(m'.flight) <= Spent(m.usage) + Sum(m.flight))
  {
    if Allowed(m, budget, move) {
      match move
      case Admit(cost) => SumSnoc(m.flight, cost);
      case Charge(i, row) => ChargeConserves(m, budget, i, row);
      case Finish(i) => SumWithout(m.flight, i);
    }
  }

  lemma SumSnoc(xs: seq<real>, x: real)
    ensures Sum(xs + [x]) == Sum(xs) + x
  {
    assert (xs + [x])[..|xs|] == xs;
  }

  lemma SumWithout(xs: seq<real>, i: nat)
    requires i < |xs|
    ensures Sum(xs[..i] + xs[i + 1..]) == Sum(xs) - xs[i]
  {
    SumAt(xs, i);
    SumAppend(xs[..i], xs[i + 1..]);
  }

  lemma ChargeConserves(m: Month, budget: real, i: nat, row: UsageRow)
    requires NonNegative(m.flight) && Allowed(m, budget, Charge(i, row))
    ensures var m' := Next(m, budget, Charge(i, row));
            NonNegative(m'.flight) && Spent(m'.usage) + Sum(m'.flight) <= Spent(m.usage) + Sum(m.flight)
  {
    SumUpdate(m.flight, i, m.flight[i] - row.costUsd);
    RecordAddsAtMostItsCost(m.usage, row);
  }

  lemma {:induction false} FlightIsNonNegative(moves: seq<Move>, budget: real)
    ensures NonNegative(MonthAfter(moves, budget).flight)
  {
    if moves != [] {
      FlightIsNonNegative(moves[..|moves| - 1], budget);
      NextConserves(MonthAfter(moves[..|moves| - 1], budget), budget, moves[|moves| - 1]);
    }
  }

  /** No move after index `from` is an admission. */
  ghost predicate NoneAdmitted(moves: seq<Move>, from: int, budget: real) {
    forall j :: 0 <= j < |moves| && from < j ==> !AdmitsAt(moves, j, budget)
  }

  lemma NoneAdmittedInPrefix(moves: seq<Move>, from: int, budget: real)
    requires moves != [] && NoneAdmitted(moves, from, budget)
    ensures NoneAdmitted(moves[..|moves| - 1], from, budget)
  {
    var n := |moves| - 1;
    forall j | 0 <= j < n && from < j
      ensures !AdmitsAt(moves[..n], j, budget)
    {
      assert moves[..n][..j] == moves[..j];
      assert !AdmitsAt(moves, j, budget);
    }
  }

  /** Money spent and in flight stays below the budget and a margin. */
  ghost predicate Below(m: Month, budget: real, margin: real) { Spent(m.usage) + Sum(m.flight) < budget + margin }

  lemma LastMoveKeepsBelow(moves: seq<Move>, budget: real, margin: real)
    requires moves != [] && !AdmitsAt(moves, |moves| - 1, budget)
    requires Below(MonthAfter(moves[..|moves| - 1], budget), budget, margin)
    ensures Below(MonthAfter(moves, budget), budget, margin)
  {
    FlightIsNonNegative(moves[..|moves| - 1], budget);
    NextConserves(MonthAfter(moves[..|moves| - 1], budget), budget, moves[|moves| - 1]);
  }

  lemma AdmissionIsBelow(moves: seq<Move>, budget: real)
    requires moves != [] && AdmitsAt(moves, |moves| - 1, budget)
    ensures Below(MonthAfter(moves, budget), budget, Sum(MonthAfter(moves, budget).flight))
  {
    FlightIsNonNegative(moves[..|moves| - 1], budget);
    NextConserves(MonthAfter(moves[..|moves| - 1], budget), budget, moves[|moves| - 1]);
  }

  lemma {:induction false} SinceLastAdmission(moves: seq<Move>, k: nat, budget: real)
    requires k < |moves| && AdmitsAt(moves, k, budget)
    requires NoneAdmitted(moves, k, budget)
    ensures Below(MonthAfter(moves, budget), budget, Sum(MonthAfter(moves[..k + 1], budget).flight))
  {
    var n := |moves| - 1;
    if k == n {
      assert moves[..k + 1] == moves;
      AdmissionIsBelow(moves, budget);
    } else {
      assert moves[..n][..k] == moves[..k] && moves[..n][..k + 1] == moves[..k + 1];
      NoneAdmittedInPrefix(moves, k, budget);
      SinceLastAdmission(moves[..n], k, budget);
      LastMoveKeepsBelow(moves, budget, Sum(MonthAfter(moves[..k + 1], budget).flight));
    }
  }

  lemma {:induction false} NoAdmissionNoSpend(moves: seq<Move>, budget: real)
    requires NoneAdmitted(moves, -1, budget)
    ensures MonthAfter(moves, budget) == Month([], [])
  {
    if moves != [] {
      var n := |moves| - 1;
      NoneAdmittedInPrefix(moves, -1, budget);
      NoAdmissionNoSpend(moves[..n], budget);
      assert !AdmitsAt(moves, n, budget);
    }
  }

  /** Under any interleaving of checks and recordings the month's spend stays below the budget plus
      what was in flight right after the last admission; before any admission nothing is spent. */
  lemma OvershootIsBounded(moves: seq<Move>, budget: real)
    ensures var spent := Spent(MonthAfter(moves, budget).usage);
            || (spent == 0.0 && forall j :: 0 <= j < |moves| ==> !AdmitsAt(moves, j, budget))
            || (exists k :: 0 <= k < |moves| && AdmitsAt(moves, k, budget) &&
                  (forall j :: k < j < |moves| ==> !AdmitsAt(moves, j, budget)) &&
                  spent < budget + Sum(MonthAfter(moves[..k + 1], budget).flight))
  {
    var k := LastAdmission(moves, budget);
    if k < 0 {
      NoAdmissionNoSpend(moves, budget);
    } else {
      SinceLastAdmission(moves, k, budget);
      FlightIsNonNegative(moves, budget);
      SumNonNegative(MonthAfter(moves, budget).flight);
    }
  }

  /** The index of the last admission, or -1. */
  lemma LastAdmission(moves: seq<Move>, budget: real) returns (k: int)
    ensures -1 <= k < |moves| && (k >= 0 ==> AdmitsAt(moves, k, budget))
    ensures forall j :: k < j < |moves| ==> !AdmitsAt(moves, j, budget)
  {
    k := |moves| - 1;
    while k >= 0 && !AdmitsAt(moves, k, budget)
      invariant -1 <= k < |moves|
      invariant forall j :: k < j < |moves| ==> !AdmitsAt(moves, j, budget)
    {
      k := k - 1;
    }
  }

  ghost predicate InFlightAtMost(m: Month, n: nat, c: real) {
    |m.flight| <= n && forall i :: 0 <= i < |m.flight| ==> m.flight[i] <= c
  }

  lemma FlightSumAtMost(m: Month, n: nat, c: real)
    requires InFlightAtMost(m, n, c) && NonNegative(m.flight) && c >= 0.0
    ensures Sum(m.flight) <= n as real * c
  {
    SumBounds(m.flight, c);
    MulMonotone(|m.flight| as real, n as real, c);
  }

  lemma MulMonotone(a: real, b: real, c: real)
    requires a <= b && c >= 0.0
    ensures a * c <= b * c
  {
  }

  /** With never more than n requests in flight, each able to cost at most c, the overshoot is
      less than n * c. */
  lemma OvershootIsBoundedByConcurrency(moves: seq<Move>, budget: real, n: nat, c: real)
    requires c >= 0.0
    requires forall k :: 0 <= k <= |moves| ==> InFlightAtMost(MonthAfter(moves[..k], budget), n, c)
    ensures var spent := Spent(MonthAfter(moves, budget).usage); spent == 0.0 || spent < budget + n as real * c
  {
    OvershootIsBounded(moves, budget);
    var spent := Spent(MonthAfter(moves, budget).usage);
    if spent != 0.0 {
      var k :| 0 <= k < |moves| && AdmitsAt(moves, k, budget) &&
               spent < budget + Sum(MonthAfter(moves[..k + 1], budget).flight);
      FlightIsNonNegative(moves[..k + 1], budget);
      FlightSumAtMost(MonthAfter(moves[..k + 1], budget), n, c);
    }
  }
}
