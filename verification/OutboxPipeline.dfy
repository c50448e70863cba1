/** From the transactional outbox over the event bus to the audit log: at-least-once publishing and
    delivery, turned into at most one audit entry per event. */
module OutboxPipeline {
  import opened Options

  /** An outbox row's own id is its position in the table; it is also the event's id everywhere. */
  type EventId = nat

  /** `org` is the payload's orgId, if any; `valid` says whether the bus schema accepts the event. */
  datatype Payload = Payload(org: Option<string>, valid: bool)

  datatype Row = Row(payload: Payload, published: bool)

  /** A copy of an event that the broker stored, and when. */
  datatype Message = Message(id: EventId, payload: Payload, at: int)

  /** One publish attempt and the marking that follows: whether the broker got it, whether the poller
      heard so, and whether the row update went through. */
  datatype Outcome = Outcome(at: int, landed: bool, acked: bool, marked: bool) {
    predicate Marks() { landed && acked && marked }
  }

  // ---------------------------------------------------------------------------------------
  // The poller
  // ---------------------------------------------------------------------------------------

  /** Ids of unpublished rows, oldest first. */
  function Pending(rows: seq<Row>): seq<EventId> {
    if rows == [] then []
    else Pending(rows[..|rows| - 1]) + if rows[|rows| - 1].published then [] else [|rows| - 1]
  }

  function Batch(rows: seq<Row>, batchSize: nat): seq<EventId> {
    if |Pending(rows)| <= batchSize then Pending(rows) else Pending(rows)[..batchSize]
  }

  ghost predicate Ids(ids: seq<EventId>, rows: seq<Row>) { forall i :: 0 <= i < |ids| ==> ids[i] < |rows| }

  function Mark(rows: seq<Row>, id: EventId): seq<Row>
    requires id < |rows|
  {
    rows[id := rows[id].(published := true)]
  }

  /** The broker drops a message whose id it stored less than `window` ago. */
  predicate IsDuplicate(stream: seq<Message>, id: EventId, at: int, window: int) {
    exists i :: 0 <= i < |stream| && stream[i].id == id && at - stream[i].at < window
  }

  function Publish(stream: seq<Message>, id: EventId, payload: Payload, at: int, window: int): seq<Message> {
    if IsDuplicate(stream, id, at, window) then stream else stream + [Message(id, payload, at)]
  }

  /** A new row is unpublished. */
  function Written(rows: seq<Row>, payload: Payload): seq<Row> { rows + [Row(payload, false)] }

  /** It is the last of the pending ones: everything written before it is published before it. */
  lemma WrittenIsLastPending(rows: seq<Row>, payload: Payload)
    ensures Pending(Written(rows, payload)) == Pending(rows) + [|rows|]
  {
    assert Written(rows, payload)[..|rows|] == rows;
  }

  datatype Polled = Polled(rows: seq<Row>, stream: seq<Message>)

  function Attempt(p: Polled, id: EventId, o: Outcome, window: int): Polled
    requires id < |p.rows|
  {
    Polled(if o.Marks() then Mark(p.rows, id) else p.rows,
           if o.landed then Publish(p.stream, id, p.rows[id].payload, o.at, window) else p.stream)
  }

  /** The poll loop over a batch that was read beforehand. */
  function PollBatch(p: Polled, ids: seq<EventId>, outcomes: seq<Outcome>, window: int): (r: Polled)
    requires Ids(ids, p.rows) && |outcomes| == |ids|
    ensures |r.rows| == |p.rows|
  {
    if ids == [] then p
    else
      var n := |ids| - 1;
      Attempt(PollBatch(p, ids[..n], outcomes[..n], window), ids[n], outcomes[n], window)
  }

  class Outbox {
    var rows: seq<Row>
    var stream: seq<Message>

    function Value(): Polled
      reads this
    {
      Polled(rows, stream)
    }

    constructor ()
      ensures Value() == Polled([], [])
    {
      rows, stream := [], [];
    }

    method WriteOutboxEvent(payload: Payload)
      modifies this`rows
      ensures rows == Written(old(rows), payload)
      ensures Pending(rows) == Pending(old(rows)) + [|old(rows)|]
    {
      WrittenIsLastPending(rows, payload);
      rows := rows + [Row(payload, false)];
    }

    /** SELECT .. WHERE publishedAt IS NULL ORDER BY createdAt LIMIT batchSize */
    method FindPending(batchSize: nat) returns (ids: seq<EventId>)
      ensures ids == Batch(rows, batchSize) && Ids(ids, rows)
    {
      var all: seq<EventId> := [];
      for i := 0 to |rows|
        invariant all == Pending(rows[..i]) && Ids(all, rows)
      {
        assert rows[..i + 1][..i] == rows[..i];
        if !rows[i].published {
          all := all + [i];
        }
      }
      assert rows[..|rows|] == rows;
      ids := if |all| <= batchSize then all else all[..batchSize];
    }

    /** pollOutbox: a failed publish or mark leaves its row pending and does not stop the batch. */
    method PollOutbox(batchSize: nat, outcomes: seq<Outcome>, window: int) returns (attempted: nat, published: nat)
      requires |outcomes| >= batchSize
      modifies this
      ensures attempted == |Batch(old(rows), batchSize)| && Ids(Batch(old(rows), batchSize), old(rows))
      ensures Value() == PollBatch(old(Value()), Batch(old(rows), batchSize), outcomes[..attempted], window)
      ensures published == Marked(outcomes[..attempted])
    {
      var ids := FindPending(batchSize);
      attempted, published := |ids|, 0;
      for i := 0 to |ids|
        invariant |rows| == |old(rows)|
        invariant Value() == PollBatch(old(Value()), ids[..i], outcomes[..i], window)
        invariant published == Marked(outcomes[..i])
      {
        assert ids[..i + 1][..i] == ids[..i] && outcomes[..i + 1][..i] == outcomes[..i];
        var id, o := ids[i], outcomes[i];
        if o.landed {
          if !IsDuplicate(stream, id, o.at, window) {
            stream := stream + [Message(id, rows[id].payload, o.at)];
          }
          if o.acked && o.marked {
            rows := rows[id := rows[id].(published := true)];
            published := published + 1;
          }
        }
      }
      assert ids[..|ids|] == ids;
    }
  }

  function Marked(outcomes: seq<Outcome>): nat {
    if outcomes == [] then 0
    else Marked(outcomes[..|outcomes| - 1]) + if outcomes[|outcomes| - 1].Marks() then 1 else 0
  }

  // ---------------------------------------------------------------------------------------
  // The audit subscriber
  // ---------------------------------------------------------------------------------------

  /** What may go wrong while one delivery is handled. */
  datatype Mishap = Nothing | DatabaseError | CrashBeforeAck

  datatype Reply = Ack | Nak | Term | NoReply

  datatype Handled = Handled(audit: seq<EventId>, reply: Reply)

  /** The pump and the audit handler: insert under a unique event id, a conflict being success. */
  function HandleDelivery(audit: seq<EventId>, m: Message, mishap: Mishap): Handled {
    if !m.payload.valid then Handled(audit, Term)
    else if m.payload.org.None? then Handled(audit, if mishap == CrashBeforeAck then NoReply else Ack)
    else if mishap == DatabaseError then Handled(audit, Nak)
    else
      Handled(if m.id in audit then audit else audit + [m.id], if mishap == CrashBeforeAck then NoReply else Ack)
  }

  class AuditLog {
    var entries: seq<EventId>

    constructor ()
      ensures entries == []
    {
      entries := [];
    }

    method Deliver(m: Message, mishap: Mishap) returns (reply: Reply)
      modifies this
      ensures Handled(entries, reply) == HandleDelivery(old(entries), m, mishap)
    {
      if !m.payload.valid {
        return Term;
      }
      if m.payload.org.Some? {
        if mishap == DatabaseError {
          return Nak;
        }
        if m.id !in entries {
          entries := entries + [m.id];
        }
      }
      reply := if mishap == CrashBeforeAck then NoReply else Ack;
    }
  }

  // ---------------------------------------------------------------------------------------
  // Runs of the whole pipeline
  // ---------------------------------------------------------------------------------------

  /** `acked` holds the stream positions whose delivery was acknowledged. */
  datatype State = State(rows: seq<Row>, stream: seq<Message>, audit: seq<EventId>, acked: set<nat>) {
    function Tables(): Polled { Polled(rows, stream) }
  }

  datatype Step =
    | Insert(payload: Payload)
    | Poll(batchSize: nat, outcomes: seq<Outcome>)
    | Deliver(k: nat, mishap: Mishap)        // any stored message, any number of times

  const INITIAL := State([], [], [], {})

  lemma {:induction false} PendingAreIds(rows: seq<Row>)
    ensures Ids(Pending(rows), rows)
    ensures forall i :: 0 <= i < |rows| && !rows[i].published ==> i in Pending(rows)
    ensures forall i :: 0 <= i < |Pending(rows)| ==> !rows[Pending(rows)[i]].published
    ensures forall i, j :: 0 <= i < j < |Pending(rows)| ==> Pending(rows)[i] < Pending(rows)[j]
  {
    if rows != [] {
      PendingAreIds(rows[..|rows| - 1]);
    }
  }

  function Apply(s: State, step: Step, window: int): State {
    match step
    case Insert(payload) => s.(rows := Written(s.rows, payload))
    case Poll(batchSize, outcomes) =>
      PendingAreIds(s.rows);
      var ids := Batch(s.rows, batchSize);
      if |outcomes| != |ids| then s
      else
        var p := PollBatch(Polled(s.rows, s.stream), ids, outcomes, window);
        s.(rows := p.rows, stream := p.stream)
    case Deliver(k, mishap) =>
      if k >= |s.stream| then s
      else
        var h := HandleDelivery(s.audit, s.stream[k], mishap);
        s.(audit := h.audit, acked := if h.reply == Ack then s.acked + {k} else s.acked)
  }

  function Run(steps: seq<Step>, window: int): State {
    if steps == [] then INITIAL else Apply(Run(steps[..|steps| - 1], window), steps[|steps| - 1], window)
  }

  ghost predicate Stored(stream: seq<Message>, id: EventId) {
    exists i :: 0 <= i < |stream| && stream[i].id == id
  }

  /** Every stored copy is of an existing row and carries its payload; copies of one event are at
      least a duplicate window apart; a row marked published is stored. */
  ghost predicate CopiesSound(rows: seq<Row>, stream: seq<Message>, window: int) {
    && (forall i :: 0 <= i < |stream| ==> stream[i].id < |rows| && stream[i].payload == rows[stream[i].id].payload)
    && (forall i, j :: 0 <= i < j < |stream| && stream[i].id == stream[j].id ==> stream[j].at - stream[i].at >= window)
  }

  ghost predicate MarkedAreStored(rows: seq<Row>, stream: seq<Message>) {
    forall id :: 0 <= id < |rows| && rows[id].published ==> Stored(stream, id)
  }

  ghost predicate Sound(rows: seq<Row>, stream: seq<Message>, window: int) {
    CopiesSound(rows, stream, window) && MarkedAreStored(rows, stream)
  }

  /** Rows are never lost or altered, only marked; stored messages stay. */
  ghost predicate Grows(p: Polled, q: Polled) {
    && |p.rows| <= |q.rows| && p.stream <= q.stream
    && forall id :: 0 <= id < |p.rows| ==>
         q.rows[id].payload == p.rows[id].payload && (p.rows[id].published ==> q.rows[id].published)
  }

  lemma PublishStores(stream: seq<Message>, id: EventId, payload: Payload, at: int, window: int)
    ensures stream <= Publish(stream, id, payload, at, window)
    ensures Stored(Publish(stream, id, payload, at, window), id)
  {
    if !IsDuplicate(stream, id, at, window) {
      assert Publish(stream, id, payload, at, window)[|stream|].id == id;
    }
  }

  lemma PublishKeepsCopies(rows: seq<Row>, stream: seq<Message>, id: EventId, at: int, window: int)
    requires id < |rows| && CopiesSound(rows, stream, window)
    ensures CopiesSound(rows, Publish(stream, id, rows[id].payload, at, window), window)
  {
  }

  lemma MarkKeepsCopies(rows: seq<Row>, stream: seq<Message>, id: EventId, window: int)
    requires id < |rows| && CopiesSound(rows, stream, window)
    ensures CopiesSound(Mark(rows, id), stream, window)
  {
  }

  lemma StoredGrows(p: seq<Message>, q: seq<Message>, id: EventId)
    requires p <= q && Stored(p, id)
    ensures Stored(q, id)
  {
    var k :| 0 <= k < |p| && p[k].id == id;
    assert q[k].id == id;
  }

  lemma AttemptKeepsStored(p: Polled, id: EventId, o: Outcome, window: int)
    requires id < |p.rows| && MarkedAreStored(p.rows, p.stream)
    ensures var q := Attempt(p, id, o, window); MarkedAreStored(q.rows, q.stream) && Grows(p, q)
  {
    var q := Attempt(p, id, o, window);
    PublishStores(p.stream, id, p.rows[id].payload, o.at, window);
    forall i | 0 <= i < |q.rows| && q.rows[i].published
      ensures Stored(q.stream, i)
    {
      if p.rows[i].published {
        StoredGrows(p.stream, q.stream, i);
      }
    }
  }

  lemma AttemptKeepsSound(p: Polled, id: EventId, o: Outcome, window: int)
    requires id < |p.rows| && Sound(p.rows, p.stream, window)
    ensures var q := Attempt(p, id, o, window); Sound(q.rows, q.stream, window) && Grows(p, q)
  {
    AttemptKeepsStored(p, id, o, window);
    PublishKeepsCopies(p.rows, p.stream, id, o.at, window);
    MarkKeepsCopies(p.rows, Attempt(p, id, o.(acked := false), window).stream, id, window);
  }

  lemma {:induction false} PollKeepsSound(p: Polled, ids: seq<EventId>, outcomes: seq<Outcome>, window: int)
    requires Ids(ids, p.rows) && |outcomes| == |ids| && Sound(p.rows, p.stream, window)
    ensures var q := PollBatch(p, ids, outcomes, window); Sound(q.rows, q.stream, window) && Grows(p, q)
  {
    if ids != [] {
      var n := |ids| - 1;
      PollKeepsSound(p, ids[..n], outcomes[..n], window);
      AttemptKeepsSound(PollBatch(p, ids[..n], outcomes[..n], window), ids[n], outcomes[n], window);
    }
  }

  ghost predicate Unique(ids: seq<EventId>) { forall i, j :: 0 <= i < j < |ids| ==> ids[i] != ids[j] }

  /** Each event is audited at most once, only if it is on the stream, and certainly once a delivery of
      it was acknowledged, provided it names an organisation. */
  ghost predicate AuditSound(s: State) {
    && Unique(s.audit)
    && (forall i :: 0 <= i < |s.audit| ==> Stored(s.stream, s.audit[i]))
    && (forall k :: k in s.acked ==> k < |s.stream| && (s.stream[k].payload.org.Some? ==> s.stream[k].id in s.audit))
  }

  lemma StepKeepsSound(s: State, step: Step, window: int)
    requires Sound(s.rows, s.stream, window)
    ensures var s' := Apply(s, step, window);
            Sound(s'.rows, s'.stream, window) && Grows(Polled(s.rows, s.stream), Polled(s'.rows, s'.stream))
  {
    if step.Poll? {
      PendingAreIds(s.rows);
      var ids := Batch(s.rows, step.batchSize);
      if |step.outcomes| == |ids| {
        PollKeepsSound(Polled(s.rows, s.stream), ids, step.outcomes, window);
      }
    }
  }

  lemma DeliveryKeepsAudit(s: State, k: nat, mishap: Mishap, window: int)
    requires k < |s.stream| && AuditSound(s)
    ensures AuditSound(Apply(s, Deliver(k, mishap), window))
  {
    var audit := HandleDelivery(s.audit, s.stream[k], mishap).audit;
    forall i | 0 <= i < |audit|
      ensures Stored(s.stream, audit[i])
    {
      if i < |s.audit| {
        assert audit[i] == s.audit[i];
      } else {
        assert s.stream[k].id == audit[i];
      }
    }
  }

  lemma GrowthKeepsAudit(s: State, stream: seq<Message>, rows: seq<Row>)
    requires AuditSound(s) && s.stream <= stream
    ensures AuditSound(s.(stream := stream, rows := rows))
  {
    forall i | 0 <= i < |s.audit|
      ensures Stored(stream, s.audit[i])
    {
      StoredGrows(s.stream, stream, s.audit[i]);
    }
  }

  lemma StepKeepsAudit(s: State, step: Step, window: int)
    requires Sound(s.rows, s.stream, window) && AuditSound(s)
    ensures AuditSound(Apply(s, step, window))
  {
    if step.Deliver? && step.k < |s.stream| {
      DeliveryKeepsAudit(s, step.k, step.mishap, window);
    } else {
      StepKeepsSound(s, step, window);
      GrowthKeepsAudit(s, Apply(s, step, window).stream, Apply(s, step, window).rows);
    }
  }

  /** Over any run of inserts, polls with arbitrary publish and mark failures, and deliveries in any
      order and number: nothing is lost, marked means stored, copies are a duplicate window apart, and
      every event is audited at most once. */
  lemma {:induction false} PipelineIsSound(steps: seq<Step>, window: int)
    ensures var s := Run(steps, window); Sound(s.rows, s.stream, window) && AuditSound(s)
  {
    if steps != [] {
      var n := |steps| - 1;
      PipelineIsSound(steps[..n], window);
      StepKeepsSound(Run(steps[..n], window), steps[n], window);
      StepKeepsAudit(Run(steps[..n], window), steps[n], window);
    }
  }

  /** The rows and the stream at any moment of a run are still there at its end, in the same order and
      with the same contents. */
  lemma {:induction false} NothingIsLost(steps: seq<Step>, k: nat, window: int)
    requires k <= |steps|
    ensures Grows(Run(steps[..k], window).Tables(), Run(steps, window).Tables())
  {
    var n := |steps| - 1;
    if k == |steps| {
      assert steps[..k] == steps;
    } else {
      assert steps[..n][..k] == steps[..k];
      NothingIsLost(steps[..n], k, window);
      LastStepGrows(steps, window);
      GrowsOn(Run(steps[..k], window).Tables(), Run(steps[..n], window).Tables(), Run(steps, window).Tables());
    }
  }

  lemma LastStepGrows(steps: seq<Step>, window: int)
    requires steps != []
    ensures Grows(Run(steps[..|steps| - 1], window).Tables(), Run(steps, window).Tables())
  {
    PipelineIsSound(steps[..|steps| - 1], window);
    StepKeepsSound(Run(steps[..|steps| - 1], window), steps[|steps| - 1], window);
  }

  lemma GrowsOn(p: Polled, q: Polled, r: Polled)
    requires Grows(p, q) && Grows(q, r)
    ensures Grows(p, r)
  {
  }

  /** If all copies the broker could have stored of an event fall within one duplicate window, there is
      at most one. */
  lemma AtMostOneCopy(steps: seq<Step>, window: int, i: nat, j: nat)
    requires var s := Run(steps, window).stream;
             i < |s| && j < |s| && s[i].id == s[j].id && -window < s[j].at - s[i].at < window
    ensures i == j
  {
    PipelineIsSound(steps, window);
  }

  // ---------------------------------------------------------------------------------------
  // A healthy publisher
  // ---------------------------------------------------------------------------------------

  lemma {:induction false} MarkFirstPending(rows: seq<Row>)
    requires Pending(rows) != []
    ensures Pending(rows)[0] < |rows| && Pending(Mark(rows, Pending(rows)[0])) == Pending(rows)[1..]
  {
    FirstPendingIsId(rows);
    var n := |rows| - 1;
    var id, older := Pending(rows)[0], Pending(rows[..n]);
    if older == [] {
      assert Mark(rows, id)[..n] == rows[..n];
    } else {
      FirstPendingIsId(rows[..n]);
      MarkFirstPending(rows[..n]);
      MarkBeforeLast(rows, id);
      var last := if rows[n].published then [] else [n];
      assert (older + last)[1..] == older[1..] + last;
    }
  }

  lemma FirstPendingIsId(rows: seq<Row>)
    requires Pending(rows) != []
    ensures Pending(rows)[0] < |rows|
  {
    PendingAreIds(rows);
  }

  lemma MarkBeforeLast(rows: seq<Row>, id: EventId)
    requires id < |rows| - 1
    ensures var n := |rows| - 1;
            Mark(rows, id)[..n] == Mark(rows[..n], id) && Mark(rows, id)[n] == rows[n]
  {
  }

  /** Every publish lands and is heard, every mark goes through; row id is published at clock(id). */
  function Healthy(ids: seq<EventId>, clock: EventId -> int): (os: seq<Outcome>)
    ensures |os| == |ids|
  {
    if ids == [] then []
    else Healthy(ids[..|ids| - 1], clock) + [Success(clock(ids[|ids| - 1]))]
  }

  function IdsOf(stream: seq<Message>): seq<EventId> {
    seq(|stream|, i requires 0 <= i < |stream| => stream[i].id)
  }

  ghost predicate NoneStored(p: Polled) {
    forall i :: 0 <= i < |Pending(p.rows)| ==> !Stored(p.stream, Pending(p.rows)[i])
  }

  /** From p to q the m oldest pending rows of p were marked, and stored in that order. */
  ghost predicate Drained(p: Polled, q: Polled, m: nat)
    requires m <= |Pending(p.rows)|
  {
    && Pending(q.rows) == Pending(p.rows)[m..]
    && IdsOf(q.stream) == IdsOf(p.stream) + Pending(p.rows)[..m]
    && NoneStored(q)
  }

  lemma DrainedNothing(p: Polled)
    requires NoneStored(p)
    ensures Drained(p, p, 0)
  {
    assert Pending(p.rows)[..0] == [] && IdsOf(p.stream) + [] == IdsOf(p.stream);
  }

  lemma DrainedTwice(p: Polled, q: Polled, r: Polled, m: nat, d: nat)
    requires m + d <= |Pending(p.rows)| && Drained(p, q, m) && Drained(q, r, d)
    ensures Drained(p, r, m + d)
  {
    var all := Pending(p.rows);
    assert all[m..][d..] == all[m + d..];
    assert all[..m] + all[m..][..d] == all[..m + d];
    assert IdsOf(p.stream) + all[..m] + all[m..][..d] == IdsOf(p.stream) + (all[..m] + all[m..][..d]);
  }

  lemma HealthyAttempt(p: Polled, at: int, window: int)
    requires Pending(p.rows) != [] && NoneStored(p)
    ensures Pending(p.rows)[0] < |p.rows|
    ensures Drained(p, Attempt(p, Pending(p.rows)[0], Success(at), window), 1)
  {
    MarkFirstPending(p.rows);
    PendingAreIds(p.rows);
    var id := Pending(p.rows)[0];
    assert !Stored(p.stream, id);
    var q := Attempt(p, id, Success(at), window);
    assert q.stream == p.stream + [Message(id, p.rows[id].payload, at)];
    forall i | 0 <= i < |Pending(q.rows)|
      ensures !Stored(q.stream, Pending(q.rows)[i])
    {
      assert Pending(q.rows)[i] == Pending(p.rows)[i + 1] && !Stored(p.stream, Pending(p.rows)[i + 1]);
    }
  }

  function Success(at: int): Outcome { Outcome(at, true, true, true) }

  lemma OneMoreHealthy(p: Polled, q: Polled, m: nat, at: int, window: int)
    requires 0 < m <= |Pending(p.rows)| && Drained(p, q, m - 1)
    ensures Pending(p.rows)[m - 1] < |q.rows|
    ensures Drained(p, Attempt(q, Pending(p.rows)[m - 1], Success(at), window), m)
  {
    assert Pending(q.rows)[0] == Pending(p.rows)[m - 1];
    HealthyAttempt(q, at, window);
    DrainedTwice(p, q, Attempt(q, Pending(p.rows)[m - 1], Success(at), window), m - 1, 1);
  }

  lemma HealthySnoc(p: Polled, ids: seq<EventId>, clock: EventId -> int, window: int)
    requires ids != [] && Ids(ids, p.rows)
    ensures var n := |ids| - 1;
            PollBatch(p, ids, Healthy(ids, clock), window) ==
            Attempt(PollBatch(p, ids[..n], Healthy(ids[..n], clock), window), ids[n],
                    Success(clock(ids[n])), window)
  {
    assert Healthy(ids, clock)[..|ids| - 1] == Healthy(ids[..|ids| - 1], clock);
  }

  /** The poll loop over the first m pending rows. */
  function HealthyRun(p: Polled, m: nat, clock: EventId -> int, window: int): Polled
    requires m <= |Pending(p.rows)| && Ids(Pending(p.rows), p.rows)
  {
    PollBatch(p, Pending(p.rows)[..m], Healthy(Pending(p.rows)[..m], clock), window)
  }

  lemma HealthyRunNext(p: Polled, m: nat, clock: EventId -> int, window: int)
    requires 0 < m <= |Pending(p.rows)| && Ids(Pending(p.rows), p.rows)
    requires Drained(p, HealthyRun(p, m - 1, clock, window), m - 1)
    ensures Drained(p, HealthyRun(p, m, clock, window), m)
  {
    var ids := Pending(p.rows)[..m];
    assert ids[..m - 1] == Pending(p.rows)[..m - 1];
    HealthySnoc(p, ids, clock, window);
    OneMoreHealthy(p, HealthyRun(p, m - 1, clock, window), m, clock(ids[m - 1]), window);
  }

  lemma HealthyRunNone(p: Polled, clock: EventId -> int, window: int)
    requires NoneStored(p) && Ids(Pending(p.rows), p.rows)
    ensures Drained(p, HealthyRun(p, 0, clock, window), 0)
  {
    DrainedNothing(p);
    assert Pending(p.rows)[..0] == [];
  }

  lemma {:induction false} HealthyBatch(p: Polled, m: nat, clock: EventId -> int, window: int)
    requires m <= |Pending(p.rows)| && NoneStored(p) && Ids(Pending(p.rows), p.rows)
    ensures Drained(p, HealthyRun(p, m, clock, window), m)
    decreases m
  {
    if m == 0 {
      HealthyRunNone(p, clock, window);
    } else {
      HealthyBatch(p, m - 1, clock, window);
      HealthyRunNext(p, m, clock, window);
    }
  }

  function HealthyPoll(p: Polled, batchSize: nat, clock: EventId -> int, window: int): Polled {
    PendingAreIds(p.rows);
    PollBatch(p, Batch(p.rows, batchSize), Healthy(Batch(p.rows, batchSize), clock), window)
  }

  /** k polls in a row with nothing inserted between them. */
  function Polls(p: Polled, k: nat, batchSize: nat, clock: EventId -> int, window: int): Polled
    decreases k
  {
    if k == 0 then p else HealthyPoll(Polls(p, k - 1, batchSize, clock, window), batchSize, clock, window)
  }

  function Min(a: nat, b: nat): nat { if a < b then a else b }

  /** How many of n rows k polls reach, a batch at a time. */
  function Reached(k: nat, b: nat, n: nat): (r: nat)
    ensures r <= n
  {
    if k == 0 then 0 else Reached(k - 1, b, n) + Min(b, n - Reached(k - 1, b, n))
  }

  lemma {:induction false} ReachedIsProduct(k: nat, b: nat, n: nat)
    ensures Reached(k, b, n) == Min(k * b, n)
  {
    if k > 0 {
      ReachedIsProduct(k - 1, b, n);
      assert k * b == (k - 1) * b + b;
    }
  }

  lemma HealthyPollDrains(q: Polled, batchSize: nat, clock: EventId -> int, window: int)
    requires NoneStored(q)
    ensures Drained(q, HealthyPoll(q, batchSize, clock, window), Min(batchSize, |Pending(q.rows)|))
  {
    PendingAreIds(q.rows);
    HealthyBatch(q, Min(batchSize, |Pending(q.rows)|), clock, window);
    assert Batch(q.rows, batchSize) == Pending(q.rows)[..Min(batchSize, |Pending(q.rows)|)];
  }

  /** Each state is the one before after a healthy poll. */
  ghost predicate Drains(g: nat -> Polled, b: nat) {
    forall i: nat :: NoneStored(g(i)) ==> Drained(g(i), g(i + 1), Min(b, |Pending(g(i).rows)|))
  }

  lemma {:induction false} DrainsTo(g: nat -> Polled, b: nat, k: nat)
    requires Drains(g, b) && NoneStored(g(0))
    ensures Drained(g(0), g(k), Reached(k, b, |Pending(g(0).rows)|))
  {
    if k == 0 {
      DrainedNothing(g(0));
    } else {
      DrainsTo(g, b, k - 1);
      var m := Reached(k - 1, b, |Pending(g(0).rows)|);
      var d := Min(b, |Pending(g(0).rows)| - m);
      assert Drained(g(k - 1), g(k - 1 + 1), d);
      DrainedTwice(g(0), g(k - 1), g(k), m, d);
    }
  }

  lemma NextPollDrains(p: Polled, i: nat, batchSize: nat, clock: EventId -> int, window: int)
    requires NoneStored(Polls(p, i, batchSize, clock, window))
    ensures var q := Polls(p, i, batchSize, clock, window);
            Drained(q, Polls(p, i + 1, batchSize, clock, window), Min(batchSize, |Pending(q.rows)|))
  {
    var q := Polls(p, i, batchSize, clock, window);
    assert Polls(p, i + 1, batchSize, clock, window) == HealthyPoll(q, batchSize, clock, window);
    HealthyPollDrains(q, batchSize, clock, window);
  }

  lemma PollsDrain(p: Polled, k: nat, batchSize: nat, clock: EventId -> int, window: int)
    requires NoneStored(p)
    ensures Drained(p, Polls(p, k, batchSize, clock, window), Reached(k, batchSize, |Pending(p.rows)|))
  {
    var g := (i: nat) => Polls(p, i, batchSize, clock, window);
    forall i: nat | NoneStored(g(i))
      ensures Drained(g(i), g(i + 1), Min(batchSize, |Pending(g(i).rows)|))
    {
      NextPollDrains(p, i, batchSize, clock, window);
    }
    assert g(0) == p;
    DrainsTo(g, batchSize, k);
  }

  /** With a healthy publisher and no new rows, k polls publish exactly the k * batchSize oldest pending
      rows, oldest first: all n of them as soon as k * batchSize >= n, and not before. */
  lemma HealthyPollsDrainInOrder(p: Polled, k: nat, batchSize: nat, clock: EventId -> int, window: int)
    requires NoneStored(p)
    ensures var q, all := Polls(p, k, batchSize, clock, window), Pending(p.rows);
            && IdsOf(q.stream) == IdsOf(p.stream) + all[..Min(k * batchSize, |all|)]
            && (Pending(q.rows) == [] <==> k * batchSize >= |all|)
  {
    PollsDrain(p, k, batchSize, clock, window);
    ReachedIsProduct(k, batchSize, |Pending(p.rows)|);
  }

  lemma {:induction false} RowsIgnoreStream(
    p: Polled, q: Polled, ids: seq<EventId>, outcomes: seq<Outcome>, window: int)
    requires p.rows == q.rows && Ids(ids, p.rows) && |outcomes| == |ids|
    ensures PollBatch(p, ids, outcomes, window).rows == PollBatch(q, ids, outcomes, window).rows
  {
    if ids != [] {
      RowsIgnoreStream(p, q, ids[..|ids| - 1], outcomes[..|ids| - 1], window);
    }
  }

  lemma HealthyPollIgnoresStream(p: Polled, q: Polled, batchSize: nat, clock: EventId -> int, window: int)
    requires p.rows == q.rows
    ensures HealthyPoll(p, batchSize, clock, window).rows == HealthyPoll(q, batchSize, clock, window).rows
  {
    PendingAreIds(p.rows);
    var ids := Batch(p.rows, batchSize);
    assert Ids(ids, p.rows);
    RowsIgnoreStream(p, q, ids, Healthy(ids, clock), window);
  }

  lemma HealthyPollMarks(q: Polled, batchSize: nat, clock: EventId -> int, window: int)
    ensures Pending(HealthyPoll(q, batchSize, clock, window).rows)
         == Pending(q.rows)[Min(batchSize, |Pending(q.rows)|)..]
  {
    var bare := Polled(q.rows, []);
    HealthyPollIgnoresStream(q, bare, batchSize, clock, window);
    HealthyPollDrains(bare, batchSize, clock, window);
  }

  /** Each element is the one before without its first b elements. */
  ghost predicate Shrinks(f: nat -> seq<EventId>, b: nat) {
    forall i: nat :: f(i + 1) == f(i)[Min(b, |f(i)|)..]
  }

  lemma {:induction false} ShrinksTo(f: nat -> seq<EventId>, b: nat, k: nat)
    requires Shrinks(f, b)
    ensures f(k) == f(0)[Reached(k, b, |f(0)|)..]
  {
    if k > 0 {
      ShrinksTo(f, b, k - 1);
      var all, m := f(0), Reached(k - 1, b, |f(0)|);
      assert f(k - 1 + 1) == f(k - 1)[Min(b, |f(k - 1)|)..];
      assert all[m..][Min(b, |all| - m)..] == all[m + Min(b, |all| - m)..];
    }
  }

  lemma NextPollMarks(p: Polled, i: nat, batchSize: nat, clock: EventId -> int, window: int)
    ensures var pending := Pending(Polls(p, i, batchSize, clock, window).rows);
            Pending(Polls(p, i + 1, batchSize, clock, window).rows) == pending[Min(batchSize, |pending|)..]
  {
    var q := Polls(p, i, batchSize, clock, window);
    assert Polls(p, i + 1, batchSize, clock, window) == HealthyPoll(q, batchSize, clock, window);
    HealthyPollMarks(q, batchSize, clock, window);
  }

  /** Also when earlier polls had stored some of the rows without marking them: k polls mark the
      k * batchSize oldest pending rows, and those left are the youngest, in order. */
  lemma HealthyPollsMarkOldestFirst(p: Polled, k: nat, batchSize: nat, clock: EventId -> int, window: int)
    ensures var all := Pending(p.rows);
            Pending(Polls(p, k, batchSize, clock, window).rows) == all[Min(k * batchSize, |all|)..]
  {
    var f := (i: nat) => Pending(Polls(p, i, batchSize, clock, window).rows);
    forall i: nat
      ensures f(i + 1) == f(i)[Min(batchSize, |f(i)|)..]
    {
      NextPollMarks(p, i, batchSize, clock, window);
    }
    ShrinksTo(f, batchSize, k);
    assert f(0) == Pending(p.rows);
    ReachedIsProduct(k, batchSize, |Pending(p.rows)|);
  }

  // ---------------------------------------------------------------------------------------
  // Exactly what is marked, stored and audited
  // ---------------------------------------------------------------------------------------

  /** Attempt i of the batch is for the row, and reached the broker. */
  ghost predicate LandsAt(ids: seq<EventId>, outcomes: seq<Outcome>, i: int, id: EventId) {
    0 <= i < |ids| && i < |outcomes| && ids[i] == id && outcomes[i].landed
  }

  /** And the poller heard so, and could write the mark. */
  ghost predicate MarksAt(ids: seq<EventId>, outcomes: seq<Outcome>, i: int, id: EventId) {
    LandsAt(ids, outcomes, i, id) && outcomes[i].acked && outcomes[i].marked
  }

  lemma LandsSnoc(ids: seq<EventId>, outcomes: seq<Outcome>, id: EventId)
    requires ids != [] && |outcomes| == |ids|
    ensures var n := |ids| - 1;
            (exists i :: LandsAt(ids, outcomes, i, id))
            <==> (exists i :: LandsAt(ids[..n], outcomes[..n], i, id)) || LandsAt(ids, outcomes, n, id)
  {
    var n := |ids| - 1;
    if i :| LandsAt(ids[..n], outcomes[..n], i, id) {
      assert LandsAt(ids, outcomes, i, id);
    }
    if i :| LandsAt(ids, outcomes, i, id) {
      assert i == n || LandsAt(ids[..n], outcomes[..n], i, id);
    }
  }

  lemma MarksSnoc(ids: seq<EventId>, outcomes: seq<Outcome>, id: EventId)
    requires ids != [] && |outcomes| == |ids|
    ensures var n := |ids| - 1;
            (exists i :: MarksAt(ids, outcomes, i, id))
            <==> (exists i :: MarksAt(ids[..n], outcomes[..n], i, id)) || MarksAt(ids, outcomes, n, id)
  {
    var n := |ids| - 1;
    if i :| MarksAt(ids[..n], outcomes[..n], i, id) {
      assert MarksAt(ids, outcomes, i, id);
    }
    if i :| MarksAt(ids, outcomes, i, id) {
      assert i == n || MarksAt(ids[..n], outcomes[..n], i, id);
    }
  }

  /** After a poll a row is marked iff it was, or its publish landed, was acknowledged and the mark was
      written. */
  lemma {:induction false} MarkedIff(p: Polled, ids: seq<EventId>, outcomes: seq<Outcome>, window: int, id: EventId)
    requires Ids(ids, p.rows) && |outcomes| == |ids| && id < |p.rows|
    ensures PollBatch(p, ids, outcomes, window).rows[id].published <==>
            p.rows[id].published || exists i :: MarksAt(ids, outcomes, i, id)
  {
    if ids != [] {
      MarkedIff(p, ids[..|ids| - 1], outcomes[..|ids| - 1], window, id);
      MarksSnoc(ids, outcomes, id);
    }
  }

  lemma StoredAfterAttempt(p: Polled, id: EventId, o: Outcome, window: int, other: EventId)
    requires id < |p.rows|
    ensures Stored(Attempt(p, id, o, window).stream, other) <==> Stored(p.stream, other) || (o.landed && id == other)
  {
    var q := Attempt(p, id, o, window).stream;
    if o.landed {
      PublishStores(p.stream, id, p.rows[id].payload, o.at, window);
    }
    if Stored(p.stream, other) {
      StoredGrows(p.stream, q, other);
    }
    if i :| 0 <= i < |q| && q[i].id == other && i < |p.stream| {
      assert p.stream[i].id == other;
    }
  }

  /** And its event is stored iff it was, or a publish of it landed, heard of or not. */
  lemma {:induction false} StoredIff(p: Polled, ids: seq<EventId>, outcomes: seq<Outcome>, window: int, id: EventId)
    requires Ids(ids, p.rows) && |outcomes| == |ids|
    ensures Stored(PollBatch(p, ids, outcomes, window).stream, id) <==>
            Stored(p.stream, id) || exists i :: LandsAt(ids, outcomes, i, id)
  {
    if ids != [] {
      var n := |ids| - 1;
      StoredIff(p, ids[..n], outcomes[..n], window, id);
      LandsSnoc(ids, outcomes, id);
      StoredAfterAttempt(PollBatch(p, ids[..n], outcomes[..n], window), ids[n], outcomes[n], window, id);
    }
  }

  /** A publish that lands adds a copy, with the row's contents, iff none was stored less than a
      duplicate window ago. */
  lemma CopyIsAddedIff(p: Polled, id: EventId, at: int, acked: bool, marked: bool, window: int)
    requires id < |p.rows|
    ensures var q := Attempt(p, id, Outcome(at, true, acked, marked), window).stream;
            if forall i :: 0 <= i < |p.stream| && p.stream[i].id == id ==> at - p.stream[i].at >= window
            then q == p.stream + [Message(id, p.rows[id].payload, at)] else q == p.stream
  {
  }

  /** How a delivery is answered: what the schema rejects is terminated, what the database failed is
      sent again, a crash answers nothing, and everything else is acknowledged. */
  lemma RepliesExactly(audit: seq<EventId>, m: Message, mishap: Mishap)
    ensures var reply := HandleDelivery(audit, m, mishap).reply;
            && (reply == Term <==> !m.payload.valid)
            && (reply == Nak <==> m.payload.valid && m.payload.org.Some? && mishap == DatabaseError)
            && (reply == NoReply <==> m.payload.valid && mishap == CrashBeforeAck)
  {
  }

  /** Step k hands the subscriber a copy of the event that it can and does write down. */
  ghost predicate AuditsAt(steps: seq<Step>, k: nat, id: EventId, window: int) {
    && k < |steps| && steps[k].Deliver? && steps[k].mishap != DatabaseError
    && var stream := Run(steps[..k], window).stream;
       steps[k].k < |stream| && var m := stream[steps[k].k]; m.id == id && m.payload.valid && m.payload.org.Some?
  }

  lemma StepAudits(s: State, step: Step, id: EventId, window: int)
    ensures id in Apply(s, step, window).audit <==>
            || id in s.audit
            || (step.Deliver? && step.mishap != DatabaseError && step.k < |s.stream| &&
                var m := s.stream[step.k]; m.id == id && m.payload.valid && m.payload.org.Some?)
  {
  }

  lemma AuditsSnoc(steps: seq<Step>, id: EventId, window: int)
    requires steps != []
    ensures var n := |steps| - 1;
            (exists k: nat :: AuditsAt(steps, k, id, window))
            <==> (exists k: nat :: AuditsAt(steps[..n], k, id, window)) || AuditsAt(steps, n, id, window)
  {
    var n := |steps| - 1;
    if k: nat :| AuditsAt(steps[..n], k, id, window) {
      assert steps[..n][..k] == steps[..k];
      assert AuditsAt(steps, k, id, window);
    }
    if k: nat :| AuditsAt(steps, k, id, window) && k < n {
      assert steps[..n][..k] == steps[..k];
      assert AuditsAt(steps[..n], k, id, window);
    }
  }

  /** An event is in the audit log iff some delivery of it, valid and of an organisation, met no
      database error. */
  lemma {:induction false} AuditedIff(steps: seq<Step>, id: EventId, window: int)
    ensures id in Run(steps, window).audit <==> exists k: nat :: AuditsAt(steps, k, id, window)
  {
    if steps != [] {
      var n := |steps| - 1;
      AuditedIff(steps[..n], id, window);
      StepAudits(Run(steps[..n], window), steps[n], id, window);
      AuditsSnoc(steps, id, window);
    }
  }

  lemma {:induction false} MarkShrinksPending(rows: seq<Row>, id: EventId)
    requires id < |rows|
    ensures |Pending(Mark(rows, id))| == |Pending(rows)| - if rows[id].published then 0 else 1
  {
    var n := |rows| - 1;
    if id == n {
      assert Mark(rows, id)[..n] == rows[..n];
    } else {
      MarkShrinksPending(rows[..n], id);
      MarkBeforeLast(rows, id);
    }
  }

  /** The number of rows a poll reports as published is the number that are no longer pending. */
  lemma {:induction false} PublishedCountsMarks(p: Polled, ids: seq<EventId>, outcomes: seq<Outcome>, window: int)
    requires Ids(ids, p.rows) && |outcomes| == |ids| && Unique(ids)
    requires forall i :: 0 <= i < |ids| ==> !p.rows[ids[i]].published
    ensures |Pending(PollBatch(p, ids, outcomes, window).rows)| == |Pending(p.rows)| - Marked(outcomes)
  {
    if ids != [] {
      var n := |ids| - 1;
      PublishedCountsMarks(p, ids[..n], outcomes[..n], window);
      StillPending(p, ids, outcomes, window);
      MarkShrinksPending(PollBatch(p, ids[..n], outcomes[..n], window).rows, ids[n]);
    }
  }

  lemma StillPending(p: Polled, ids: seq<EventId>, outcomes: seq<Outcome>, window: int)
    requires ids != [] && Ids(ids, p.rows) && |outcomes| == |ids| && Unique(ids) && !p.rows[ids[|ids| - 1]].published
    ensures var n := |ids| - 1; !PollBatch(p, ids[..n], outcomes[..n], window).rows[ids[n]].published
  {
    MarkedIff(p, ids[..|ids| - 1], outcomes[..|ids| - 1], window, ids[|ids| - 1]);
  }
}
