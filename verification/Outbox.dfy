/**
 The transactional outbox, the dispatcher that publishes its rows to a stream, and the consumer that
 applies the stream's events to the loan-application read model.
 */
module Outbox {
  import opened Wrappers

  // --- the outbox table and the stream

  datatype Details = Details(
    borrowerName: Option<string>, amountRequested: Option<real>, amount: Option<int>,
    tenorMonths: Option<int>, productCode: Option<string>, riskBand: Option<string>)

  /** The members of an event's payload that the read model looks at. */
  datatype Payload = Payload(status: Option<string>, to: Option<string>, details: Details)

  /** An event as it is stored and sent. The row's createdAt column is the event's time of occurrence. */
  datatype Message = Message(
    eventId: string, eventType: string, tenantId: string, aggregateId: string, occurredAt: int, payload: Payload)

  datatype OutboxRow = OutboxRow(
    message: Message, publishedAt: Option<int>, publishAttempts: nat, lastPublishError: Option<string>)

  function NewRow(message: Message): OutboxRow
  {
    OutboxRow(message, None, 0, None)
  }

  predicate Eligible(row: OutboxRow, maxAttempts: nat)
  {
    row.publishedAt.None? && row.publishAttempts < maxAttempts
  }

  predicate Names(rows: seq<OutboxRow>, claimed: seq<nat>)
  {
    && (forall k :: 0 <= k < |claimed| ==> claimed[k] < |rows|)
    && (forall k, l :: 0 <= k < l < |claimed| ==> claimed[k] != claimed[l])
  }

  predicate Older(rows: seq<OutboxRow>, i: nat, j: nat)
    requires i < |rows| && j < |rows|
  {
    rows[i].message.occurredAt <= rows[j].message.occurredAt
  }

  predicate Claimable(rows: seq<OutboxRow>, i: nat, locked: set<nat>, maxAttempts: nat)
    requires i < |rows|
  {
    i !in locked && Eligible(rows[i], maxAttempts)
  }

  /** The rows a claim returns: the oldest publishable ones that no other claim has locked, oldest first. */
  ghost predicate ClaimOk(rows: seq<OutboxRow>, claimed: seq<nat>, locked: set<nat>, batchSize: nat, maxAttempts: nat)
  {
    && Names(rows, claimed)
    && |claimed| <= batchSize
    && (forall k :: 0 <= k < |claimed| ==> Claimable(rows, claimed[k], locked, maxAttempts))
    && (forall k, l :: 0 <= k < l < |claimed| ==> Older(rows, claimed[k], claimed[l]))
    && (forall j :: 0 <= j < |rows| && Claimable(rows, j, locked, maxAttempts) && j !in claimed ==>
          |claimed| == batchSize && forall k :: 0 <= k < |claimed| ==> Older(rows, claimed[k], j))
  }

  const MAX_ERROR_LENGTH := 1000

  function Published(row: OutboxRow, now: int): OutboxRow
  {
    row.(publishedAt := Some(now), publishAttempts := row.publishAttempts + 1, lastPublishError := None)
  }

  function Failed(row: OutboxRow, error: string): OutboxRow
  {
    row.(publishAttempts := row.publishAttempts + 1,
         lastPublishError := Some(if |error| <= MAX_ERROR_LENGTH then error else error[..MAX_ERROR_LENGTH]))
  }

  /**
   What becomes of one claimed row. The update that marks it may fail, or take effect and be reported as
   failed, and then the catch block counts a second attempt. An error in the catch block, or a crash, stops
   the dispatch.
   */
  datatype Outcome =
    | Sent(now: int)
    | XaddFailed(error: string)
    | SentUnmarked(error: string)
    | CountedTwice(now: int, error: string)
    | Stopped(sent: bool)

  predicate OnStream(outcome: Outcome)
  {
    outcome.Sent? || outcome.SentUnmarked? || outcome.CountedTwice? || (outcome.Stopped? && outcome.sent)
  }

  datatype Progress = Progress(rows: seq<OutboxRow>, stream: seq<Message>, stopped: bool)

  function DispatchRow(p: Progress, i: nat, outcome: Outcome): (q: Progress)
    requires i < |p.rows|
    ensures |q.rows| == |p.rows|
  {
    var row := p.rows[i];
    var stream := if OnStream(outcome) then p.stream + [row.message] else p.stream;
    match outcome
    case Sent(now) => Progress(p.rows[i := Published(row, now)], stream, false)
    case XaddFailed(error) => Progress(p.rows[i := Failed(row, error)], stream, false)
    case SentUnmarked(error) => Progress(p.rows[i := Failed(row, error)], stream, false)
    case CountedTwice(now, error) => Progress(p.rows[i := Failed(Published(row, now), error)], stream, false)
    case Stopped(_) => Progress(p.rows, stream, true)
  }

  function Dispatch(p: Progress, claimed: seq<nat>, outcomes: seq<Outcome>): (q: Progress)
    requires Names(p.rows, claimed) && |outcomes| == |claimed|
    ensures |q.rows| == |p.rows|
    decreases |claimed|
  {
    if |claimed| == 0 then p
    else
      var next := DispatchRow(p, claimed[0], outcomes[0]);
      if next.stopped then next else Dispatch(next, claimed[1..], outcomes[1..])
  }

  class OutboxDispatcher {
    var rows: seq<OutboxRow>
    var stream: seq<Message>

    predicate IsOldestLeft(claimed: seq<nat>, locked: set<nat>, maxAttempts: nat, oldest: nat, n: nat)
      requires n <= |rows|
      reads this
    {
      && oldest < n && oldest !in claimed && Claimable(rows, oldest, locked, maxAttempts)
      && forall j :: 0 <= j < n && Claimable(rows, j, locked, maxAttempts) && j !in claimed ==> Older(rows, oldest, j)
    }

    /** The oldest claimable row that is not claimed yet. */
    method OldestLeft(claimed: seq<nat>, locked: set<nat>, maxAttempts: nat) returns (oldest: Option<nat>)
      requires Names(rows, claimed)
      ensures oldest.None? ==>
        forall j :: 0 <= j < |rows| && Claimable(rows, j, locked, maxAttempts) ==> j in claimed
      ensures oldest.Some? ==> IsOldestLeft(claimed, locked, maxAttempts, oldest.value, |rows|)
    {
      oldest := None;
      for i := 0 to |rows|
        invariant oldest.None? ==> forall j :: 0 <= j < i && Claimable(rows, j, locked, maxAttempts) ==> j in claimed
        invariant oldest.Some? ==> IsOldestLeft(claimed, locked, maxAttempts, oldest.value, i)
      {
        if Claimable(rows, i, locked, maxAttempts) && i !in claimed && (oldest.None? || !Older(rows, oldest.value, i)) {
          oldest := Some(i);
        }
      }
    }

    /** The claiming query: the oldest claimable rows, up to the batch size. */
    method ClaimRows(locked: set<nat>, batchSize: nat, maxAttempts: nat) returns (claimed: seq<nat>)
      ensures ClaimOk(rows, claimed, locked, batchSize, maxAttempts)
    {
      claimed := [];
      var more := true;
      while more && |claimed| < batchSize
        invariant Names(rows, claimed) && |claimed| <= batchSize
        invariant forall k :: 0 <= k < |claimed| ==> Claimable(rows, claimed[k], locked, maxAttempts)
        invariant forall k, l :: 0 <= k < l < |claimed| ==> Older(rows, claimed[k], claimed[l])
        invariant forall j :: 0 <= j < |rows| && Claimable(rows, j, locked, maxAttempts) && j !in claimed ==>
          forall k :: 0 <= k < |claimed| ==> Older(rows, claimed[k], j)
        invariant !more ==> forall j :: 0 <= j < |rows| && Claimable(rows, j, locked, maxAttempts) ==> j in claimed
        decreases more, batchSize - |claimed|
      {
        var oldest := OldestLeft(claimed, locked, maxAttempts);
        if oldest.None? {
          more := false;
        } else {
          claimed := claimed + [oldest.value];
        }
      }
    }

    /** One dispatch: claim a batch, then send and mark it row by row. */
    method DispatchOnce(locked: set<nat>, batchSize: nat, maxAttempts: nat, outcomes: seq<Outcome>)
      returns (claimed: seq<nat>)
      requires |outcomes| == batchSize
      modifies this
      ensures ClaimOk(old(rows), claimed, locked, batchSize, maxAttempts)
      ensures var p := Dispatch(Progress(old(rows), old(stream), false), claimed, outcomes[..|claimed|]);
        rows == p.rows && stream == p.stream
    {
      claimed := ClaimRows(locked, batchSize, maxAttempts);
      Publish(claimed, outcomes[..|claimed|]);
    }

    method Publish(claimed: seq<nat>, outcomes: seq<Outcome>)
      requires Names(rows, claimed) && |outcomes| == |claimed|
      modifies this
      ensures var p := Dispatch(Progress(old(rows), old(stream), false), claimed, outcomes);
        rows == p.rows && stream == p.stream
    {
      ghost var result := Dispatch(Progress(rows, stream, false), claimed, outcomes);
      var k := 0;
      while k < |claimed|
        invariant 0 <= k <= |claimed| && |rows| == |old(rows)|
        invariant Dispatch(Progress(rows, stream, false), claimed[k..], outcomes[k..]) == result
      {
        ghost var before := Progress(rows, stream, false);
        assert claimed[k..][1..] == claimed[k + 1..] && outcomes[k..][1..] == outcomes[k + 1..];
        var row, outcome := rows[claimed[k]], outcomes[k];
        if OnStream(outcome) {
          stream := stream + [row.message];
        }
        match outcome {
          case Sent(now) => rows := rows[claimed[k] := Published(row, now)];
          case XaddFailed(error) => rows := rows[claimed[k] := Failed(row, error)];
          case SentUnmarked(error) => rows := rows[claimed[k] := Failed(row, error)];
          case CountedTwice(now, error) => rows := rows[claimed[k] := Failed(Published(row, now), error)];
          case Stopped(_) => return;
        }
        assert Progress(rows, stream, false) == DispatchRow(before, claimed[k], outcome);
        k := k + 1;
      }
    }
  }

  /** The messages that reach the stream, in claim order. */
  function Sends(rows: seq<OutboxRow>, claimed: seq<nat>, outcomes: seq<Outcome>): (sends: seq<Message>)
    requires Names(rows, claimed) && |outcomes| == |claimed|
  {
    if |claimed| == 0 then []
    else
      (if OnStream(outcomes[0]) then [rows[claimed[0]].message] else [])
      + if outcomes[0].Stopped? then [] else Sends(rows, claimed[1..], outcomes[1..])
  }

  // --- stream entries as field lists

  const FIELD_EVENT_ID := "eventId"
  const FIELD_EVENT_TYPE := "eventType"
  const FIELD_TENANT_ID := "tenantId"
  const FIELD_AGGREGATE_ID := "aggregateId"
  const FIELD_OCCURRED_AT := "occurredAt"
  const FIELD_PAYLOAD := "payload"

  /**
   The reader takes fields and values in turn; a later value of a field replaces an earlier one, and a
   field without a value is empty.
   */
  function ValuesOf(pairs: seq<string>): (values: map<string, string>)
  {
    var n := |pairs|;
    if n == 0 then map[]
    else if n % 2 == 1 then ValuesOf(pairs[..n - 1])[pairs[n - 1] := ""]
    else ValuesOf(pairs[..n - 2])[pairs[n - 2] := pairs[n - 1]]
  }

  method ReadPairs(pairs: seq<string>) returns (values: map<string, string>)
    ensures values == ValuesOf(pairs)
  {
    values := map[];
    var i := 0;
    while i < |pairs|
      invariant 0 <= i <= |pairs| + 1 && i % 2 == 0
      invariant values == ValuesOf(if i <= |pairs| then pairs[..i] else pairs)
    {
      var next := if i + 2 <= |pairs| then i + 2 else |pairs|;
      assert pairs[..next][..i] == pairs[..i];
      values := values[pairs[i] := if i + 1 < |pairs| then pairs[i + 1] else ""];
      i := i + 2;
      assert i > |pairs| ==> pairs[..next] == pairs;
    }
    assert pairs[..|pairs|] == pairs;
  }

  // --- the read model

  datatype ReadRow = ReadRow(tenantId: string, status: string, createdAt: int, updatedAt: int, details: Option<Details>)

  const SUBMITTED_EVENT := "loan_application.submitted"
  const TRANSITIONED_EVENT := "loan_application.status_transitioned"
  const DISBURSED_EVENT := "disbursement.completed"
  const REPAID_EVENT := "repayment.posted"

  type ReadModel = map<string, ReadRow>

  /** insert if absent, otherwise only the status and the time */
  function Upsert(model: ReadModel, id: string, created: ReadRow): ReadModel
  {
    if id in model then model[id := model[id].(status := created.status, updatedAt := created.updatedAt)]
    else model[id := created]
  }

  function GetOr(value: Option<string>, fallback: string): string
  {
    if value.Some? then value.value else fallback
  }

  function Apply(model: ReadModel, m: Message, now: int): ReadModel
  {
    if m.eventType == SUBMITTED_EVENT then
      Upsert(model, m.aggregateId, ReadRow(m.tenantId, GetOr(m.payload.status, "SUBMITTED"), now, now,
        Some(m.payload.details)))
    else if m.eventType == TRANSITIONED_EVENT then
      Upsert(model, m.aggregateId, ReadRow(m.tenantId, GetOr(m.payload.to, "UNKNOWN"), now, now, None))
    else if m.eventType == DISBURSED_EVENT || m.eventType == REPAID_EVENT then
      if m.aggregateId in model && model[m.aggregateId].tenantId == m.tenantId
      then model[m.aggregateId := model[m.aggregateId].(updatedAt := now)]
      else model
    else model
  }

  predicate Usable(m: Message)
  {
    m.eventId != "" && m.eventType != "" && m.tenantId != "" && m.aggregateId != ""
  }

  datatype Consumed = Consumed(processed: set<string>, model: ReadModel)

  /** The transaction: the event's effect and the processed mark together, or neither. */
  function Commit(c: Consumed, m: Message, now: int): Consumed
  {
    if m.eventId in c.processed then c else Consumed(c.processed + {m.eventId}, Apply(c.model, m, now))
  }

  function Handle(c: Consumed, m: Message, now: int): Consumed
  {
    if !Usable(m) then c else Commit(c, m, now)
  }

  class ReadModelConsumer {
    var processed: set<string>
    var model: ReadModel
    var acked: set<string>
    var checkpoint: Option<string>

    function View(): Consumed
      reads this
    {
      Consumed(processed, model)
    }

    method HandleMessage(m: Message, now: int)
      modifies this`processed, this`model
      ensures View() == Handle(old(View()), m, now)
    {
      if m.eventId == "" || m.eventType == "" || m.tenantId == "" || m.aggregateId == "" {
        return;
      }
      if m.eventId in processed {
        return;
      }
      if m.eventType == SUBMITTED_EVENT {
        var status := if m.payload.status.Some? then m.payload.status.value else "SUBMITTED";
        if m.aggregateId in model {
          model := model[m.aggregateId := model[m.aggregateId].(status := status, updatedAt := now)];
        } else {
          model := model[m.aggregateId := ReadRow(m.tenantId, status, now, now, Some(m.payload.details))];
        }
      } else if m.eventType == TRANSITIONED_EVENT {
        var status := if m.payload.to.Some? then m.payload.to.value else "UNKNOWN";
        if m.aggregateId in model {
          model := model[m.aggregateId := model[m.aggregateId].(status := status, updatedAt := now)];
        } else {
          model := model[m.aggregateId := ReadRow(m.tenantId, status, now, now, None)];
        }
      } else if m.eventType == DISBURSED_EVENT || m.eventType == REPAID_EVENT {
        if m.aggregateId in model && model[m.aggregateId].tenantId == m.tenantId {
          model := model[m.aggregateId := model[m.aggregateId].(updatedAt := now)];
        }
      }
      processed := processed + {m.eventId};
    }

    /** A handler or an acknowledgement that fails keeps the message pending; so does nothing after them. */
    method ProcessMessage(
      messageId: string, m: Message, now: int, handlerFails: bool, ackFails: bool, checkpointFails: bool)
      modifies this
      ensures View() == if handlerFails then old(View()) else Handle(old(View()), m, now)
      ensures acked == if handlerFails || ackFails then old(acked) else old(acked) + {messageId}
      ensures checkpoint == if handlerFails || ackFails || checkpointFails then old(checkpoint) else Some(messageId)
    {
      if handlerFails {
        return;
      }
      HandleMessage(m, now);
      if ackFails {
        return;
      }
      acked := acked + {messageId};
      if checkpointFails {
        return;
      }
      checkpoint := Some(messageId);
    }
  }
}
