/**
 What one dispatch does to its batch, that it is a run of the protocol's steps, and that the consumer
 reads the fields the dispatcher sent.
 */
module OutboxDispatch {
  import opened Wrappers
  import opened Outbox
  import opened OutboxProtocol

  // --- one dispatch

  lemma TailNames(rows: seq<OutboxRow>, claimed: seq<nat>)
    requires Names(rows, claimed) && |claimed| > 0
    ensures Names(rows, claimed[1..]) && claimed[0] !in claimed[1..]
  {
  }

  predicate Stops(outcomes: seq<Outcome>)
  {
    exists k :: 0 <= k < |outcomes| && outcomes[k].Stopped?
  }

  /** Every row of the batch counts its attempt, and exactly the sent and marked ones are published. */
  predicate RowAfter(before: OutboxRow, after: OutboxRow, outcome: Outcome)
  {
    && after.message == before.message
    && after.publishAttempts == before.publishAttempts + (if outcome.CountedTwice? then 2 else 1)
    && after.publishedAt
         == (if outcome.Sent? || outcome.CountedTwice? then Some(outcome.now) else before.publishedAt)
    && (outcome.Sent? ==> after.lastPublishError.None?)
    && (!outcome.Sent? && !outcome.Stopped? ==>
          after.lastPublishError == Some(if |outcome.error| <= 1000 then outcome.error else outcome.error[..1000]))
  }

  /**
   A dispatch sends the messages of its batch in claim order and touches no other row; if nothing stops
   it, every row of the batch is accounted for.
   */
  lemma {:induction false} DispatchCoversBatch(p: Progress, claimed: seq<nat>, outcomes: seq<Outcome>)
    requires Names(p.rows, claimed) && |outcomes| == |claimed| && !p.stopped
    ensures var q := Dispatch(p, claimed, outcomes);
      && q.stream == p.stream + Sends(p.rows, claimed, outcomes)
      && (q.stopped <==> Stops(outcomes))
      && (forall j :: 0 <= j < |p.rows| && j !in claimed ==> q.rows[j] == p.rows[j])
      && (!q.stopped ==>
            forall k :: 0 <= k < |claimed| ==> RowAfter(p.rows[claimed[k]], q.rows[claimed[k]], outcomes[k]))
    decreases |claimed|
  {
    if |claimed| > 0 {
      var next := DispatchRow(p, claimed[0], outcomes[0]);
      TailNames(p.rows, claimed);
      if !next.stopped {
        var q := Dispatch(next, claimed[1..], outcomes[1..]);
        DispatchCoversBatch(next, claimed[1..], outcomes[1..]);
        SendsLocal(p.rows, next.rows, claimed[1..], outcomes[1..]);
        StopsTail(outcomes);
        forall k | !q.stopped && 0 <= k < |claimed|
          ensures RowAfter(p.rows[claimed[k]], q.rows[claimed[k]], outcomes[k]) {
          if k > 0 {
            assert claimed[k] == claimed[1..][k - 1] && outcomes[k] == outcomes[1..][k - 1];
          }
        }
      } else {
        assert outcomes[0].Stopped?;
      }
    }
  }

  lemma StopsTail(outcomes: seq<Outcome>)
    requires |outcomes| > 0
    ensures Stops(outcomes) <==> outcomes[0].Stopped? || Stops(outcomes[1..])
  {
  }

  lemma {:induction false} SendsLocal(a: seq<OutboxRow>, b: seq<OutboxRow>, claimed: seq<nat>, outcomes: seq<Outcome>)
    requires |a| == |b| && Names(a, claimed) && |outcomes| == |claimed|
    requires forall k :: 0 <= k < |claimed| ==> a[claimed[k]].message == b[claimed[k]].message
    ensures Sends(a, claimed, outcomes) == Sends(b, claimed, outcomes)
  {
    if |claimed| > 0 {
      SendsLocal(a, b, claimed[1..], outcomes[1..]);
    }
  }

  // --- handling a message is a run of protocol steps

  /** A consumer that is free and handles a message of the stream does what delivering and committing it does. */
  lemma HandlingIsARun(maxAttempts: nat, w: World, c: nat, position: nat, now: int)
    requires c !in w.handling && position < |w.stream|
    ensures Next(maxAttempts, Next(maxAttempts, w, Deliver(c, position)), CommitTry(c, now)).consumed
         == Handle(w.consumed, w.stream[position], now)
  {
  }

  // --- a dispatch is a run of protocol steps

  function StepsOf(d: nat, outcome: Outcome): seq<Step>
  {
    match outcome
    case Sent(now) => [Send(d), Mark(d, now)]
    case XaddFailed(error) => [SendFails(d, error)]
    case SentUnmarked(error) => [Send(d), MarkFails(d, error)]
    case CountedTwice(now, error) => [Send(d), MarkTwice(d, now, error)]
    case Stopped(sent) => if sent then [Send(d), Crash(d)] else [Crash(d)]
  }

  function BatchSteps(d: nat, outcomes: seq<Outcome>): seq<Step>
  {
    if |outcomes| == 0 then []
    else StepsOf(d, outcomes[0]) + if outcomes[0].Stopped? then [] else BatchSteps(d, outcomes[1..])
  }

  ghost function RunFrom(maxAttempts: nat, w: World, steps: seq<Step>): World
    decreases |steps|
  {
    if |steps| == 0 then w else RunFrom(maxAttempts, Next(maxAttempts, w, steps[0]), steps[1..])
  }

  lemma {:induction false} RunFromAppend(maxAttempts: nat, w: World, a: seq<Step>, b: seq<Step>)
    ensures RunFrom(maxAttempts, w, a + b) == RunFrom(maxAttempts, RunFrom(maxAttempts, w, a), b)
    decreases |a|
  {
    if |a| == 0 {
      assert a + b == b;
    } else {
      assert (a + b)[1..] == a[1..] + b;
      RunFromAppend(maxAttempts, Next(maxAttempts, w, a[0]), a[1..], b);
    }
  }

  lemma OneStep(maxAttempts: nat, w: World, s: Step)
    ensures RunFrom(maxAttempts, w, [s]) == Next(maxAttempts, w, s)
  {
  }

  lemma TwoSteps(maxAttempts: nat, w: World, s: Step, t: Step)
    ensures RunFrom(maxAttempts, w, [s, t]) == Next(maxAttempts, Next(maxAttempts, w, s), t)
  {
    assert [s, t][1..] == [t];
    OneStep(maxAttempts, Next(maxAttempts, w, s), t);
  }

  /** The world after a row's outcome. */
  function After(w: World, d: nat, q: Progress, rest: seq<nat>): World
  {
    w.(rows := q.rows, stream := q.stream,
       sending := if q.stopped || rest == [] then w.sending - {d} else w.sending[d := Sending(rest, false)])
  }

  lemma RowIsSteps(maxAttempts: nat, w: World, d: nat, outcome: Outcome)
    requires AtWork(w, d) && !w.sending[d].sent
    ensures var queue := w.sending[d].queue;
      RunFrom(maxAttempts, w, StepsOf(d, outcome))
      == After(w, d, DispatchRow(Progress(w.rows, w.stream, false), queue[0], outcome), queue[1..])
  {
    var queue := w.sending[d].queue;
    var sent := SendHead(w, d);
    assert sent.sending - {d} == w.sending - {d};
    assert sent.sending[d := Sending(queue[1..], false)] == w.sending[d := Sending(queue[1..], false)];
    match outcome
    case Sent(now) => TwoSteps(maxAttempts, w, Send(d), Mark(d, now));
    case XaddFailed(error) => OneStep(maxAttempts, w, SendFails(d, error));
    case SentUnmarked(error) => TwoSteps(maxAttempts, w, Send(d), MarkFails(d, error));
    case CountedTwice(now, error) => TwoSteps(maxAttempts, w, Send(d), MarkTwice(d, now, error));
    case Stopped(s) =>
      if s {
        TwoSteps(maxAttempts, w, Send(d), Crash(d));
      } else {
        OneStep(maxAttempts, w, Crash(d));
      }
  }

  /** A whole dispatch of a claimed batch is a run of the protocol, so what holds of all runs holds of it. */
  lemma {:induction false} DispatchIsARun(maxAttempts: nat, w: World, d: nat, claimed: seq<nat>, outcomes: seq<Outcome>)
    requires Names(w.rows, claimed) && |outcomes| == |claimed| && |claimed| > 0
    requires d in w.sending && w.sending[d] == Sending(claimed, false)
    ensures RunFrom(maxAttempts, w, BatchSteps(d, outcomes))
         == After(w, d, Dispatch(Progress(w.rows, w.stream, false), claimed, outcomes), [])
    decreases |claimed|
  {
    var p := Progress(w.rows, w.stream, false);
    var next := DispatchRow(p, claimed[0], outcomes[0]);
    var rest := claimed[1..];
    var later := if outcomes[0].Stopped? then [] else BatchSteps(d, outcomes[1..]);
    RunFromAppend(maxAttempts, w, StepsOf(d, outcomes[0]), later);
    RowIsSteps(maxAttempts, w, d, outcomes[0]);
    var v := After(w, d, next, rest);
    if !next.stopped && rest != [] {
      TailNames(w.rows, claimed);
      DispatchIsARun(maxAttempts, v, d, rest, outcomes[1..]);
      assert v.sending - {d} == w.sending - {d};
    } else {
      assert later == [];
    }
  }

  // --- stream fields

  const FIELDS: seq<string> :=
    [FIELD_EVENT_ID, FIELD_EVENT_TYPE, "eventVersion", FIELD_TENANT_ID, "aggregateType", FIELD_AGGREGATE_ID,
     FIELD_OCCURRED_AT, FIELD_PAYLOAD, "traceId", "correlationId", "causationId"]

  lemma FieldsDiffer(j: nat, l: nat)
    requires j < l < |FIELDS|
    ensures FIELDS[j] != FIELDS[l]
  {
  }

  function Interleave(names: seq<string>, values: seq<string>): (pairs: seq<string>)
    requires |names| == |values|
    ensures |pairs| == 2 * |names|
    ensures forall k :: 0 <= k < |names| ==> pairs[2 * k] == names[k] && pairs[2 * k + 1] == values[k]
  {
    if |names| == 0 then []
    else
      var n := |names| - 1;
      Interleave(names[..n], values[..n]) + [names[n], values[n]]
  }

  /** JSON.stringify and toISOString on one side, and what reads them on the other. */
  datatype Codec = Codec(
    encode: Payload -> string, decode: string -> Payload, encodeTime: int -> string, decodeTime: string -> int)

  datatype Tracing = Tracing(aggregateType: string, traceId: string, correlationId: string, causationId: string)

  /** The arguments of xadd after the stream's name and the entry's id. */
  function Pairs(m: Message, codec: Codec, t: Tracing): (pairs: seq<string>)
    ensures |pairs| == 2 * |FIELDS|
  {
    Interleave(FIELDS,
      [m.eventId, m.eventType, "1", m.tenantId, t.aggregateType, m.aggregateId, codec.encodeTime(m.occurredAt),
       codec.encode(m.payload), t.traceId, t.correlationId, t.causationId])
  }

  /** The last field with its value replaces an earlier value of it. */
  lemma LastPairWins(pairs: seq<string>)
    requires |pairs| >= 2 && |pairs| % 2 == 0
    ensures var n := |pairs|;
      ValuesOf(pairs) == ValuesOf(pairs[..n - 2])[pairs[n - 2] := pairs[n - 1]]
  {
  }

  /** A last field without a value is empty. */
  lemma LoneFieldIsEmpty(pairs: seq<string>)
    requires |pairs| % 2 == 1
    ensures ValuesOf(pairs) == ValuesOf(pairs[..|pairs| - 1])[pairs[|pairs| - 1] := ""]
  {
  }

  /** The names and values as they stand on the stream, in this order. */
  lemma PairsRead(m: Message, codec: Codec, t: Tracing)
    ensures var pairs := Pairs(m, codec, t);
      var names := ["eventId", "eventType", "eventVersion", "tenantId", "aggregateType", "aggregateId", "occurredAt",
        "payload", "traceId", "correlationId", "causationId"];
      var values := [m.eventId, m.eventType, "1", m.tenantId, t.aggregateType, m.aggregateId,
        codec.encodeTime(m.occurredAt), codec.encode(m.payload), t.traceId, t.correlationId, t.causationId];
      |pairs| == 22 && forall k :: 0 <= k < |names| ==> pairs[2 * k] == names[k] && pairs[2 * k + 1] == values[k]
  {
  }

  function FieldOf(values: map<string, string>, field: string): string
  {
    if field in values then values[field] else ""
  }

  /** What the consumer makes of an entry. The time of occurrence is there, but nothing looks at it. */
  function MessageOf(values: map<string, string>, codec: Codec): Message
  {
    Message(FieldOf(values, FIELD_EVENT_ID), FieldOf(values, FIELD_EVENT_TYPE), FieldOf(values, FIELD_TENANT_ID),
            FieldOf(values, FIELD_AGGREGATE_ID), codec.decodeTime(FieldOf(values, FIELD_OCCURRED_AT)),
            codec.decode(FieldOf(values, FIELD_PAYLOAD)))
  }

  /** Every field has its own value, as no name comes twice. */
  lemma {:induction false} FieldComesBack(names: seq<string>, values: seq<string>, j: nat)
    requires |names| == |values| && j < |names|
    requires forall k, l :: 0 <= k < l < |names| ==> names[k] != names[l]
    ensures FieldOf(ValuesOf(Interleave(names, values)), names[j]) == values[j]
  {
    var n := |names| - 1;
    var pairs := Interleave(names, values);
    assert pairs[..|pairs| - 2] == Interleave(names[..n], values[..n]);
    if j < n {
      FieldComesBack(names[..n], values[..n], j);
    }
  }

  /** The consumer reads the message the dispatcher sent, if decoding undoes encoding on its payload and time. */
  lemma SentMessageComesBack(m: Message, codec: Codec, t: Tracing)
    requires codec.decode(codec.encode(m.payload)) == m.payload
    requires codec.decodeTime(codec.encodeTime(m.occurredAt)) == m.occurredAt
    ensures MessageOf(ValuesOf(Pairs(m, codec, t)), codec) == m
  {
    var values := [m.eventId, m.eventType, "1", m.tenantId, t.aggregateType, m.aggregateId,
      codec.encodeTime(m.occurredAt), codec.encode(m.payload), t.traceId, t.correlationId, t.causationId];
    forall k, l | 0 <= k < l < |FIELDS| ensures FIELDS[k] != FIELDS[l] {
      FieldsDiffer(k, l);
    }
    FieldComesBack(FIELDS, values, 0);
    FieldComesBack(FIELDS, values, 1);
    FieldComesBack(FIELDS, values, 3);
    FieldComesBack(FIELDS, values, 5);
    FieldComesBack(FIELDS, values, 6);
    FieldComesBack(FIELDS, values, 7);
  }
}
