/**
 Any number of dispatchers and consumers at once. Row locks end with the claim, before anything is sent; any of
 them may crash in between; and marks are looked up before the transaction.
 */
module OutboxProtocol {
  import opened Wrappers
  import opened Outbox

  /** A dispatcher at work: the claimed rows it has left, and whether the first of them is already sent. */
  datatype Sending = Sending(queue: seq<nat>, sent: bool)

  /** One transaction of the consumer that got as far as its insert. */
  datatype Try = Try(message: Message, now: int)

  datatype World = World(
    rows: seq<OutboxRow>,
    stream: seq<Message>,
    sending: map<nat, Sending>,
    handling: map<nat, Message>,
    consumed: Consumed,
    tries: seq<Try>)

  datatype Step =
    | Insert(message: Message)
    | Claim(d: nat, claimed: seq<nat>, locked: set<nat>, batchSize: nat)
    | Send(d: nat)
    | SendFails(d: nat, error: string)
    | Mark(d: nat, now: int)
    | MarkFails(d: nat, error: string)
    | MarkTwice(d: nat, now: int, error: string)
    | Crash(d: nat)
    | Deliver(c: nat, position: nat)
    | CommitTry(c: nat, now: int)
    | Abort(c: nat)

  predicate HasEvent(rows: seq<OutboxRow>, eventId: string)
  {
    exists i :: 0 <= i < |rows| && rows[i].message.eventId == eventId
  }

  function Popped(sending: map<nat, Sending>, d: nat): map<nat, Sending>
    requires d in sending && |sending[d].queue| > 0
  {
    var rest := sending[d].queue[1..];
    if rest == [] then sending - {d} else sending[d := Sending(rest, false)]
  }

  predicate AtWork(w: World, d: nat)
  {
    d in w.sending && |w.sending[d].queue| > 0 && w.sending[d].queue[0] < |w.rows|
  }

  function SendHead(w: World, d: nat): World
    requires AtWork(w, d)
  {
    var queue := w.sending[d].queue;
    w.(stream := w.stream + [w.rows[queue[0]].message], sending := w.sending[d := Sending(queue, true)])
  }

  function UpdateHead(w: World, d: nat, row: OutboxRow): World
    requires AtWork(w, d)
  {
    w.(rows := w.rows[w.sending[d].queue[0] := row], sending := Popped(w.sending, d))
  }

  function Head(w: World, d: nat): OutboxRow
    requires AtWork(w, d)
  {
    w.rows[w.sending[d].queue[0]]
  }

  function Inserted(w: World, message: Message): World
  {
    w.(rows := w.rows + [NewRow(message)])
  }

  /** Steps that cannot be taken in a world leave it as it is. */
  ghost function Next(maxAttempts: nat, w: World, step: Step): World
  {
    match step
    case Insert(message) => if HasEvent(w.rows, message.eventId) then w else Inserted(w, message)
    case Claim(d, claimed, locked, batchSize) =>
      if d in w.sending || claimed == [] || !ClaimOk(w.rows, claimed, locked, batchSize, maxAttempts) then w
      else w.(sending := w.sending[d := Sending(claimed, false)])
    case Send(d) => if AtWork(w, d) && !w.sending[d].sent then SendHead(w, d) else w
    case SendFails(d, error) =>
      if AtWork(w, d) && !w.sending[d].sent then UpdateHead(w, d, Failed(Head(w, d), error)) else w
    case Mark(d, now) => if AtWork(w, d) && w.sending[d].sent then UpdateHead(w, d, Published(Head(w, d), now)) else w
    case MarkFails(d, error) =>
      if AtWork(w, d) && w.sending[d].sent then UpdateHead(w, d, Failed(Head(w, d), error)) else w
    case MarkTwice(d, now, error) =>
      if AtWork(w, d) && w.sending[d].sent then UpdateHead(w, d, Failed(Published(Head(w, d), now), error)) else w
    case Crash(d) => w.(sending := w.sending - {d})
    case Deliver(c, position) =>
      if c in w.handling || position >= |w.stream| || !Usable(w.stream[position])
         || w.stream[position].eventId in w.consumed.processed
      then w
      else w.(handling := w.handling[c := w.stream[position]])
    case CommitTry(c, now) =>
      if c !in w.handling then w
      else
        var m := w.handling[c];
        w.(consumed := Commit(w.consumed, m, now), tries := w.tries + [Try(m, now)], handling := w.handling - {c})
    case Abort(c) => w.(handling := w.handling - {c})
  }

  const INITIAL: World := World([], [], map[], map[], Consumed({}, map[]), [])

  ghost function Run(maxAttempts: nat, steps: seq<Step>): World
  {
    if |steps| == 0 then INITIAL
    else Next(maxAttempts, Run(maxAttempts, steps[..|steps| - 1]), steps[|steps| - 1])
  }

  // --- single delivery

  predicate Seen(tries: seq<Try>, eventId: string)
  {
    exists i :: 0 <= i < |tries| && tries[i].message.eventId == eventId
  }

  /** The tries with every repeat of an event removed. */
  function FirstOfEach(tries: seq<Try>): (firsts: seq<Try>)
  {
    if |tries| == 0 then []
    else
      var init, last := tries[..|tries| - 1], tries[|tries| - 1];
      FirstOfEach(init) + if Seen(init, last.message.eventId) then [] else [last]
  }

  /** The read model if each event were delivered once, in this order. */
  function ApplyAll(events: seq<Try>): ReadModel
  {
    if |events| == 0 then map[]
    else
      var last := events[|events| - 1];
      Apply(ApplyAll(events[..|events| - 1]), last.message, last.now)
  }

  lemma {:induction false} FirstsAreTheEvents(tries: seq<Try>)
    ensures forall i, j :: 0 <= i < j < |FirstOfEach(tries)| ==>
      FirstOfEach(tries)[i].message.eventId != FirstOfEach(tries)[j].message.eventId
    ensures forall t :: t in FirstOfEach(tries) ==> t in tries
    ensures forall id :: Seen(tries, id) <==> Seen(FirstOfEach(tries), id)
  {
    if |tries| > 0 {
      var init, last := tries[..|tries| - 1], tries[|tries| - 1];
      FirstsAreTheEvents(init);
      forall id ensures Seen(tries, id) <==> Seen(FirstOfEach(tries), id) {
        SeenSnoc(init, last, id);
        SeenSnoc(FirstOfEach(init), last, id);
        assert tries == init + [last];
        assert FirstOfEach(init) + [] == FirstOfEach(init);
      }
      forall i | 0 <= i < |FirstOfEach(init)|
        ensures !Seen(init, last.message.eventId) ==> FirstOfEach(init)[i].message.eventId != last.message.eventId
      {
        if !Seen(init, last.message.eventId) {
          assert !Seen(FirstOfEach(init), last.message.eventId);
        }
      }
    }
  }

  lemma SeenSnoc(tries: seq<Try>, t: Try, id: string)
    ensures Seen(tries + [t], id) <==> Seen(tries, id) || t.message.eventId == id
  {
    var more := tries + [t];
    assert more[|tries|] == t;
    if Seen(tries, id) {
      var i :| 0 <= i < |tries| && tries[i].message.eventId == id;
      assert more[i].message.eventId == id;
    }
  }

  // --- the publishing side

  ghost predicate SendingOk(w: World, d: nat)
    requires d in w.sending
  {
    var s := w.sending[d];
    && |s.queue| > 0
    && Names(w.rows, s.queue)
    && (s.sent ==> w.rows[s.queue[0]].message in w.stream)
  }

  ghost predicate FromRow(rows: seq<OutboxRow>, m: Message)
  {
    exists i :: 0 <= i < |rows| && rows[i].message == m
  }

  ghost predicate PublishOk(w: World)
  {
    && (forall i, j :: 0 <= i < j < |w.rows| ==> w.rows[i].message.eventId != w.rows[j].message.eventId)
    && (forall i :: 0 <= i < |w.rows| && w.rows[i].publishedAt.Some? ==> w.rows[i].message in w.stream)
    && (forall m :: m in w.stream ==> FromRow(w.rows, m))
    && (forall d :: d in w.sending ==> SendingOk(w, d))
  }

  /** Rows keep their content and their mark, entries stay on the stream, and attempts only count up. */
  ghost predicate Forward(w: World, v: World)
  {
    && |w.rows| <= |v.rows|
    && (forall i :: 0 <= i < |w.rows| ==>
          && v.rows[i].message == w.rows[i].message
          && (w.rows[i].publishedAt.Some? ==> v.rows[i].publishedAt.Some?)
          && w.rows[i].publishAttempts <= v.rows[i].publishAttempts)
    && w.stream <= v.stream
    && w.consumed.processed <= v.consumed.processed
  }

  lemma NextIsForward(maxAttempts: nat, w: World, step: Step)
    ensures Forward(w, Next(maxAttempts, w, step))
  {
  }

  lemma FromRowLater(w: World, v: World, m: Message)
    requires Forward(w, v) && FromRow(w.rows, m)
    ensures FromRow(v.rows, m)
  {
  }

  lemma SendingLater(w: World, v: World, d: nat)
    requires Forward(w, v) && d in w.sending && SendingOk(w, d)
    requires d in v.sending && v.sending[d] == w.sending[d]
    ensures SendingOk(v, d)
  {
  }

  lemma InsertKeepsPublishOk(w: World, message: Message)
    requires PublishOk(w) && !HasEvent(w.rows, message.eventId)
    ensures PublishOk(Inserted(w, message))
  {
    var v := Inserted(w, message);
    forall m | m in v.stream ensures FromRow(v.rows, m) {
      FromRowLater(w, v, m);
    }
    forall d | d in v.sending ensures SendingOk(v, d) {
      SendingLater(w, v, d);
    }
  }

  lemma SendKeepsPublishOk(w: World, d: nat)
    requires PublishOk(w) && AtWork(w, d)
    ensures PublishOk(SendHead(w, d))
  {
  }

  lemma UpdateKeepsPublishOk(w: World, d: nat, row: OutboxRow)
    requires PublishOk(w) && AtWork(w, d)
    requires row.message == Head(w, d).message
    requires row.publishedAt.Some? ==> Head(w, d).publishedAt.Some? || w.sending[d].sent
    ensures PublishOk(UpdateHead(w, d, row))
  {
    var v := UpdateHead(w, d, row);
    assert SendingOk(w, d);
    forall m | m in v.stream ensures FromRow(v.rows, m) {
      var i :| 0 <= i < |w.rows| && w.rows[i].message == m;
      assert v.rows[i].message == m;
    }
    forall e | e in v.sending ensures SendingOk(v, e) {
      assert SendingOk(w, e);
      var queue := v.sending[e].queue;
      if e == d {
        assert queue == w.sending[d].queue[1..];
      }
    }
  }

  lemma NextKeepsPublishOk(maxAttempts: nat, w: World, step: Step)
    requires PublishOk(w)
    ensures PublishOk(Next(maxAttempts, w, step))
  {
    if Next(maxAttempts, w, step) != w {
      match step
      case Insert(message) => InsertKeepsPublishOk(w, message);
      case Claim(d, claimed, locked, batchSize) => OthersStay(w, Next(maxAttempts, w, step), {d});
      case Send(d) => SendKeepsPublishOk(w, d);
      case SendFails(d, error) => UpdateKeepsPublishOk(w, d, Failed(Head(w, d), error));
      case Mark(d, now) => UpdateKeepsPublishOk(w, d, Published(Head(w, d), now));
      case MarkFails(d, error) => UpdateKeepsPublishOk(w, d, Failed(Head(w, d), error));
      case MarkTwice(d, now, error) => UpdateKeepsPublishOk(w, d, Failed(Published(Head(w, d), now), error));
      case _ => OthersStay(w, Next(maxAttempts, w, step), {});
    }
  }

  lemma OthersStay(w: World, v: World, changed: set<nat>)
    requires PublishOk(w) && v.rows == w.rows && v.stream == w.stream
    requires forall d :: d in v.sending && d !in changed ==> d in w.sending && v.sending[d] == w.sending[d]
    requires forall d :: d in v.sending && d in changed ==> SendingOk(v, d)
    ensures PublishOk(v)
  {
  }

  // --- the consuming side

  ghost predicate ConsumeOk(w: World)
  {
    && (forall c :: c in w.handling ==> w.handling[c] in w.stream && Usable(w.handling[c]))
    && (forall t :: t in w.tries ==> t.message in w.stream && Usable(t.message))
    && (forall id :: id in w.consumed.processed <==> Seen(w.tries, id))
    && w.consumed.model == ApplyAll(FirstOfEach(w.tries))
  }

  lemma CommitKeepsConsumeOk(w: World, c: nat, now: int)
    requires ConsumeOk(w) && c in w.handling
    ensures var m := w.handling[c];
      ConsumeOk(w.(
        consumed := Commit(w.consumed, m, now), tries := w.tries + [Try(m, now)], handling := w.handling - {c}))
  {
    var m := w.handling[c];
    var t := Try(m, now);
    var tries := w.tries + [t];
    assert tries[..|w.tries|] == w.tries;
    forall id ensures id in Commit(w.consumed, m, now).processed <==> Seen(tries, id) {
      SeenSnoc(w.tries, t, id);
    }
    var firsts := FirstOfEach(w.tries);
    if Seen(w.tries, m.eventId) {
      assert firsts + [] == firsts;
    } else {
      assert (firsts + [t])[..|firsts|] == firsts;
    }
  }

  /** A step that is not a commit leaves the consumer alone, but for a message it may start to handle. */
  lemma OtherStepsDoNotConsume(maxAttempts: nat, w: World, step: Step)
    requires !(step.CommitTry? && step.c in w.handling)
    ensures var v := Next(maxAttempts, w, step);
      && v.consumed == w.consumed && v.tries == w.tries && w.stream <= v.stream
      && forall c :: c in v.handling ==>
           (c in w.handling && v.handling[c] == w.handling[c]) || (v.handling[c] in w.stream && Usable(v.handling[c]))
  {
  }

  lemma NextKeepsConsumeOk(maxAttempts: nat, w: World, step: Step)
    requires ConsumeOk(w)
    ensures ConsumeOk(Next(maxAttempts, w, step))
  {
    if step.CommitTry? && step.c in w.handling {
      CommitKeepsConsumeOk(w, step.c, step.now);
    } else {
      OtherStepsDoNotConsume(maxAttempts, w, step);
      UntriedKeepsConsumeOk(w, Next(maxAttempts, w, step));
    }
  }

  lemma UntriedKeepsConsumeOk(w: World, v: World)
    requires ConsumeOk(w) && v.consumed == w.consumed && v.tries == w.tries && w.stream <= v.stream
    requires forall c :: c in v.handling ==>
      (c in w.handling && v.handling[c] == w.handling[c]) || (v.handling[c] in w.stream && Usable(v.handling[c]))
    ensures ConsumeOk(v)
  {
  }

  // --- every run

  lemma {:induction false} EveryRunIsOk(maxAttempts: nat, steps: seq<Step>)
    ensures PublishOk(Run(maxAttempts, steps)) && ConsumeOk(Run(maxAttempts, steps))
  {
    if |steps| > 0 {
      var before := Run(maxAttempts, steps[..|steps| - 1]);
      EveryRunIsOk(maxAttempts, steps[..|steps| - 1]);
      NextKeepsPublishOk(maxAttempts, before, steps[|steps| - 1]);
      NextKeepsConsumeOk(maxAttempts, before, steps[|steps| - 1]);
    }
  }

  /** A row marked published is on the stream, whatever failed, crashed or was sent twice. */
  lemma PublishedIsOnStream(maxAttempts: nat, steps: seq<Step>, i: nat)
    requires var rows := Run(maxAttempts, steps).rows; i < |rows| && rows[i].publishedAt.Some?
    ensures var w := Run(maxAttempts, steps); w.rows[i].message in w.stream
  {
    EveryRunIsOk(maxAttempts, steps);
  }

  /** As a run goes on no mark is taken back, no row changes its content and nothing leaves the stream. */
  lemma {:induction false} RunsGoForward(maxAttempts: nat, steps: seq<Step>, n: nat)
    requires n <= |steps|
    ensures Forward(Run(maxAttempts, steps[..n]), Run(maxAttempts, steps))
  {
    if n == |steps| {
      assert steps[..n] == steps;
    } else {
      var init := steps[..|steps| - 1];
      assert init[..n] == steps[..n];
      RunsGoForward(maxAttempts, init, n);
      NextIsForward(maxAttempts, Run(maxAttempts, init), steps[|steps| - 1]);
      ForwardTwice(Run(maxAttempts, steps[..n]), Run(maxAttempts, init), Run(maxAttempts, steps));
    }
  }

  lemma ForwardTwice(u: World, v: World, w: World)
    requires Forward(u, v) && Forward(v, w)
    ensures Forward(u, w)
  {
  }

  /** Copies of an event on the stream are the same message: they are sent from one row. */
  lemma CopiesAreIdentical(maxAttempts: nat, steps: seq<Step>, m: Message, n: Message)
    requires var stream := Run(maxAttempts, steps).stream; m in stream && n in stream
    requires m.eventId == n.eventId
    ensures m == n
  {
    EveryRunIsOk(maxAttempts, steps);
    var rows := Run(maxAttempts, steps).rows;
    var i :| 0 <= i < |rows| && rows[i].message == m;
    var j :| 0 <= j < |rows| && rows[j].message == n;
  }

  /**
   Duplicated delivery refines single delivery: after any run the read model is what one gets by applying
   a list of events once each, and that list has no event twice and only events of the outbox.
   */
  lemma ReadModelIsSingleDelivery(maxAttempts: nat, steps: seq<Step>)
    ensures var w := Run(maxAttempts, steps);
      var events := FirstOfEach(w.tries);
      && w.consumed.model == ApplyAll(events)
      && (forall i, j :: 0 <= i < j < |events| ==> events[i].message.eventId != events[j].message.eventId)
      && (forall e :: e in events ==> e.message in w.stream && FromRow(w.rows, e.message))
      && (forall e :: e in events ==>
            e.message.eventId != "" && e.message.eventType != "" && e.message.tenantId != ""
            && e.message.aggregateId != "")
      && (forall id :: id in w.consumed.processed <==> Seen(events, id))
  {
    EveryRunIsOk(maxAttempts, steps);
    FirstsAreTheEvents(Run(maxAttempts, steps).tries);
  }
}
