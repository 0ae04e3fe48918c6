/**
 What the read model says about an application: the status that was committed last, which is the one that
 occurred last exactly if nothing that occurred later was committed before.
 */
module ReadModelOrder {
  import opened Wrappers
  import opened Outbox
  import opened OutboxProtocol
  import OutboxAccounting

  // --- which event a row shows

  /** The status an event gives its loan application, if it gives one. */
  function StatusOf(m: Message): Option<string>
  {
    if m.eventType == "loan_application.submitted" then
      Some(if m.payload.status.Some? then m.payload.status.value else "SUBMITTED")
    else if m.eventType == "loan_application.status_transitioned" then
      Some(if m.payload.to.Some? then m.payload.to.value else "UNKNOWN")
    else None
  }

  /** The details a row gets if this event makes it: those submitted, and none from a transition. */
  function DetailsOf(m: Message): Option<Details>
  {
    if m.eventType == "loan_application.submitted" then Some(m.payload.details) else None
  }

  /** The event is about the application: it gives a status, or money of the application's tenant has moved. */
  predicate Touches(e: Try, id: string, tenantId: string)
  {
    GivesStatus(e, id)
    || (&& e.message.aggregateId == id && e.message.tenantId == tenantId
        && (e.message.eventType == "disbursement.completed" || e.message.eventType == "repayment.posted"))
  }

  function LastTouch(events: seq<Try>, id: string, tenantId: string): (e: Option<Try>)
  {
    if |events| == 0 then None
    else
      var last := events[|events| - 1];
      if Touches(last, id, tenantId) then Some(last) else LastTouch(events[..|events| - 1], id, tenantId)
  }

  predicate GivesStatus(e: Try, id: string)
  {
    e.message.aggregateId == id && StatusOf(e.message).Some?
  }

  /** The last of the events that gives the application a status. */
  function LastStatus(events: seq<Try>, id: string): (e: Option<Try>)
  {
    if |events| == 0 then None
    else
      var last := events[|events| - 1];
      if GivesStatus(last, id) then Some(last) else LastStatus(events[..|events| - 1], id)
  }

  function FirstStatus(events: seq<Try>, id: string): (e: Option<Try>)
  {
    if |events| == 0 then None
    else if GivesStatus(events[0], id) then Some(events[0])
    else FirstStatus(events[1..], id)
  }

  lemma {:induction false} FirstStatusSnoc(events: seq<Try>, e: Try, id: string)
    ensures FirstStatus(events + [e], id)
         == if FirstStatus(events, id).Some? then FirstStatus(events, id)
           else if GivesStatus(e, id) then Some(e) else None
  {
    if |events| == 0 {
      assert events + [e] == [e];
    } else {
      assert (events + [e])[1..] == events[1..] + [e];
      FirstStatusSnoc(events[1..], e, id);
    }
  }

  lemma ApplyToRow(model: ReadModel, e: Try, id: string)
    ensures var after := Apply(model, e.message, e.now);
      && (id in after <==> id in model || GivesStatus(e, id))
      && (id in after ==>
            && after[id].status == (if GivesStatus(e, id) then StatusOf(e.message).value else model[id].status)
            && after[id].tenantId == (if id in model then model[id].tenantId else e.message.tenantId)
            && after[id].createdAt == (if id in model then model[id].createdAt else e.now)
            && after[id].details == (if id in model then model[id].details else DetailsOf(e.message))
            && after[id].updatedAt == (if Touches(e, id, after[id].tenantId) then e.now else model[id].updatedAt))
  {
  }

  /**
   The row of an application exists exactly when a status event was committed for it; its status is the
   last committed one's, whatever order the events occurred in; its tenant, creation time and details are the
   first one's; and it was updated when the last event about it was committed.
   */
  lemma {:induction false} ReadRowFollowsEvents(events: seq<Try>, id: string)
    ensures var model := ApplyAll(events);
      && (id in model <==> LastStatus(events, id).Some?)
      && (id in model <==> FirstStatus(events, id).Some?)
      && (id in model ==>
            && Some(model[id].status) == StatusOf(LastStatus(events, id).value.message)
            && model[id].tenantId == FirstStatus(events, id).value.message.tenantId
            && model[id].createdAt == FirstStatus(events, id).value.now
            && model[id].details == DetailsOf(FirstStatus(events, id).value.message)
            && LastTouch(events, id, model[id].tenantId).Some?
            && model[id].updatedAt == LastTouch(events, id, model[id].tenantId).value.now)
  {
    if |events| > 0 {
      var init, last := events[..|events| - 1], events[|events| - 1];
      ReadRowFollowsEvents(init, id);
      assert events == init + [last];
      FirstStatusSnoc(init, last, id);
      ApplyToRow(ApplyAll(init), last, id);
    }
  }

  // --- order of commitment and order of occurrence

  function OccurredAt(e: Try): int { e.message.occurredAt }

  /** The application's status event that occurred last; of two at the same time, the one committed later. */
  function Latest(events: seq<Try>, id: string): (e: Option<Try>)
  {
    if |events| == 0 then None
    else
      var last, before := events[|events| - 1], Latest(events[..|events| - 1], id);
      if GivesStatus(last, id) && (before.None? || OccurredAt(before.value) <= OccurredAt(last)) then Some(last)
      else before
  }

  lemma {:induction false} LatestOccursLast(events: seq<Try>, id: string)
    ensures Latest(events, id).Some? <==> LastStatus(events, id).Some?
    ensures Latest(events, id).Some? ==> Latest(events, id).value in events && GivesStatus(Latest(events, id).value, id)
    ensures forall i :: 0 <= i < |events| && GivesStatus(events[i], id) ==>
      Latest(events, id).Some? && OccurredAt(events[i]) <= OccurredAt(Latest(events, id).value)
  {
    if |events| > 0 {
      LatestOccursLast(events[..|events| - 1], id);
      forall i | 0 <= i < |events| - 1 ensures events[i] == events[..|events| - 1][i] { }
    }
  }

  /** Some status event that occurred later was committed before the last one. */
  ghost predicate Overtaken(events: seq<Try>, id: string)
  {
    var last := LastStatus(events, id);
    last.Some?
    && exists i :: 0 <= i < |events| && GivesStatus(events[i], id) && OccurredAt(events[i]) > OccurredAt(last.value)
  }

  lemma {:induction false} LastOrLatest(events: seq<Try>, id: string)
    ensures !Overtaken(events, id) ==> Latest(events, id) == LastStatus(events, id)
  {
    if |events| > 0 {
      var init, last := events[..|events| - 1], events[|events| - 1];
      LatestOccursLast(init, id);
      LatestOccursLast(events, id);
      if !GivesStatus(last, id) {
        if Overtaken(init, id) {
          var e := LastStatus(init, id).value;
          var i :| 0 <= i < |init| && GivesStatus(init[i], id) && OccurredAt(init[i]) > OccurredAt(e);
          assert events[i] == init[i];
        }
        LastOrLatest(init, id);
      } else if Latest(init, id).Some? {
        var e := Latest(init, id).value;
        var i :| 0 <= i < |init| && init[i] == e;
        assert events[i] == e;
      }
    }
  }

  /**
   The row shows the status event that occurred last if and only if no status event of the application
   that occurred later was committed before the last one. If one was, the row shows the status of an
   earlier event, and so another status unless the two events give the same one.
   */
  lemma RowShowsLatestExactlyIfNotOvertaken(events: seq<Try>, id: string)
    requires LastStatus(events, id).Some?
    ensures Latest(events, id).Some? && id in ApplyAll(events)
    ensures LastStatus(events, id) == Latest(events, id) <==> !Overtaken(events, id)
    ensures Some(ApplyAll(events)[id].status) == StatusOf(Latest(events, id).value.message)
       <==> !Overtaken(events, id)
            || StatusOf(Latest(events, id).value.message) == StatusOf(LastStatus(events, id).value.message)
  {
    ReadRowFollowsEvents(events, id);
    LatestOccursLast(events, id);
    LastOrLatest(events, id);
  }

  /** After any run of dispatchers and consumers, the same of the read model as it is stored. */
  lemma StoredRowShowsLatestExactlyIfNotOvertaken(maxAttempts: nat, steps: seq<Step>, id: string)
    requires id in Run(maxAttempts, steps).consumed.model
    ensures var w := Run(maxAttempts, steps);
      var events := FirstOfEach(w.tries);
      && Latest(events, id).Some? && LastStatus(events, id).Some?
      && (Some(w.consumed.model[id].status) == StatusOf(Latest(events, id).value.message)
          <==> !Overtaken(events, id)
               || StatusOf(Latest(events, id).value.message) == StatusOf(LastStatus(events, id).value.message))
  {
    var events := FirstOfEach(Run(maxAttempts, steps).tries);
    EveryRunIsOk(maxAttempts, steps);
    ReadRowFollowsEvents(events, id);
    RowShowsLatestExactlyIfNotOvertaken(events, id);
  }

  /** After every commit of the sequence. */
  ghost predicate AlwaysShowsLatest(events: seq<Try>, id: string)
  {
    && LastStatus(events, id) == Latest(events, id)
    && (|events| > 0 ==> AlwaysShowsLatest(events[..|events| - 1], id))
  }

  ghost predicate CommittedInOrder(events: seq<Try>, id: string)
  {
    forall i, j :: 0 <= i < j < |events| && GivesStatus(events[i], id) && GivesStatus(events[j], id) ==>
      OccurredAt(events[i]) <= OccurredAt(events[j])
  }

  /**
   The row shows the latest status event at every moment exactly if status events are committed in order of
   occurrence.
   */
  lemma {:induction false} AlwaysShowsLatestExactlyInOrder(events: seq<Try>, id: string)
    ensures AlwaysShowsLatest(events, id) <==> CommittedInOrder(events, id)
  {
    if |events| > 0 {
      var init, last := events[..|events| - 1], events[|events| - 1];
      AlwaysShowsLatestExactlyInOrder(init, id);
      forall i | 0 <= i < |init| ensures init[i] == events[i] { }
      LatestOccursLast(init, id);
      LatestOccursLast(events, id);
      if CommittedInOrder(init, id) {
        InOrderSnoc(events, id);
      }
    }
  }

  lemma InOrderSnoc(events: seq<Try>, id: string)
    requires |events| > 0 && CommittedInOrder(events[..|events| - 1], id)
    ensures var before, last := Latest(events[..|events| - 1], id), events[|events| - 1];
      CommittedInOrder(events, id)
      <==> !GivesStatus(last, id) || before.None? || OccurredAt(before.value) <= OccurredAt(last)
  {
    var init, last := events[..|events| - 1], events[|events| - 1];
    LatestOccursLast(init, id);
    forall i | 0 <= i < |init| ensures init[i] == events[i] { }
    if Latest(init, id).Some? {
      var k :| 0 <= k < |init| && init[k] == Latest(init, id).value;
      assert events[k] == init[k];
    }
  }

  // --- a run in which the older event wins

  /** Two events of one application that give it a status, in the order in which they occurred. */
  predicate TwoEvents(older: Message, newer: Message)
  {
    && Usable(older) && Usable(newer) && older.eventId != newer.eventId
    && older.aggregateId == newer.aggregateId
    && StatusOf(older).Some? && StatusOf(newer).Some?
    && older.occurredAt < newer.occurredAt
  }

  function Inserts(older: Message, newer: Message): seq<Step>
  {
    [Insert(older)] + [Insert(newer)] + [Claim(0, [0, 1], {}, 2)]
  }

  /** Both are claimed, the older one's send fails, the newer one is published. */
  function NewerFirst(older: Message, newer: Message): seq<Step>
  {
    Inserts(older, newer) + [SendFails(0, "")] + [Send(0)] + [Mark(0, 0)]
  }

  function OlderSecond(older: Message, newer: Message): seq<Step>
  {
    NewerFirst(older, newer) + [Claim(0, [0], {}, 1)] + [Send(0)] + [Mark(0, 0)]
  }

  function Delivered(older: Message, newer: Message): seq<Step>
  {
    OlderSecond(older, newer) + [Deliver(0, 0)] + [CommitTry(0, 0)] + [Deliver(0, 1)] + [CommitTry(0, 0)]
  }

  function WorldWith(rows: seq<OutboxRow>, stream: seq<Message>, sending: map<nat, Sending>): World
  {
    INITIAL.(rows := rows, stream := stream, sending := sending)
  }

  lemma AfterInserts(maxAttempts: nat, older: Message, newer: Message)
    requires maxAttempts > 1 && TwoEvents(older, newer)
    ensures Run(maxAttempts, Inserts(older, newer))
         == WorldWith([NewRow(older), NewRow(newer)], [], map[0 := Sending([0, 1], false)])
  {
    var rows := [NewRow(older), NewRow(newer)];
    OutboxAccounting.RunThree(maxAttempts, [], Insert(older), Insert(newer), Claim(0, [0, 1], {}, 2));
    assert [] + [Insert(older)] == [Insert(older)];
    var one := Next(maxAttempts, INITIAL, Insert(older));
    assert one == WorldWith([NewRow(older)], [], map[]) by { assert INITIAL.rows + [NewRow(older)] == [NewRow(older)]; }
    var two := Next(maxAttempts, one, Insert(newer));
    assert two == WorldWith(rows, [], map[]) by { assert [NewRow(older)] + [NewRow(newer)] == rows; }
    TwoClaimed(rows, maxAttempts);
    assert two.sending[0 := Sending([0, 1], false)] == map[0 := Sending([0, 1], false)];
  }

  lemma TwoClaimed(rows: seq<OutboxRow>, maxAttempts: nat)
    requires |rows| == 2 && Eligible(rows[0], maxAttempts) && Eligible(rows[1], maxAttempts)
    requires rows[0].message.occurredAt < rows[1].message.occurredAt
    ensures ClaimOk(rows, [0, 1], {}, 2, maxAttempts)
  {
  }

  lemma AfterNewer(maxAttempts: nat, older: Message, newer: Message)
    requires maxAttempts > 1 && TwoEvents(older, newer)
    ensures Run(maxAttempts, NewerFirst(older, newer))
         == WorldWith([Failed(NewRow(older), ""), Published(NewRow(newer), 0)], [newer], map[])
  {
    var rows := [NewRow(older), NewRow(newer)];
    var failed := Failed(NewRow(older), "");
    AfterInserts(maxAttempts, older, newer);
    OutboxAccounting.RunThree(maxAttempts, Inserts(older, newer), SendFails(0, ""), Send(0), Mark(0, 0));
    var w := WorldWith(rows, [], map[0 := Sending([0, 1], false)]);
    var one := Next(maxAttempts, w, SendFails(0, ""));
    assert one == WorldWith([failed, NewRow(newer)], [], map[0 := Sending([1], false)]) by {
      assert [0, 1][1..] == [1];
      assert rows[0 := failed] == [failed, NewRow(newer)];
      assert w.sending[0 := Sending([1], false)] == map[0 := Sending([1], false)];
    }
    var two := Next(maxAttempts, one, Send(0));
    assert two == WorldWith([failed, NewRow(newer)], [newer], map[0 := Sending([1], true)]) by {
      assert [] + [newer] == [newer];
      assert one.sending[0 := Sending([1], true)] == map[0 := Sending([1], true)];
    }
    assert [1][1..] == [];
    assert two.sending - {0} == map[];
    assert two.rows[1 := Published(NewRow(newer), 0)] == [failed, Published(NewRow(newer), 0)];
  }

  lemma AfterOlder(maxAttempts: nat, older: Message, newer: Message)
    requires maxAttempts > 1 && TwoEvents(older, newer)
    ensures Run(maxAttempts, OlderSecond(older, newer))
         == WorldWith([Published(Failed(NewRow(older), ""), 0), Published(NewRow(newer), 0)], [newer, older], map[])
  {
    var failed, published := Failed(NewRow(older), ""), Published(NewRow(newer), 0);
    AfterNewer(maxAttempts, older, newer);
    OutboxAccounting.RunThree(maxAttempts, NewerFirst(older, newer), Claim(0, [0], {}, 1), Send(0), Mark(0, 0));
    var w := WorldWith([failed, published], [newer], map[]);
    var one := Next(maxAttempts, w, Claim(0, [0], {}, 1));
    assert one == w.(sending := map[0 := Sending([0], false)]) by {
      assert Claimable(w.rows, 0, {}, maxAttempts) && !Claimable(w.rows, 1, {}, maxAttempts);
      assert ClaimOk(w.rows, [0], {}, 1, maxAttempts);
      assert w.sending[0 := Sending([0], false)] == map[0 := Sending([0], false)];
    }
    var two := Next(maxAttempts, one, Send(0));
    assert two == WorldWith([failed, published], [newer, older], map[0 := Sending([0], true)]) by {
      assert [newer] + [older] == [newer, older];
      assert one.sending[0 := Sending([0], true)] == map[0 := Sending([0], true)];
    }
    assert [0][1..] == [];
    assert two.sending - {0} == map[];
    assert two.rows[0 := Published(failed, 0)] == [Published(failed, 0), published];
  }

  /** A message nobody has handled is committed. */
  lemma DeliverAndCommit(maxAttempts: nat, w: World, position: nat)
    requires w.handling == map[] && position < |w.stream| && Usable(w.stream[position])
    requires w.stream[position].eventId !in w.consumed.processed
    ensures var m := w.stream[position];
      Next(maxAttempts, Next(maxAttempts, w, Deliver(0, position)), CommitTry(0, 0))
      == w.(consumed := Commit(w.consumed, m, 0), tries := w.tries + [Try(m, 0)])
  {
    var m := w.stream[position];
    assert map[0 := m] - {0} == map[];
    assert w.handling[0 := m] == map[0 := m];
  }

  lemma TwoCommits(older: Message, newer: Message)
    requires TwoEvents(older, newer)
    ensures FirstOfEach([Try(newer, 0), Try(older, 0)]) == [Try(newer, 0), Try(older, 0)]
    ensures Overtaken([Try(newer, 0), Try(older, 0)], older.aggregateId)
    ensures LastStatus([Try(newer, 0), Try(older, 0)], older.aggregateId) == Some(Try(older, 0))
  {
    var a, b := Try(newer, 0), Try(older, 0);
    assert [a, b][..1] == [a] && [a][..0] == [];
    assert FirstOfEach([]) == [] && FirstOfEach([a]) == [a];
    assert [a, b][0] == a;
  }

  /** The newer event is delivered first, and the row ends with the older event's status. */
  lemma OlderEventWins(maxAttempts: nat, older: Message, newer: Message)
    requires maxAttempts > 1 && TwoEvents(older, newer)
    ensures var w := Run(maxAttempts, Delivered(older, newer));
      && Overtaken(FirstOfEach(w.tries), older.aggregateId)
      && older.aggregateId in w.consumed.model
      && Some(w.consumed.model[older.aggregateId].status) == StatusOf(older)
  {
    var steps := OlderSecond(older, newer);
    var w := Run(maxAttempts, steps);
    AfterOlder(maxAttempts, older, newer);
    OutboxAccounting.RunThree(maxAttempts, steps, Deliver(0, 0), CommitTry(0, 0), Deliver(0, 1));
    OutboxAccounting.RunSnoc(maxAttempts, steps + [Deliver(0, 0)] + [CommitTry(0, 0)] + [Deliver(0, 1)],
      CommitTry(0, 0));
    DeliverAndCommit(maxAttempts, w, 0);
    var first := w.(consumed := Commit(w.consumed, newer, 0), tries := [Try(newer, 0)]);
    assert w.tries + [Try(newer, 0)] == [Try(newer, 0)];
    DeliverAndCommit(maxAttempts, first, 1);
    assert first.tries + [Try(older, 0)] == [Try(newer, 0), Try(older, 0)];
    TwoCommits(older, newer);
    EveryRunIsOk(maxAttempts, Delivered(older, newer));
    ReadRowFollowsEvents([Try(newer, 0), Try(older, 0)], older.aggregateId);
  }
}
