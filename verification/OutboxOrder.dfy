/**
 When the read model cannot fall behind: one dispatcher, no failed or unmarked send and no crash, rows inserted in
 order of occurrence, and deliveries committed in the order of the stream.
 */
module OutboxOrder {
  import opened Wrappers
  import opened Outbox
  import opened OutboxProtocol
  import opened ReadModelOrder

  /** Nothing goes wrong in the step, and it is none of a second dispatcher. */
  ghost predicate Calm(w: World, step: Step)
  {
    match step
    case Insert(message) => NoneLater(w.rows, message)
    case Claim(d, _, locked, _) => d == 0 && locked == {}
    case SendFails(_, _) => false
    case MarkFails(_, _) => false
    case MarkTwice(_, _, _) => false
    case Crash(_) => false
    case _ => true
  }

  predicate NoneLater(rows: seq<OutboxRow>, message: Message)
  {
    forall i :: 0 <= i < |rows| ==> rows[i].message.occurredAt <= message.occurredAt
  }

  ghost predicate CalmRun(maxAttempts: nat, steps: seq<Step>)
  {
    forall n :: 0 <= n < |steps| ==> Calm(Run(maxAttempts, steps[..n]), steps[n])
  }

  // --- the stream is in order of occurrence

  predicate Waits(rows: seq<OutboxRow>, i: int)
  {
    0 <= i < |rows| && rows[i].publishedAt.None?
  }

  /** What is left of the batch waits, oldest first, and no other waiting row is older. */
  ghost predicate QueueOk(rows: seq<OutboxRow>, queue: seq<nat>)
  {
    && Names(rows, queue)
    && (forall k :: 0 <= k < |queue| ==> Waits(rows, queue[k]))
    && (forall k, l :: 0 <= k < l < |queue| ==> Older(rows, queue[k], queue[l]))
    && (forall k, i :: 0 <= k < |queue| && Waits(rows, i) && i !in queue ==> Older(rows, queue[k], i))
  }

  predicate Sorted(stream: seq<Message>)
  {
    forall i, j :: 0 <= i < j < |stream| ==> stream[i].occurredAt <= stream[j].occurredAt
  }

  /** No waiting row occurred before anything on the stream. */
  ghost predicate StreamIsOlder(w: World)
  {
    forall m, i :: m in w.stream && Waits(w.rows, i) ==> m.occurredAt <= w.rows[i].message.occurredAt
  }

  ghost predicate OrderOk(w: World)
  {
    && (forall i :: Waits(w.rows, i) ==> w.rows[i].publishAttempts == 0)
    && (forall d :: d in w.sending ==> d == 0 && QueueOk(w.rows, w.sending[d].queue))
    && Sorted(w.stream) && StreamIsOlder(w)
  }

  lemma InsertKeepsQueueOk(rows: seq<OutboxRow>, queue: seq<nat>, message: Message)
    requires QueueOk(rows, queue) && NoneLater(rows, message)
    ensures QueueOk(rows + [NewRow(message)], queue)
  {
    var more := rows + [NewRow(message)];
    forall k, i | 0 <= k < |queue| && Waits(more, i) && i !in queue ensures Older(more, queue[k], i) {
      assert i < |rows| ==> Waits(rows, i);
    }
  }

  lemma InsertKeepsOrder(w: World, message: Message)
    requires PublishOk(w) && OrderOk(w) && NoneLater(w.rows, message)
    ensures OrderOk(Inserted(w, message))
  {
    var v := Inserted(w, message);
    forall i | Waits(v.rows, i) ensures v.rows[i].publishAttempts == 0 {
      assert i < |w.rows| ==> Waits(w.rows, i);
    }
    forall d | d in v.sending ensures d == 0 && QueueOk(v.rows, v.sending[d].queue) {
      InsertKeepsQueueOk(w.rows, w.sending[d].queue, message);
    }
    forall m, i | m in v.stream && Waits(v.rows, i) ensures m.occurredAt <= v.rows[i].message.occurredAt {
      assert FromRow(w.rows, m);
      assert i < |w.rows| ==> Waits(w.rows, i);
    }
  }

  lemma ClaimMakesQueueOk(
    rows: seq<OutboxRow>, claimed: seq<nat>, locked: set<nat>, batchSize: nat, maxAttempts: nat)
    requires ClaimOk(rows, claimed, locked, batchSize, maxAttempts) && claimed != [] && locked == {}
    requires forall i :: Waits(rows, i) ==> rows[i].publishAttempts == 0
    ensures QueueOk(rows, claimed)
  {
    assert Claimable(rows, claimed[0], locked, maxAttempts);
    forall k, i | 0 <= k < |claimed| && Waits(rows, i) && i !in claimed ensures Older(rows, claimed[k], i) {
      assert Claimable(rows, i, locked, maxAttempts);
    }
  }

  lemma SendKeepsOrder(w: World, d: nat)
    requires OrderOk(w) && AtWork(w, d)
    ensures OrderOk(SendHead(w, d))
  {
    var v, queue := SendHead(w, d), w.sending[d].queue;
    var head := queue[0];
    assert Waits(w.rows, head);
    forall i | Waits(w.rows, i) ensures Older(w.rows, head, i) {
      if i in queue {
        var k :| 0 <= k < |queue| && queue[k] == i;
      }
    }
    forall i, j | 0 <= i < j < |v.stream| ensures v.stream[i].occurredAt <= v.stream[j].occurredAt {
      assert w.stream[i] in w.stream;
    }
  }

  /** Once published, the head waits no more, and the rest of the batch is as it was. */
  lemma PoppedQueueOk(rows: seq<OutboxRow>, queue: seq<nat>, row: OutboxRow)
    requires QueueOk(rows, queue) && |queue| > 0
    requires row.message == rows[queue[0]].message && row.publishedAt.Some?
    ensures QueueOk(rows[queue[0] := row], queue[1..])
  {
    var after, rest := rows[queue[0] := row], queue[1..];
    forall k, i | 0 <= k < |rest| && Waits(after, i) && i !in rest ensures Older(after, rest[k], i) {
      assert Waits(rows, i) && i != queue[0];
      assert queue == [queue[0]] + rest;
      assert Older(rows, queue[k + 1], i);
    }
  }

  lemma MarkKeepsOrder(w: World, d: nat, now: int)
    requires OrderOk(w) && AtWork(w, d)
    ensures OrderOk(UpdateHead(w, d, Published(Head(w, d), now)))
  {
    var v := UpdateHead(w, d, Published(Head(w, d), now));
    forall i | Waits(v.rows, i) ensures Waits(w.rows, i) && v.rows[i] == w.rows[i] { }
    PoppedQueueOk(w.rows, w.sending[d].queue, Published(Head(w, d), now));
  }

  lemma NextKeepsOrder(maxAttempts: nat, w: World, step: Step)
    requires PublishOk(w) && OrderOk(w) && Calm(w, step)
    ensures OrderOk(Next(maxAttempts, w, step))
  {
    if Next(maxAttempts, w, step) != w {
      match step
      case Insert(message) => InsertKeepsOrder(w, message);
      case Claim(_, claimed, locked, batchSize) => ClaimMakesQueueOk(w.rows, claimed, locked, batchSize, maxAttempts);
      case Send(d) => SendKeepsOrder(w, d);
      case Mark(d, now) => MarkKeepsOrder(w, d, now);
      case _ =>
    }
  }

  lemma {:induction false} CalmRunKeepsOrder(maxAttempts: nat, steps: seq<Step>)
    requires CalmRun(maxAttempts, steps)
    ensures OrderOk(Run(maxAttempts, steps))
  {
    if |steps| > 0 {
      var init := steps[..|steps| - 1];
      assert forall n :: 0 <= n < |init| ==> init[..n] == steps[..n];
      CalmRunKeepsOrder(maxAttempts, init);
      EveryRunIsOk(maxAttempts, init);
      NextKeepsOrder(maxAttempts, Run(maxAttempts, init), steps[|steps| - 1]);
    }
  }

  /** The stream of a calm run is sorted by time of occurrence. */
  lemma CalmStreamIsSorted(maxAttempts: nat, steps: seq<Step>)
    requires CalmRun(maxAttempts, steps)
    ensures Sorted(Run(maxAttempts, steps).stream)
  {
    CalmRunKeepsOrder(maxAttempts, steps);
  }

  // --- commits in the order of the stream

  /** Each commit is of the message at its position, and positions do not go back. */
  ghost predicate FollowsStream(stream: seq<Message>, tries: seq<Try>, positions: seq<nat>)
  {
    && |positions| == |tries|
    && (forall i :: 0 <= i < |tries| ==> positions[i] < |stream| && stream[positions[i]] == tries[i].message)
    && (forall i, j :: 0 <= i < j < |tries| ==> positions[i] <= positions[j])
  }

  predicate TriesSorted(tries: seq<Try>)
  {
    forall i, j :: 0 <= i < j < |tries| ==> OccurredAt(tries[i]) <= OccurredAt(tries[j])
  }

  lemma {:induction false} FirstsStaySorted(tries: seq<Try>)
    requires TriesSorted(tries)
    ensures TriesSorted(FirstOfEach(tries))
  {
    if |tries| > 0 {
      var init, last := tries[..|tries| - 1], tries[|tries| - 1];
      FirstsStaySorted(init);
      FirstsAreTheEvents(init);
      forall t | t in FirstOfEach(init) ensures OccurredAt(t) <= OccurredAt(last) {
        assert t in init;
      }
      forall i, j | 0 <= i < j < |FirstOfEach(tries)|
        ensures OccurredAt(FirstOfEach(tries)[i]) <= OccurredAt(FirstOfEach(tries)[j])
      {
        assert i < |FirstOfEach(init)| ==> FirstOfEach(init)[i] in FirstOfEach(init);
      }
    }
  }

  /**
   After a calm run whose commits follow the stream, every application's status events were committed in order of
   occurrence, and its row has shown the latest of them at every moment.
   */
  lemma CalmRunsCommitInOrder(maxAttempts: nat, steps: seq<Step>, positions: seq<nat>, id: string)
    requires CalmRun(maxAttempts, steps)
    requires FollowsStream(Run(maxAttempts, steps).stream, Run(maxAttempts, steps).tries, positions)
    ensures var events := FirstOfEach(Run(maxAttempts, steps).tries);
      CommittedInOrder(events, id) && AlwaysShowsLatest(events, id)
  {
    var w := Run(maxAttempts, steps);
    CalmStreamIsSorted(maxAttempts, steps);
    forall i, j | 0 <= i < j < |w.tries| ensures OccurredAt(w.tries[i]) <= OccurredAt(w.tries[j]) {
      assert positions[i] <= positions[j];
      assert w.stream[positions[i]] == w.tries[i].message && w.stream[positions[j]] == w.tries[j].message;
    }
    FirstsStaySorted(w.tries);
    AlwaysShowsLatestExactlyInOrder(FirstOfEach(w.tries), id);
  }

  // --- a second dispatcher is enough

  function TwoClaims(older: Message, newer: Message): seq<Step>
  {
    [Insert(older)] + [Insert(newer)] + [Claim(0, [0], {}, 1)]
  }

  /** While the first dispatcher's claim has its row locked, a second one claims the newer row, and sends first. */
  function SecondSendsFirst(older: Message, newer: Message): seq<Step>
  {
    TwoClaims(older, newer) + [Claim(1, [1], {0}, 1)] + [Send(1)] + [Send(0)]
  }

  lemma OneClaimed(rows: seq<OutboxRow>, maxAttempts: nat)
    requires |rows| == 2 && Eligible(rows[0], maxAttempts) && Eligible(rows[1], maxAttempts)
    requires rows[0].message.occurredAt < rows[1].message.occurredAt
    ensures ClaimOk(rows, [0], {}, 1, maxAttempts) && ClaimOk(rows, [1], {0}, 1, maxAttempts)
  {
    assert Claimable(rows, 0, {}, maxAttempts) && Claimable(rows, 1, {0}, maxAttempts);
  }

  lemma AfterFirstClaim(maxAttempts: nat, older: Message, newer: Message)
    requires maxAttempts > 0 && TwoEvents(older, newer)
    ensures Run(maxAttempts, TwoClaims(older, newer))
         == WorldWith([NewRow(older), NewRow(newer)], [], map[0 := Sending([0], false)])
  {
    var rows := [NewRow(older), NewRow(newer)];
    OutboxAccounting.RunThree(maxAttempts, [], Insert(older), Insert(newer), Claim(0, [0], {}, 1));
    assert [] + [Insert(older)] == [Insert(older)];
    var one := Next(maxAttempts, INITIAL, Insert(older));
    assert one == WorldWith([NewRow(older)], [], map[]) by { assert INITIAL.rows + [NewRow(older)] == [NewRow(older)]; }
    var two := Next(maxAttempts, one, Insert(newer));
    assert two == WorldWith(rows, [], map[]) by { assert [NewRow(older)] + [NewRow(newer)] == rows; }
    OneClaimed(rows, maxAttempts);
    assert two.sending[0 := Sending([0], false)] == map[0 := Sending([0], false)];
  }

  /** Without a failure anywhere, two dispatchers can leave the newer event before the older one on the stream. */
  lemma TwoDispatchersReorder(maxAttempts: nat, older: Message, newer: Message)
    requires maxAttempts > 0 && TwoEvents(older, newer)
    ensures Run(maxAttempts, SecondSendsFirst(older, newer)).stream == [newer, older]
    ensures !Sorted([newer, older])
  {
    var rows := [NewRow(older), NewRow(newer)];
    AfterFirstClaim(maxAttempts, older, newer);
    OutboxAccounting.RunThree(maxAttempts, TwoClaims(older, newer), Claim(1, [1], {0}, 1), Send(1), Send(0));
    var w := WorldWith(rows, [], map[0 := Sending([0], false)]);
    OneClaimed(rows, maxAttempts);
    var one := Next(maxAttempts, w, Claim(1, [1], {0}, 1));
    assert one == w.(sending := w.sending[1 := Sending([1], false)]);
    var two := Next(maxAttempts, one, Send(1));
    assert two.stream == [newer] && two.sending[0] == Sending([0], false);
    assert [newer] + [older] == [newer, older];
    assert [newer, older][0] == newer && [newer, older][1] == older;
  }
}
