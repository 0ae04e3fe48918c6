/**
 Where every copy of an event on the stream comes from, and how far a row's attempt counter can go. The
 counter does not count sends: a dispatcher that crashes after sending leaves it as it was.
 */
module OutboxAccounting {
  import opened Outbox
  import opened OutboxProtocol

  // --- adding up over dispatchers

  function WeightAt(sending: map<nat, Sending>, weight: Sending -> nat, d: nat): nat
  {
    if d in sending then weight(sending[d]) else 0
  }

  /** The weights of the first n dispatchers. */
  function Total(sending: map<nat, Sending>, weight: Sending -> nat, n: nat): (total: nat)
  {
    if n == 0 then 0 else Total(sending, weight, n - 1) + WeightAt(sending, weight, n - 1)
  }

  predicate SameBut(before: map<nat, Sending>, after: map<nat, Sending>, d: nat)
  {
    before - {d} == after - {d}
  }

  lemma SameAt(before: map<nat, Sending>, after: map<nat, Sending>, d: nat, e: nat)
    requires SameBut(before, after, d) && e != d
    ensures e in before <==> e in after
    ensures e in before ==> before[e] == after[e]
  {
    assert e in before <==> e in before - {d};
    assert e in after <==> e in after - {d};
    assert e in before ==> (before - {d})[e] == before[e] && (after - {d})[e] == after[e];
  }

  lemma {:induction false} TotalChange(
    before: map<nat, Sending>, after: map<nat, Sending>, weight: Sending -> nat, d: nat, n: nat)
    requires SameBut(before, after, d)
    ensures Total(after, weight, n) - (if d < n then WeightAt(after, weight, d) else 0)
         == Total(before, weight, n) - (if d < n then WeightAt(before, weight, d) else 0)
  {
    if n > 0 {
      TotalChange(before, after, weight, d, n - 1);
      if n - 1 != d {
        SameAt(before, after, d, n - 1);
      }
    }
  }

  /** If no weight is above one and one is zero, the total is below n. */
  lemma {:induction false} NotAllHold(sending: map<nat, Sending>, weight: Sending -> nat, d: nat, n: nat)
    requires forall s :: weight(s) <= 1
    ensures Total(sending, weight, n) <= n
    ensures d < n && WeightAt(sending, weight, d) == 0 ==> Total(sending, weight, n) < n
  {
    if n > 0 {
      NotAllHold(sending, weight, d, n - 1);
    }
  }

  lemma {:induction false} NoWeight(sending: map<nat, Sending>, weight: Sending -> nat, n: nat)
    requires forall d :: d in sending ==> weight(sending[d]) == 0
    ensures Total(sending, weight, n) == 0
  {
    if n > 0 {
      NoWeight(sending, weight, n - 1);
    }
  }

  // --- one row

  /** The dispatcher still has the row to send or to mark. */
  function Holds(i: nat): Sending -> nat
  {
    (s: Sending) => if i in s.queue then 1 else 0
  }

  /** The dispatcher has sent the row and not marked it. */
  function HasSent(i: nat): Sending -> nat
  {
    (s: Sending) => if s.sent && |s.queue| > 0 && s.queue[0] == i then 1 else 0
  }

  function Copies(w: World, i: nat): nat
    requires i < |w.rows|
  {
    multiset(w.stream)[w.rows[i].message]
  }

  function Attempts(w: World, i: nat): nat
    requires i < |w.rows|
  {
    w.rows[i].publishAttempts
  }

  predicate AtHead(w: World, d: nat, i: nat)
  {
    AtWork(w, d) && w.sending[d].queue[0] == i
  }

  /** What can set sends and counted attempts apart. */
  datatype Mishap = Unsent | Doubled | CrashedAfterSend

  predicate Happens(mishap: Mishap, w: World, step: Step, i: nat)
  {
    match mishap
    case Unsent => step.SendFails? && AtHead(w, step.d, i) && !w.sending[step.d].sent
    case Doubled => step.MarkTwice? && AtHead(w, step.d, i) && w.sending[step.d].sent
    case CrashedAfterSend => step.Crash? && AtHead(w, step.d, i) && w.sending[step.d].sent
  }

  ghost function Times(maxAttempts: nat, steps: seq<Step>, mishap: Mishap, i: nat): nat
  {
    if |steps| == 0 then 0
    else
      var init, last := steps[..|steps| - 1], steps[|steps| - 1];
      Times(maxAttempts, init, mishap, i) + if Happens(mishap, Run(maxAttempts, init), last, i) then 1 else 0
  }

  /** Only the first n dispatchers are at work. */
  ghost predicate FirstOnly(n: nat, w: World)
  {
    forall d :: d in w.sending ==> d < n
  }

  function Bit(b: bool): nat { if b then 1 else 0 }

  /** A step's effect on one row: copies against counted attempts, and the load of attempts made and to come. */
  ghost predicate Accounts(maxAttempts: nat, n: nat, w: World, step: Step, i: nat)
    requires i < |w.rows|
  {
    var v := Next(maxAttempts, w, step);
    && i < |v.rows|
    && Copies(v, i) - Attempts(v, i) - Total(v.sending, HasSent(i), n)
       == Copies(w, i) - Attempts(w, i) - Total(w.sending, HasSent(i), n)
          + Bit(Happens(CrashedAfterSend, w, step, i)) - Bit(Happens(Unsent, w, step, i))
          - Bit(Happens(Doubled, w, step, i))
    && (Attempts(v, i) + Total(v.sending, Holds(i), n)
          <= Attempts(w, i) + Total(w.sending, Holds(i), n) + Bit(Happens(Doubled, w, step, i))
        || Attempts(v, i) + Total(v.sending, Holds(i), n) <= maxAttempts + n - 1)
    && (Attempts(v, i) + 2 * Total(v.sending, Holds(i), n) <= Attempts(w, i) + 2 * Total(w.sending, Holds(i), n)
        || Attempts(v, i) + 2 * Total(v.sending, Holds(i), n) <= maxAttempts + 2 * n - 1)
  }

  /** Rows of different indices hold different messages. */
  lemma MessagesDiffer(w: World, i: nat, j: nat)
    requires PublishOk(w) && i < |w.rows| && j < |w.rows| && i != j
    ensures w.rows[i].message != w.rows[j].message
  {
  }

  lemma SendAccounts(maxAttempts: nat, n: nat, w: World, d: nat, i: nat)
    requires PublishOk(w) && FirstOnly(n, w) && i < |w.rows| && AtWork(w, d) && !w.sending[d].sent
    ensures Accounts(maxAttempts, n, w, Send(d), i)
  {
    var v := SendHead(w, d);
    var head := w.sending[d].queue[0];
    assert SameBut(w.sending, v.sending, d);
    TotalChange(w.sending, v.sending, HasSent(i), d, n);
    TotalChange(w.sending, v.sending, Holds(i), d, n);
    if head != i {
      MessagesDiffer(w, head, i);
    }
  }

  lemma UpdateTotals(n: nat, w: World, d: nat, row: OutboxRow, i: nat)
    requires PublishOk(w) && FirstOnly(n, w) && i < |w.rows| && AtWork(w, d) && row.message == Head(w, d).message
    ensures var v, at := UpdateHead(w, d, row), Bit(w.sending[d].queue[0] == i);
      && Copies(v, i) == Copies(w, i)
      && Total(v.sending, Holds(i), n) == Total(w.sending, Holds(i), n) - at
      && Total(v.sending, HasSent(i), n) == Total(w.sending, HasSent(i), n) - (if w.sending[d].sent then at else 0)
  {
    var v := UpdateHead(w, d, row);
    var queue := w.sending[d].queue;
    assert SendingOk(w, d);
    assert SameBut(w.sending, v.sending, d);
    TotalChange(w.sending, v.sending, HasSent(i), d, n);
    TotalChange(w.sending, v.sending, Holds(i), d, n);
    assert i in queue <==> i == queue[0] || i in queue[1..];
  }

  lemma CrashAccounts(maxAttempts: nat, n: nat, w: World, d: nat, i: nat)
    requires PublishOk(w) && FirstOnly(n, w) && i < |w.rows|
    ensures Accounts(maxAttempts, n, w, Crash(d), i)
  {
    var v := Next(maxAttempts, w, Crash(d));
    if d in w.sending {
      assert SendingOk(w, d);
      assert SameBut(w.sending, v.sending, d);
      TotalChange(w.sending, v.sending, HasSent(i), d, n);
      TotalChange(w.sending, v.sending, Holds(i), d, n);
    } else {
      assert v.sending == w.sending;
    }
  }

  lemma ClaimAccounts(maxAttempts: nat, n: nat, w: World, step: Step, i: nat)
    requires step.Claim? && step.d < n && FirstOnly(n, w) && i < |w.rows| && Next(maxAttempts, w, step) != w
    ensures Accounts(maxAttempts, n, w, step, i)
  {
    var v := Next(maxAttempts, w, step);
    assert SameBut(w.sending, v.sending, step.d);
    TotalChange(w.sending, v.sending, HasSent(i), step.d, n);
    TotalChange(w.sending, v.sending, Holds(i), step.d, n);
    NotAllHold(v.sending, Holds(i), step.d, n);
    if i in step.claimed {
      var k :| 0 <= k < |step.claimed| && step.claimed[k] == i;
      assert Claimable(w.rows, step.claimed[k], step.locked, maxAttempts);
    }
  }

  /** A step that updates the row at the head of a dispatcher's queue. */
  lemma UpdateAccounts(maxAttempts: nat, n: nat, w: World, step: Step, d: nat, row: OutboxRow, i: nat)
    requires PublishOk(w) && FirstOnly(n, w) && i < |w.rows| && AtWork(w, d)
    requires Next(maxAttempts, w, step) == UpdateHead(w, d, row) && row.message == Head(w, d).message
    requires row.publishAttempts == Head(w, d).publishAttempts + 1 + Bit(step.MarkTwice?)
    requires step.SendFails? || step.Mark? || step.MarkFails? || step.MarkTwice?
    requires step.d == d && (step.SendFails? <==> !w.sending[d].sent)
    ensures Accounts(maxAttempts, n, w, step, i)
  {
    UpdateTotals(n, w, d, row, i);
  }

  lemma StepAccounts(maxAttempts: nat, n: nat, w: World, step: Step, i: nat)
    requires PublishOk(w) && FirstOnly(n, w) && i < |w.rows| && (step.Claim? ==> step.d < n)
    ensures Accounts(maxAttempts, n, w, step, i)
  {
    if step.Crash? {
      CrashAccounts(maxAttempts, n, w, step.d, i);
    } else if Next(maxAttempts, w, step) != w {
      match step
      case Claim(d, claimed, locked, batchSize) => ClaimAccounts(maxAttempts, n, w, step, i);
      case Send(d) => SendAccounts(maxAttempts, n, w, d, i);
      case SendFails(d, error) => UpdateAccounts(maxAttempts, n, w, step, d, Failed(Head(w, d), error), i);
      case Mark(d, now) => UpdateAccounts(maxAttempts, n, w, step, d, Published(Head(w, d), now), i);
      case MarkFails(d, error) => UpdateAccounts(maxAttempts, n, w, step, d, Failed(Head(w, d), error), i);
      case MarkTwice(d, now, error) =>
        UpdateAccounts(maxAttempts, n, w, step, d, Failed(Published(Head(w, d), now), error), i);
      case _ =>
    } else {
      IdleAccounts(maxAttempts, n, w, step, i);
    }
  }

  /** A step that cannot be taken is no mishap: every mishap changes the world. */
  lemma IdleAccounts(maxAttempts: nat, n: nat, w: World, step: Step, i: nat)
    requires Next(maxAttempts, w, step) == w && !step.Crash? && i < |w.rows|
    ensures Accounts(maxAttempts, n, w, step, i)
  {
    if Happens(Unsent, w, step, i) || Happens(Doubled, w, step, i) {
      MishapsCount(maxAttempts, w, step, i);
    }
  }

  lemma MishapsCount(maxAttempts: nat, w: World, step: Step, i: nat)
    requires i < |w.rows| && (Happens(Unsent, w, step, i) || Happens(Doubled, w, step, i))
    ensures Next(maxAttempts, w, step) != w
  {
    assert Next(maxAttempts, w, step).rows[i].publishAttempts > w.rows[i].publishAttempts;
  }

  // --- every run

  /** Only the first n dispatchers ever claim. */
  ghost predicate OnlyFirstClaim(n: nat, steps: seq<Step>)
  {
    forall s :: s in steps && s.Claim? ==> s.d < n
  }

  lemma {:induction false} RunIsFirstOnly(maxAttempts: nat, n: nat, steps: seq<Step>)
    requires OnlyFirstClaim(n, steps)
    ensures FirstOnly(n, Run(maxAttempts, steps))
  {
    if |steps| > 0 {
      RunIsFirstOnly(maxAttempts, n, steps[..|steps| - 1]);
    }
  }

  /** Before a row is there, nothing happens to it. */
  lemma {:induction false} NothingBefore(maxAttempts: nat, steps: seq<Step>, mishap: Mishap, i: nat)
    requires i >= |Run(maxAttempts, steps).rows|
    ensures Times(maxAttempts, steps, mishap, i) == 0
  {
    if |steps| > 0 {
      var init, last := steps[..|steps| - 1], steps[|steps| - 1];
      NextIsForward(maxAttempts, Run(maxAttempts, init), last);
      NothingBefore(maxAttempts, init, mishap, i);
    }
  }

  /** A row that has just been inserted: no copies, no attempts, nobody holds it. */
  lemma NewRowIsUntouched(maxAttempts: nat, n: nat, w: World, step: Step, i: nat)
    requires PublishOk(w) && |w.rows| <= i < |Next(maxAttempts, w, step).rows|
    ensures var v := Next(maxAttempts, w, step);
      && Copies(v, i) == 0 && Attempts(v, i) == 0
      && Total(v.sending, HasSent(i), n) == 0 && Total(v.sending, Holds(i), n) == 0
  {
    var v := Next(maxAttempts, w, step);
    forall d | d in v.sending ensures Holds(i)(v.sending[d]) == 0 && HasSent(i)(v.sending[d]) == 0 {
      assert SendingOk(w, d);
    }
    NoWeight(v.sending, HasSent(i), n);
    NoWeight(v.sending, Holds(i), n);
    forall m | m in w.stream ensures HasEvent(w.rows, m.eventId) {
      var j :| 0 <= j < |w.rows| && w.rows[j].message == m;
    }
    assert v.rows[i].message !in v.stream;
  }

  lemma NothingHappensToNew(maxAttempts: nat, w: World, step: Step, i: nat, mishap: Mishap)
    requires i >= |w.rows|
    ensures !Happens(mishap, w, step, i)
  {
  }

  ghost predicate Balanced(maxAttempts: nat, n: nat, steps: seq<Step>, i: nat)
  {
    var w := Run(maxAttempts, steps);
    var doubled := Times(maxAttempts, steps, Doubled, i);
    i < |w.rows| ==>
      && Copies(w, i) + Times(maxAttempts, steps, Unsent, i) + doubled
         == Attempts(w, i) + Times(maxAttempts, steps, CrashedAfterSend, i) + Total(w.sending, HasSent(i), n)
      && Attempts(w, i) + Total(w.sending, Holds(i), n) <= maxAttempts + n - 1 + doubled
      && Attempts(w, i) + 2 * Total(w.sending, Holds(i), n) <= maxAttempts + 2 * n - 1
  }

  lemma {:induction false} RunIsBalanced(maxAttempts: nat, n: nat, steps: seq<Step>, i: nat)
    requires n > 0 && OnlyFirstClaim(n, steps)
    ensures Balanced(maxAttempts, n, steps, i)
  {
    if |steps| > 0 {
      var init, last := steps[..|steps| - 1], steps[|steps| - 1];
      var w := Run(maxAttempts, init);
      RunIsBalanced(maxAttempts, n, init, i);
      EveryRunIsOk(maxAttempts, init);
      RunIsFirstOnly(maxAttempts, n, init);
      if i < |w.rows| {
        StepAccounts(maxAttempts, n, w, last, i);
      } else if i < |Run(maxAttempts, steps).rows| {
        NewRowIsUntouched(maxAttempts, n, w, last, i);
        forall mishap: Mishap ensures Times(maxAttempts, steps, mishap, i) == 0 {
          NothingBefore(maxAttempts, init, mishap, i);
          NothingHappensToNew(maxAttempts, w, last, i, mishap);
        }
      }
    }
  }

  /**
   Conservation: over every run the copies of a row on the stream, the sends that failed and the attempts
   counted twice make up the attempts counted, the crashes between sending and marking, and the dispatchers
   that have sent it and not yet marked it.
   */
  lemma SendsAreAccountedFor(maxAttempts: nat, n: nat, steps: seq<Step>, i: nat)
    requires n > 0 && OnlyFirstClaim(n, steps) && i < |Run(maxAttempts, steps).rows|
    ensures var w := Run(maxAttempts, steps);
      && Copies(w, i) + Times(maxAttempts, steps, Unsent, i) + Times(maxAttempts, steps, Doubled, i)
         == w.rows[i].publishAttempts + Times(maxAttempts, steps, CrashedAfterSend, i) + Total(w.sending, HasSent(i), n)
      && Copies(w, i)
         <= w.rows[i].publishAttempts + Times(maxAttempts, steps, CrashedAfterSend, i) + Total(w.sending, HasSent(i), n)
  {
    RunIsBalanced(maxAttempts, n, steps, i);
  }

  /**
   With n dispatchers a row's counter stays below maxAttempts + n, plus one for every attempt that was
   counted twice, and in any case below maxAttempts + 2n: it is checked when a row is claimed, and only
   the dispatchers that already hold the row can still count.
   */
  lemma CounterIsBounded(maxAttempts: nat, n: nat, steps: seq<Step>, i: nat)
    requires n > 0 && OnlyFirstClaim(n, steps) && i < |Run(maxAttempts, steps).rows|
    ensures var attempts := Run(maxAttempts, steps).rows[i].publishAttempts;
      && attempts <= maxAttempts + n - 1 + Times(maxAttempts, steps, Doubled, i)
      && attempts <= maxAttempts + 2 * n - 1
  {
    RunIsBalanced(maxAttempts, n, steps, i);
  }

  // --- the counter does not bound the sends

  /** Insert, and then k times claim, send and crash. */
  function CrashLoop(m: Message, k: nat): seq<Step>
  {
    if k == 0 then [Insert(m)] else CrashLoop(m, k - 1) + [Claim(0, [0], {}, 1)] + [Send(0)] + [Crash(0)]
  }

  lemma RunSnoc(maxAttempts: nat, steps: seq<Step>, step: Step)
    ensures Run(maxAttempts, steps + [step]) == Next(maxAttempts, Run(maxAttempts, steps), step)
  {
    assert (steps + [step])[..|steps|] == steps;
  }

  function Repeat(m: Message, k: nat): (copies: seq<Message>)
    ensures |copies| == k
    ensures multiset(copies)[m] == k
  {
    if k == 0 then [] else Repeat(m, k - 1) + [m]
  }

  function Copied(m: Message, k: nat): World
  {
    INITIAL.(rows := [NewRow(m)], stream := Repeat(m, k))
  }

  lemma OneCrash(maxAttempts: nat, m: Message, k: nat)
    requires maxAttempts > 0
    ensures var sent := Next(maxAttempts, Next(maxAttempts, Copied(m, k), Claim(0, [0], {}, 1)), Send(0));
      Next(maxAttempts, sent, Crash(0))
         == Copied(m, k + 1)
  {
    var w := Copied(m, k);
    var claimed := Next(maxAttempts, w, Claim(0, [0], {}, 1));
    assert claimed == w.(sending := map[0 := Sending([0], false)]) by {
      assert Claimable(w.rows, 0, {}, maxAttempts);
      assert ClaimOk(w.rows, [0], {}, 1, maxAttempts);
      assert w.sending[0 := Sending([0], false)] == map[0 := Sending([0], false)];
    }
    var sent := Next(maxAttempts, claimed, Send(0));
    assert sent.stream == Repeat(m, k + 1);
    assert sent.sending - {0} == map[];
  }

  lemma RunThree(maxAttempts: nat, steps: seq<Step>, a: Step, b: Step, c: Step)
    ensures Run(maxAttempts, steps + [a] + [b] + [c])
         == Next(maxAttempts, Next(maxAttempts, Next(maxAttempts, Run(maxAttempts, steps), a), b), c)
  {
    RunSnoc(maxAttempts, steps, a);
    RunSnoc(maxAttempts, steps + [a], b);
    RunSnoc(maxAttempts, steps + [a] + [b], c);
  }

  lemma AfterInsert(maxAttempts: nat, m: Message)
    ensures Run(maxAttempts, [Insert(m)]) == Copied(m, 0)
  {
    var inserted := Next(maxAttempts, INITIAL, Insert(m));
    assert [Insert(m)][..0] == [];
    assert inserted.rows == [NewRow(m)];
  }

  lemma {:induction false} CrashLoopRun(maxAttempts: nat, m: Message, k: nat)
    requires maxAttempts > 0
    ensures Run(maxAttempts, CrashLoop(m, k)) == Copied(m, k)
  {
    if k == 0 {
      AfterInsert(maxAttempts, m);
    } else {
      CrashLoopRun(maxAttempts, m, k - 1);
      RunThree(maxAttempts, CrashLoop(m, k - 1), Claim(0, [0], {}, 1), Send(0), Crash(0));
      OneCrash(maxAttempts, m, k - 1);
    }
  }

  lemma {:induction false} CrashLoopClaims(m: Message, k: nat)
    ensures OnlyFirstClaim(1, CrashLoop(m, k))
  {
    if k > 0 {
      CrashLoopClaims(m, k - 1);
    }
  }

  /**
   However few attempts are allowed, one dispatcher can put any number of copies on the stream at a counter of
   zero.
   */
  lemma CrashesSendWithoutBound(maxAttempts: nat, m: Message, k: nat) returns (steps: seq<Step>)
    requires maxAttempts > 0
    ensures OnlyFirstClaim(1, steps)
    ensures var w := Run(maxAttempts, steps);
      |w.rows| == 1 && w.rows[0].message == m && w.rows[0].publishAttempts == 0 && Copies(w, 0) == k
  {
    steps := CrashLoop(m, k);
    CrashLoopClaims(m, k);
    CrashLoopRun(maxAttempts, m, k);
  }

  lemma DoubleCount(w: World, maxAttempts: nat, now: int, error: string)
    requires maxAttempts > 0 && w.sending == map[] && |w.rows| == 1 && Eligible(w.rows[0], maxAttempts)
    ensures var sent := Next(maxAttempts, Next(maxAttempts, w, Claim(0, [0], {}, 1)), Send(0));
      var after := Next(maxAttempts, sent, MarkTwice(0, now, error));
      |after.rows| == 1 && after.rows[0].publishAttempts == w.rows[0].publishAttempts + 2
  {
    assert Claimable(w.rows, 0, {}, maxAttempts);
    assert ClaimOk(w.rows, [0], {}, 1, maxAttempts);
  }

  /** An update that takes effect and is reported as failed: a row allowed one attempt ends at a counter of two. */
  lemma CountedTwicePassesLimit(maxAttempts: nat, m: Message, now: int, error: string) returns (steps: seq<Step>)
    requires maxAttempts == 1
    ensures OnlyFirstClaim(1, steps)
    ensures var w := Run(maxAttempts, steps); |w.rows| == 1 && w.rows[0].publishAttempts == 2
  {
    var claim := Claim(0, [0], {}, 1);
    CrashLoopRun(maxAttempts, m, 0);
    CrashLoopClaims(m, 0);
    RunThree(maxAttempts, CrashLoop(m, 0), claim, Send(0), MarkTwice(0, now, error));
    steps := CrashLoop(m, 0) + [claim] + [Send(0)] + [MarkTwice(0, now, error)];
    DoubleCount(Copied(m, 0), maxAttempts, now, error);
  }
}
