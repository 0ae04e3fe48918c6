/**
 How often handlers do their work for one slot: once, and once more for every completion that is lost, as its
 client then clears the record.
 */
module IdempotencyOnce {
  import opened CanonicalJson
  import opened Idempotency
  import opened IdempotencyProtocol
  import opened IdempotencyReplay

  predicate OnSlot(s: State, c: nat, slot: Slot)
  {
    c in s.clients && s.clients[c].req.slot == slot
  }

  /** A handler returns to a client that executes for the slot. */
  predicate ReturnsAt(s: State, a: Action, slot: Slot)
  {
    a.HandlerReturns? && OnSlot(s, a.c, slot) && s.clients[a.c].Executing?
  }

  /** The update that completes the slot's record fails without effect. */
  predicate LosesAt(s: State, a: Action, slot: Slot)
  {
    a.Complete? && a.fault == Lost && OnSlot(s, a.c, slot) && s.clients[a.c].Completing?
  }

  function Returns(actions: seq<Action>, slot: Slot): (n: nat)
  {
    if |actions| == 0 then 0
    else
      var init := actions[..|actions| - 1];
      Returns(init, slot) + if ReturnsAt(Run(init), actions[|actions| - 1], slot) then 1 else 0
  }

  function LostCompletions(actions: seq<Action>, slot: Slot): (n: nat)
  {
    if |actions| == 0 then 0
    else
      var init := actions[..|actions| - 1];
      LostCompletions(init, slot) + if LosesAt(Run(init), actions[|actions| - 1], slot) then 1 else 0
  }

  predicate IsCompleted(s: State, slot: Slot)
  {
    slot in s.table.records && s.table.records[slot].status == COMPLETED
  }

  /** Nobody can get to execute for the slot any more, unless a completion is lost. */
  ghost predicate Used(s: State, slot: Slot)
  {
    && slot in s.table.records
    && forall c :: OnSlot(s, c, slot) ==>
         !s.clients[c].Executing? && (s.clients[c].Clearing? ==> IsCompleted(s, slot))
  }

  /** A handler's answer is stored or about to be. */
  ghost predicate HasAnswer(s: State, slot: Slot)
  {
    IsCompleted(s, slot) || exists c :: OnSlot(s, c, slot) && s.clients[c].Completing?
  }

  ghost predicate Counted(s: State, slot: Slot, returned: nat, lost: nat)
  {
    && lost <= returned <= lost + 1
    && (returned == lost + 1 ==> Used(s, slot))
    && (HasAnswer(s, slot) ==> returned == lost + 1)
  }

  lemma UsedRecordStays(s: State, a: Action, slot: Slot)
    requires Inv(s) && Used(s, slot)
    ensures slot in Step(s, a).table.records
    ensures IsCompleted(s, slot) ==> IsCompleted(Step(s, a), slot)
  {
    if IsCompleted(s, slot) {
      StepKeepsCompleted(s, a, slot);
    } else if a.c in s.clients {
      assert ClientOk(s.table, s.clients[a.c]);
    }
  }

  lemma UsedStays(s: State, a: Action, slot: Slot)
    requires Inv(s) && Used(s, slot) && !LosesAt(s, a, slot)
    ensures Used(Step(s, a), slot)
  {
    UsedRecordStays(s, a, slot);
    if OnSlot(s, a.c, slot) {
      MoverStaysUsed(s, a, slot);
    }
  }

  lemma MoverStaysUsed(s: State, a: Action, slot: Slot)
    requires Inv(s) && Used(s, slot) && !LosesAt(s, a, slot) && OnSlot(s, a.c, slot)
    ensures a.c in Step(s, a).clients && !Step(s, a).clients[a.c].Executing?
    ensures Step(s, a).clients[a.c].Clearing? ==> IsCompleted(Step(s, a), slot)
  {
    assert ClientOk(s.table, s.clients[a.c]);
  }

  lemma ReturnUses(s: State, a: Action, slot: Slot)
    requires Inv(s) && ReturnsAt(s, a, slot)
    ensures Used(Step(s, a), slot) && !Used(s, slot)
  {
    assert ClientOk(s.table, s.clients[a.c]);
  }

  /** An answer comes from a handler's return. */
  lemma AnswerBegins(s: State, a: Action, slot: Slot)
    requires Inv(s) && HasAnswer(Step(s, a), slot) && !ReturnsAt(s, a, slot)
    ensures HasAnswer(s, slot)
  {
    if IsCompleted(Step(s, a), slot) {
      if !(slot in s.table.records && s.table.records[slot] == Step(s, a).table.records[slot]) {
        CompletedBegins(s, a, slot);
      }
    } else {
      var c :| OnSlot(Step(s, a), c, slot) && Step(s, a).clients[c].Completing?;
      if !(c in s.clients && s.clients[c] == Step(s, a).clients[c]) {
        CompletingBegins(s, a, c);
      }
    }
  }

  lemma LossLosesAnswer(s: State, a: Action, slot: Slot)
    requires Inv(s) && LosesAt(s, a, slot)
    ensures !HasAnswer(Step(s, a), slot)
  {
    assert ClientOk(s.table, s.clients[a.c]);
  }

  lemma LossHadAnswer(s: State, a: Action, slot: Slot)
    requires LosesAt(s, a, slot)
    ensures HasAnswer(s, slot) && !ReturnsAt(s, a, slot)
  {
  }

  lemma {:induction false} CountedAlways(actions: seq<Action>, slot: Slot)
    ensures Counted(Run(actions), slot, Returns(actions, slot), LostCompletions(actions, slot))
  {
    if |actions| > 0 {
      var init, a := actions[..|actions| - 1], actions[|actions| - 1];
      var s := Run(init);
      CountedAlways(init, slot);
      InvHolds(init);
      if ReturnsAt(s, a, slot) {
        ReturnUses(s, a, slot);
      } else {
        if LosesAt(s, a, slot) {
          LossHadAnswer(s, a, slot);
          LossLosesAnswer(s, a, slot);
        } else if Used(s, slot) {
          UsedStays(s, a, slot);
        }
        if HasAnswer(Step(s, a), slot) {
          AnswerBegins(s, a, slot);
        }
      }
    }
  }

  /**
   In every run the handler returns of a slot are as many as its lost completions, or one more; one more if an answer
   is stored. So if no completion is lost the handler's work is done at most once.
   */
  lemma ReturnsOnceAndOncePerLoss(actions: seq<Action>, slot: Slot)
    ensures LostCompletions(actions, slot) <= Returns(actions, slot) <= LostCompletions(actions, slot) + 1
    ensures IsCompleted(Run(actions), slot) ==> Returns(actions, slot) == LostCompletions(actions, slot) + 1
  {
    CountedAlways(actions, slot);
  }

  // --- as often as completions are lost

  lemma Snoc(actions: seq<Action>, a: Action, slot: Slot)
    ensures Run(actions + [a]) == Step(Run(actions), a)
    ensures Returns(actions + [a], slot) == Returns(actions, slot) + if ReturnsAt(Run(actions), a, slot) then 1 else 0
    ensures LostCompletions(actions + [a], slot)
         == LostCompletions(actions, slot) + if LosesAt(Run(actions), a, slot) then 1 else 0
  {
    assert (actions + [a])[..|actions|] == actions;
  }

  /** The client with nobody in its way. */
  predicate IsFree(s: State, c: nat, slot: Slot)
  {
    slot !in s.table.records && c !in s.clients
  }

  function Begin(c: nat, req: Request): seq<Action> { [Arrive(c, req), Find(c), TryCreate(c, NoFault)] }

  function Executes(s: State, c: nat, req: Request): State
    requires IsFree(s, c, req.slot)
  {
    State(Create(s.table, req.slot, req.hash).value, s.clients[c := Executing(req, s.table.nextId)])
  }

  lemma Begins(actions: seq<Action>, c: nat, req: Request)
    requires IsFree(Run(actions), c, req.slot)
    ensures var all := actions + Begin(c, req);
      && Run(all) == Executes(Run(actions), c, req)
      && Returns(all, req.slot) == Returns(actions, req.slot)
      && LostCompletions(all, req.slot) == LostCompletions(actions, req.slot)
  {
    var first, second := actions + [Arrive(c, req)], actions + [Arrive(c, req)] + [Find(c)];
    Snoc(actions, Arrive(c, req), req.slot);
    Snoc(first, Find(c), req.slot);
    Snoc(second, TryCreate(c, NoFault), req.slot);
    assert actions + Begin(c, req) == second + [TryCreate(c, NoFault)];
    assert Run(first).clients == Run(actions).clients[c := Finding(req)];
    assert Run(second).clients == Run(actions).clients[c := Creating(req)];
  }

  function End(c: nat): seq<Action> { [HandlerReturns(c, 200, Null), Complete(c, Lost), Clear(c, NoFault)] }

  lemma LossStep(s: State, c: nat, req: Request, id: nat)
    requires c in s.clients && s.clients[c] == Completing(req, id, 200, Null)
    ensures Step(s, Complete(c, Lost)) == State(s.table, s.clients[c := Clearing(req, id)])
    ensures LosesAt(s, Complete(c, Lost), req.slot) && !ReturnsAt(s, Complete(c, Lost), req.slot)
  {
  }

  lemma ClearStep(s: State, c: nat, req: Request, id: nat)
    requires c in s.clients && s.clients[c] == Clearing(req, id)
    requires req.slot in s.table.records && s.table.records[req.slot].id == id
    requires s.table.records[req.slot].status == PENDING
    ensures var after := Step(s, Clear(c, NoFault));
      req.slot !in after.table.records && after.clients.Keys == s.clients.Keys
    ensures !LosesAt(s, Clear(c, NoFault), req.slot) && !ReturnsAt(s, Clear(c, NoFault), req.slot)
  {
  }

  /** The completion is lost and the record is cleared. */
  lemma LosesAndClears(actions: seq<Action>, c: nat, req: Request, id: nat)
    requires var s := Run(actions);
      && c in s.clients && s.clients[c] == Completing(req, id, 200, Null)
      && req.slot in s.table.records && s.table.records[req.slot].id == id
      && s.table.records[req.slot].status == PENDING
    ensures var all := actions + [Complete(c, Lost)] + [Clear(c, NoFault)];
      && req.slot !in Run(all).table.records && Run(all).clients.Keys == Run(actions).clients.Keys
      && Returns(all, req.slot) == Returns(actions, req.slot)
      && LostCompletions(all, req.slot) == LostCompletions(actions, req.slot) + 1
  {
    var first := actions + [Complete(c, Lost)];
    Snoc(actions, Complete(c, Lost), req.slot);
    LossStep(Run(actions), c, req, id);
    Snoc(first, Clear(c, NoFault), req.slot);
    ClearStep(Run(first), c, req, id);
  }

  lemma Ends(actions: seq<Action>, before: State, c: nat, req: Request)
    requires IsFree(before, c, req.slot) && Run(actions) == Executes(before, c, req)
    ensures var all := actions + End(c);
      && req.slot !in Run(all).table.records && Run(all).clients.Keys == before.clients.Keys + {c}
      && Returns(all, req.slot) == Returns(actions, req.slot) + 1
      && LostCompletions(all, req.slot) == LostCompletions(actions, req.slot) + 1
  {
    var first := actions + [HandlerReturns(c, 200, Null)];
    Snoc(actions, HandlerReturns(c, 200, Null), req.slot);
    assert Run(first).clients == before.clients[c := Completing(req, before.table.nextId, 200, Null)];
    LosesAndClears(first, c, req, before.table.nextId);
    assert actions + End(c) == first + [Complete(c, Lost)] + [Clear(c, NoFault)];
  }

  lemma OneRound(actions: seq<Action>, c: nat, req: Request)
    requires IsFree(Run(actions), c, req.slot)
    ensures var all := actions + Begin(c, req) + End(c);
      && req.slot !in Run(all).table.records && Run(all).clients.Keys == Run(actions).clients.Keys + {c}
      && Returns(all, req.slot) == Returns(actions, req.slot) + 1
      && LostCompletions(all, req.slot) == LostCompletions(actions, req.slot) + 1
  {
    Begins(actions, c, req);
    Ends(actions + Begin(c, req), Run(actions), c, req);
  }

  /** One client after the other executes, loses its completion and clears. */
  function Rounds(k: nat, req: Request): seq<Action>
  {
    if k == 0 then [] else Rounds(k - 1, req) + Begin(k - 1, req) + End(k - 1)
  }

  /** The first k clients have been there, and nothing is left of it but the counts. */
  ghost predicate AfterRounds(actions: seq<Action>, slot: Slot, k: nat)
  {
    && slot !in Run(actions).table.records
    && (forall c: nat :: c in Run(actions).clients ==> c < k)
    && Returns(actions, slot) == k && LostCompletions(actions, slot) == k
  }

  lemma OneMoreRound(actions: seq<Action>, k: nat, req: Request)
    requires AfterRounds(actions, req.slot, k)
    ensures AfterRounds(actions + Begin(k, req) + End(k), req.slot, k + 1)
  {
    OneRound(actions, k, req);
  }

  lemma {:induction false} RoundsRepeat(k: nat, req: Request)
    ensures AfterRounds(Rounds(k, req), req.slot, k)
  {
    if k > 0 {
      RoundsRepeat(k - 1, req);
      OneMoreRound(Rounds(k - 1, req), k - 1, req);
    } else {
      assert Rounds(k, req) == [];
    }
  }

  /** After k lost completions the next client executes: its handler's return is number k + 1 for the same request. */
  lemma LostCompletionsRepeatWork(k: nat, req: Request)
    ensures var actions := Rounds(k, req) + Begin(k, req) + [HandlerReturns(k, 200, Null)];
      Returns(actions, req.slot) == k + 1 && LostCompletions(actions, req.slot) == k
  {
    RoundsRepeat(k, req);
    Begins(Rounds(k, req), k, req);
    Snoc(Rounds(k, req) + Begin(k, req), HandlerReturns(k, 200, Null), req.slot);
  }
}
