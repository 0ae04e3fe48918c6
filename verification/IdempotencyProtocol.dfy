/**
 Many clients at once. Each client's request runs as separate database operations, with other clients'
 operations, lost or unreported writes, and crashes anywhere in between.
 */
module IdempotencyProtocol {
  import opened Wrappers
  import opened CanonicalJson
  import opened CanonicalJsonProperties
  import opened Idempotency

  datatype Request = Request(slot: Slot, hash: Units, body: Json)

  datatype Outcome =
    | Executed(statusCode: int, body: Json)
    | Replayed(statusCode: int, body: Json)
    | Conflicted
    | NoLock
    | Errored
    | Crashed

  /** Where a client is between its database operations. */
  datatype Client =
    | Finding(req: Request)
    | Creating(req: Request)
    | Refinding(req: Request)
    | Executing(req: Request, recordId: nat)
    | Completing(req: Request, recordId: nat, statusCode: int, body: Json)
    | Clearing(req: Request, recordId: nat)
    | Done(req: Request, outcome: Outcome)

  datatype State = State(table: Table, clients: map<nat, Client>)

  /** A write may succeed, fail without effect, or take effect and still be reported as failed. */
  datatype Fault = NoFault | Lost | Unreported

  datatype Action =
    | Arrive(c: nat, req: Request)
    | Find(c: nat)
    | TryCreate(c: nat, fault: Fault)
    | Refind(c: nat)
    | HandlerReturns(c: nat, statusCode: int, body: Json)
    | HandlerThrows(c: nat)
    | Complete(c: nat, fault: Fault)
    | Clear(c: nat, fault: Fault)
    | Crash(c: nat)

  function Answer(req: Request, decision: Decision): Client
  {
    match decision
    case Replay(statusCode, body) => Done(req, Replayed(statusCode, body))
    case CreateFailed => Done(req, NoLock)
    case _ => Done(req, Conflicted)
  }

  function AfterFind(table: Table, req: Request): Client
  {
    match FindByKey(table, req.slot)
    case Some(record) => Answer(req, Decide(record, req.hash))
    case None => Creating(req)
  }

  function AfterRefind(table: Table, req: Request): Client
  {
    match FindByKey(table, req.slot)
    case Some(record) => Answer(req, Decide(record, req.hash))
    case None => Answer(req, CreateFailed)
  }

  /** Any error on the insert is taken for a unique violation. */
  function AfterCreate(table: Table, req: Request, fault: Fault): (Table, Client)
  {
    match Create(table, req.slot, req.hash)
    case None => (table, Refinding(req))
    case Some(created) =>
      match fault
      case NoFault => (created, Executing(req, table.nextId))
      case Lost => (table, Refinding(req))
      case Unreported => (created, Refinding(req))
  }

  /** An update that finds no row throws, like any other error, and the client goes on to clear. */
  function AfterComplete(
    table: Table, req: Request, recordId: nat, statusCode: int, body: Json, fault: Fault)
    : (Table, Client)
  {
    if !HasId(table, recordId) || fault == Lost then (table, Clearing(req, recordId))
    else
      (MarkCompleted(table, recordId, statusCode, body),
       if fault == NoFault then Done(req, Executed(statusCode, body)) else Clearing(req, recordId))
  }

  function Move(s: State, c: nat, table: Table, client: Client): State
  {
    State(table, s.clients[c := client])
  }

  function Step(s: State, a: Action): State
  {
    if a.Arrive? then
      if a.c in s.clients then s else Move(s, a.c, s.table, Finding(a.req))
    else if a.c !in s.clients then s
    else
      match (a, s.clients[a.c])
      case (Find(c), Finding(req)) => Move(s, c, s.table, AfterFind(s.table, req))
      case (TryCreate(c, fault), Creating(req)) =>
        var (table, client) := AfterCreate(s.table, req, fault);
        Move(s, c, table, client)
      case (Refind(c), Refinding(req)) => Move(s, c, s.table, AfterRefind(s.table, req))
      case (HandlerReturns(c, statusCode, body), Executing(req, id)) =>
        Move(s, c, s.table, Completing(req, id, statusCode, body))
      case (HandlerThrows(c), Executing(req, id)) => Move(s, c, s.table, Clearing(req, id))
      case (Complete(c, fault), Completing(req, id, statusCode, body)) =>
        var (table, client) := AfterComplete(s.table, req, id, statusCode, body, fault);
        Move(s, c, table, client)
      case (Clear(c, fault), Clearing(req, id)) =>
        Move(s, c, if fault == Lost then s.table else ClearPending(s.table, id), Done(req, Errored))
      case (Crash(c), client) => if client.Done? then s else Move(s, c, s.table, Done(client.req, Crashed))
      case (_, _) => s
  }

  function Run(actions: seq<Action>): (s: State)
  {
    if |actions| == 0 then State(Table(map[], 0), map[])
      else Step(Run(actions[..|actions| - 1]), actions[|actions| - 1])
  }

  // --- invariant

  /** The client was told to execute, and its handler's result is not stored yet. */
  predicate Holds(client: Client)
  {
    client.Executing? || client.Completing?
  }

  predicate OwnsRecord(client: Client)
  {
    Holds(client) || client.Clearing?
  }

  ghost predicate TableOk(table: Table)
  {
    && (forall s :: s in table.records ==> table.records[s].id < table.nextId)
    && (forall s, t :: s in table.records && t in table.records && table.records[s].id == table.records[t].id ==>
          s == t)
    && (forall s :: s in table.records && table.records[s].status == COMPLETED ==>
          table.records[s].responseStatus.Some?)
  }

  ghost predicate StoredFor(table: Table, req: Request, statusCode: int, body: Json)
  {
    && req.slot in table.records
    && var record := table.records[req.slot];
      record.status == COMPLETED && record.requestHash == req.hash
      && record.responseStatus == Some(statusCode) && record.responseBody == body
  }

  ghost predicate ClientOk(table: Table, client: Client)
  {
    && (OwnsRecord(client) ==>
         && client.req.slot in table.records
         && table.records[client.req.slot].id == client.recordId
         && table.records[client.req.slot].requestHash == client.req.hash)
    && (Holds(client) ==> table.records[client.req.slot].status == PENDING)
    && (client.Done? && client.outcome.Executed? ==>
          StoredFor(table, client.req, client.outcome.statusCode, client.outcome.body))
    && (client.Done? && client.outcome.Replayed? ==>
          StoredFor(table, client.req, client.outcome.statusCode, client.outcome.body))
  }

  /** The client has, or had and completed, the lock of its slot. */
  predicate Winner(client: Client)
  {
    OwnsRecord(client) || (client.Done? && client.outcome.Executed?)
  }

  ghost predicate Inv(s: State)
  {
    && TableOk(s.table)
    && (forall c :: c in s.clients ==> ClientOk(s.table, s.clients[c]))
    && (forall c, d :: c in s.clients && d in s.clients && c != d && Winner(s.clients[c]) && Winner(s.clients[d]) ==>
          s.clients[c].req.slot != s.clients[d].req.slot)
  }

  /** What a step may do to the table as seen by one slot's other clients. */
  ghost predicate KeepsSlot(before: Table, after: Table, slot: Slot)
  {
    (slot in before.records <==> slot in after.records)
    && (slot in before.records ==> after.records[slot] == before.records[slot])
  }

  /** A step of one client changes the table at its own slot only. */
  lemma StepTouchesOwnSlot(s: State, a: Action, slot: Slot)
    requires Inv(s) && a.c in s.clients && slot != s.clients[a.c].req.slot
    ensures KeepsSlot(s.table, Step(s, a).table, slot)
  {
  }

  lemma CreateKeepsTableOk(table: Table, slot: Slot, hash: Units)
    requires TableOk(table)
    ensures Create(table, slot, hash).Some? ==> TableOk(Create(table, slot, hash).value)
  {
  }

  lemma CompleteKeepsTableOk(table: Table, id: nat, statusCode: int, body: Json)
    requires TableOk(table)
    ensures TableOk(MarkCompleted(table, id, statusCode, body))
  {
  }

  lemma ClearKeepsTableOk(table: Table, id: nat)
    requires TableOk(table)
    ensures TableOk(ClearPending(table, id))
  {
  }

  lemma StepKeepsTableOk(s: State, a: Action)
    requires TableOk(s.table)
    ensures TableOk(Step(s, a).table)
  {
    if a.c in s.clients {
      match s.clients[a.c]
      case Creating(req) => CreateKeepsTableOk(s.table, req.slot, req.hash);
      case Completing(_, id, statusCode, body) => CompleteKeepsTableOk(s.table, id, statusCode, body);
      case Clearing(_, id) => ClearKeepsTableOk(s.table, id);
      case _ =>
    }
  }

  /** A completed record stays as it is through any step. */
  lemma StepKeepsCompleted(s: State, a: Action, slot: Slot)
    requires Inv(s) && slot in s.table.records && s.table.records[slot].status == COMPLETED
    ensures KeepsSlot(s.table, Step(s, a).table, slot)
  {
    if a.c in s.clients && s.clients[a.c].Completing? {
      assert ClientOk(s.table, s.clients[a.c]);
    }
  }

  /** The client that moves: its record, and the answer it was given, match the table. */
  lemma MoverIsOk(s: State, a: Action)
    requires Inv(s) && a.c in s.clients
    ensures a.c in Step(s, a).clients && ClientOk(Step(s, a).table, Step(s, a).clients[a.c])
    ensures Step(s, a).clients[a.c].req == s.clients[a.c].req
  {
    assert ClientOk(s.table, s.clients[a.c]);
  }

  /** Everybody else's record and answer still match the table. */
  lemma OthersStayOk(s: State, a: Action, d: nat)
    requires Inv(s) && a.c in s.clients && d in s.clients && d != a.c
    ensures ClientOk(Step(s, a).table, s.clients[d])
  {
    var slot := s.clients[d].req.slot;
    assert ClientOk(s.table, s.clients[d]) && ClientOk(s.table, s.clients[a.c]);
    if slot != s.clients[a.c].req.slot {
      StepTouchesOwnSlot(s, a, slot);
    } else if slot in s.table.records && s.table.records[slot].status == COMPLETED {
      StepKeepsCompleted(s, a, slot);
    }
  }

  /** Only an insert makes a client a winner, and then nobody else has won its slot. */
  lemma MoverWinsAlone(s: State, a: Action, d: nat)
    requires Inv(s) && a.c in s.clients && d in s.clients && d != a.c
    requires Winner(Step(s, a).clients[a.c]) && Winner(s.clients[d])
    ensures s.clients[d].req.slot != s.clients[a.c].req.slot
  {
    assert ClientOk(s.table, s.clients[d]);
  }

  lemma StepKeepsClients(s: State, a: Action)
    requires Inv(s) && a.c in s.clients
    ensures Step(s, a).clients.Keys == s.clients.Keys
    ensures forall d :: d in s.clients && d != a.c ==> Step(s, a).clients[d] == s.clients[d]
  {
  }

  lemma StepKeepsRequest(s: State, a: Action, c: nat)
    requires c in s.clients
    ensures c in Step(s, a).clients && Step(s, a).clients[c].req == s.clients[c].req
    ensures a.c != c ==> Step(s, a).clients[c] == s.clients[c]
  {
  }

  lemma StepKeepsInv(s: State, a: Action)
    requires Inv(s)
    ensures Inv(Step(s, a))
  {
    StepKeepsTableOk(s, a);
    if a.c in s.clients {
      MoverIsOk(s, a);
      StepKeepsClients(s, a);
      forall d | d in s.clients && d != a.c ensures ClientOk(Step(s, a).table, s.clients[d]) {
        OthersStayOk(s, a, d);
      }
      forall d | d in s.clients && d != a.c && Winner(Step(s, a).clients[a.c]) && Winner(s.clients[d])
        ensures s.clients[d].req.slot != s.clients[a.c].req.slot
      {
        MoverWinsAlone(s, a, d);
      }
      InvFromParts(s, Step(s, a), a.c);
    }
  }

  /** The state after a step of client c satisfies the invariant if c does and nobody else was disturbed. */
  lemma InvFromParts(s: State, after: State, c: nat)
    requires Inv(s) && TableOk(after.table) && c in s.clients
    requires after.clients.Keys == s.clients.Keys
    requires forall d :: d in s.clients && d != c ==> after.clients[d] == s.clients[d]
    requires after.clients[c].req == s.clients[c].req && ClientOk(after.table, after.clients[c])
    requires forall d :: d in s.clients && d != c ==> ClientOk(after.table, s.clients[d])
    requires forall d :: d in s.clients && d != c && Winner(after.clients[c]) && Winner(s.clients[d]) ==>
      s.clients[d].req.slot != s.clients[c].req.slot
    ensures Inv(after)
  {
  }

  lemma {:induction false} InvHolds(actions: seq<Action>)
    ensures Inv(Run(actions))
  {
    if |actions| > 0 {
      InvHolds(actions[..|actions| - 1]);
      StepKeepsInv(Run(actions[..|actions| - 1]), actions[|actions| - 1]);
    }
  }

  // --- what clients can rely on

  /**
   In every run at most one client at a time is executing for a slot, and once one has been told that its completion
   is stored, nobody executes for the slot or is told so again.
   */
  lemma AtMostOneExecutes(actions: seq<Action>, c: nat, d: nat)
    requires var clients := Run(actions).clients;
      && c in clients && d in clients && c != d && clients[c].req.slot == clients[d].req.slot
      && (Holds(clients[c]) || (clients[c].Done? && clients[c].outcome.Executed?))
    ensures var other := Run(actions).clients[d];
      !Holds(other) && !(other.Done? && other.outcome.Executed?)
  {
    InvHolds(actions);
  }

  /** Once a slot is completed its record never changes, and nobody is executing for it. */
  lemma {:induction false} CompletedIsFinal(actions: seq<Action>, n: nat, slot: Slot)
    requires n <= |actions|
    requires slot in Run(actions[..n]).table.records && Run(actions[..n]).table.records[slot].status == COMPLETED
    ensures slot in Run(actions).table.records
    ensures Run(actions).table.records[slot] == Run(actions[..n]).table.records[slot]
    ensures forall c :: c in Run(actions).clients && Run(actions).clients[c].req.slot == slot ==>
      !Holds(Run(actions).clients[c])
  {
    InvHolds(actions);
    if n == |actions| {
      assert actions[..n] == actions;
    } else {
      var init := actions[..|actions| - 1];
      assert init[..n] == actions[..n];
      CompletedIsFinal(init, n, slot);
      InvHolds(init);
      StepKeepsCompleted(Run(init), actions[|actions| - 1], slot);
    }
    forall c | c in Run(actions).clients && Run(actions).clients[c].req.slot == slot
      ensures !Holds(Run(actions).clients[c]) {
      assert ClientOk(Run(actions).table, Run(actions).clients[c]);
    }
  }

  /** How a request that arrives for a completed slot can stand. */
  ghost predicate LateClient(client: Client, record: Record)
  {
    || client.Finding?
    || (client.Done? && client.outcome == Crashed)
    || (client.Done? && client.req.hash == record.requestHash && record.responseStatus.Some?
        && client.outcome == Replayed(record.responseStatus.value, record.responseBody))
    || (client.Done? && client.req.hash != record.requestHash && client.outcome == Conflicted)
  }

  /** A late client moves only by looking its slot up, which answers it, or by crashing. */
  lemma LateMove(s: State, a: Action, slot: Slot)
    requires slot in s.table.records && s.table.records[slot].status == COMPLETED
    requires s.table.records[slot].responseStatus.Some?
    requires a.c in s.clients && s.clients[a.c].req.slot == slot && LateClient(s.clients[a.c], s.table.records[slot])
    ensures a.c in Step(s, a).clients && LateClient(Step(s, a).clients[a.c], s.table.records[slot])
  {
  }

  /**
   A request that first looks at its slot after it is completed is never executed: with the stored hash
   it is answered with exactly the stored status and body, with any other hash it is refused.
   */
  lemma {:induction false} LateRequestsReplayOrConflict(actions: seq<Action>, n: nat, slot: Slot, c: nat)
    requires n <= |actions|
    requires slot in Run(actions[..n]).table.records && Run(actions[..n]).table.records[slot].status == COMPLETED
    requires c in Run(actions[..n]).clients ==> Run(actions[..n]).clients[c].Finding?
    requires c in Run(actions).clients && Run(actions).clients[c].req.slot == slot
    ensures LateClient(Run(actions).clients[c], Run(actions[..n]).table.records[slot])
  {
    if n == |actions| {
      assert actions[..n] == actions;
    } else {
      var init := actions[..|actions| - 1];
      assert init[..n] == actions[..n];
      InvHolds(init);
      CompletedIsFinal(init, n, slot);
      var s, a := Run(init), actions[|actions| - 1];
      if c in s.clients {
        StepKeepsRequest(s, a, c);
        LateRequestsReplayOrConflict(init, n, slot, c);
        if a.c == c {
          LateMove(s, a, slot);
        }
      }
    }
  }

  /** A client that clears removes its own pending record or nothing: every other slot keeps its record. */
  lemma ClearNeverRemovesAnothersRecord(actions: seq<Action>, c: nat, fault: Fault, slot: Slot)
    requires var s := Run(actions);
      && c in s.clients && s.clients[c].Clearing?
      && slot in s.table.records && slot !in Step(s, Clear(c, fault)).table.records
    ensures var s := Run(actions);
      && slot == s.clients[c].req.slot
      && s.table.records[slot].id == s.clients[c].recordId
      && s.table.records[slot].status == PENDING
      && forall d :: d in s.clients && d != c && s.clients[d].req.slot == slot ==> !OwnsRecord(s.clients[d])
  {
    InvHolds(actions);
    var s := Run(actions);
    assert ClientOk(s.table, s.clients[c]);
    ClearRemovesOnlyOwnPending(s.table, s.clients[c].recordId, slot);
  }

  /** Requests whose hash was computed from their body. */
  ghost predicate ProperRequest(digest: Units -> Units, req: Request)
  {
    WellFormed(req.body) && req.hash == digest(Payload(req.slot.requestMethod, req.slot.requestPath, Some(req.body)))
  }

  /**
   With an injective hash, a replayed answer is the answer that was given to the client that executed,
   and the two requests carried the same body but for the order of its keys.
   */
  lemma ReplayIsTheExecutedAnswer(digest: Units -> Units, actions: seq<Action>, c: nat, d: nat)
    requires Injective(digest)
    requires var clients := Run(actions).clients;
      && c in clients && d in clients && clients[c].req.slot == clients[d].req.slot
      && clients[c].Done? && clients[c].outcome.Executed?
      && clients[d].Done? && clients[d].outcome.Replayed?
      && ProperRequest(digest, clients[c].req) && ProperRequest(digest, clients[d].req)
    ensures var clients := Run(actions).clients;
      && clients[d].outcome == Replayed(clients[c].outcome.statusCode, clients[c].outcome.body)
      && SameValue(clients[c].req.body, clients[d].req.body)
  {
    InvHolds(actions);
    var s := Run(actions);
    assert ClientOk(s.table, s.clients[c]) && ClientOk(s.table, s.clients[d]);
    var slot := s.clients[c].req.slot;
    SameHashMeansSameBody(digest, slot.requestMethod, slot.requestPath, s.clients[c].req.body, s.clients[d].req.body);
  }
}
