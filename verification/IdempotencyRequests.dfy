/**
 What one undisturbed request through the interceptor amounts to: a run of the protocol, and with it that
 an answered request is replayed for good and one whose handler threw can be sent again.
 */
module IdempotencyRequests {
  import opened Wrappers
  import opened Text
  import opened CanonicalJson
  import opened CanonicalJsonProperties
  import opened Idempotency
  import opened IdempotencyProtocol

  /** The request names a key and keeps to its route's scope. */
  predicate IsAdmitted(http: Http)
  {
    !IsBlank(http.key) && (http.scope == "" || http.scope + ":" <= Trim(http.key))
  }

  function RequestOf(digest: Units -> Units, http: Http): Request
  {
    Request(SlotOf(http), digest(PayloadOf(http)), if http.body.Some? then http.body.value else Null)
  }

  // --- which requests share a record, and what is hashed

  lemma {:induction false} Utf16Append(a: string, b: string)
    ensures Utf16(a + b) == Utf16(a) + Utf16(b)
  {
    if |a| == 0 {
      assert a + b == b;
    } else {
      assert (a + b)[1..] == a[1..] + b;
      Utf16Append(a[1..], b);
    }
  }

  /** Where the first character of a text ends in its units, and which it is. */
  lemma FirstCharacter(a: string)
    requires |a| > 0
    ensures var u, x := Utf16(a), a[0] as int;
      if x < 0x10000 then
        |u| >= 1 && u[0] == x && !(0xd800 <= u[0] < 0xe000) && u[1..] == Utf16(a[1..])
      else
        && |u| >= 2 && 0xd800 <= u[0] < 0xdc00 && x == 0x10000 + (u[0] as int - 0xd800) * 0x400 + (u[1] as int - 0xdc00)
        && u[2..] == Utf16(a[1..])
  {
  }

  /** Different texts have different units. */
  lemma {:induction false} Utf16Separates(a: string, b: string)
    requires Utf16(a) == Utf16(b)
    ensures a == b
    decreases |a|
  {
    if |a| > 0 && |b| > 0 {
      FirstCharacter(a);
      FirstCharacter(b);
      assert a[0] as int == b[0] as int;
      Utf16Separates(a[1..], b[1..]);
      assert a == [a[0]] + a[1..] && b == [b[0]] + b[1..];
    } else if |a| > 0 {
      FirstCharacter(a);
    } else if |b| > 0 {
      FirstCharacter(b);
    }
  }

  lemma Utf16One(c: char)
    requires c as int < 0x10000
    ensures Utf16([c]) == [c as int]
  {
    assert [c][1..] == [];
  }

  /** What is hashed begins with the method and the path, each with a colon behind it; the body's text follows. */
  lemma PayloadReads(requestMethod: string, path: string, body: Option<Json>)
    ensures Payload(requestMethod, path, body)
         == Utf16(requestMethod + ":" + path + ":") + Print(CodeUnitLeq, if body.Some? then body.value else Null)
  {
    Utf16One(':');
    Utf16Append(requestMethod, ":");
    Utf16Append(requestMethod + ":", path);
    Utf16Append(requestMethod + ":" + path, ":");
  }

  lemma MethodsInUpperCase()
    ensures Upper("post") == Upper("Post") == "POST" && Upper("GET") == "GET"
  {
    assert UpperChar('p') == 'P' && UpperChar('o') == 'O' && UpperChar('s') == 'S' && UpperChar('t') == 'T';
    assert UpperChar('G') == 'G' && UpperChar('E') == 'E' && UpperChar('T') == 'T';
  }

  /**
   White space around the key and the case of the method make no difference; another method, another path or,
   with scopes, another scope makes another record.
   */
  lemma WhoSharesARecord(a: Http, b: Http)
    ensures SlotOf(a.(key := " " + a.key)) == SlotOf(a)
    ensures SlotOf(a.(requestMethod := "post")) == SlotOf(a.(requestMethod := "Post"))
    ensures SlotOf(a.(requestMethod := "post")) != SlotOf(a.(requestMethod := "GET"))
    ensures a.scope == b.scope && a.path != b.path ==> SlotOf(a) != SlotOf(b)
    ensures a.path == b.path && a.scope != b.scope && a.scope != "" && b.scope != "" ==> SlotOf(a) != SlotOf(b)
  {
    MethodsInUpperCase();
    BlankTail(" " + a.key);
    assert (" " + a.key)[1..] == a.key;
    PathsDiffer(a.scope, a.path, b.scope, b.path);
  }

  lemma PathsDiffer(s: string, p: string, t: string, q: string)
    ensures s == t && p != q ==> s + ":" + p != t + ":" + q
    ensures p == q && s != t ==> s + ":" + p != t + ":" + q
  {
    var x, y := s + ":" + p, t + ":" + q;
    if x == y && s == t {
      assert x[|s| + 1..] == p && y[|t| + 1..] == q;
    }
    if x == y && p == q {
      assert |x| == |s| + 1 + |p| && |y| == |t| + 1 + |q|;
      assert x[..|s|] == s && y[..|t|] == t;
    }
  }

  // --- a request is a run of the protocol

  /** What the client does after it was told to execute. */
  function Handling(c: nat, handler: HandlerResult): seq<Action>
  {
    match handler
    case Returned(statusCode, body) => [HandlerReturns(c, statusCode, body), Complete(c, NoFault)]
    case Threw => [HandlerThrows(c), Clear(c, NoFault)]
  }

  /** The client's steps, with nobody in between. */
  function Steps(free: bool, c: nat, req: Request, insertFails: bool, handler: HandlerResult): seq<Action>
  {
    if !free then [Arrive(c, req), Find(c)]
    else if insertFails then [Arrive(c, req), Find(c), TryCreate(c, Lost), Refind(c)]
    else [Arrive(c, req), Find(c), TryCreate(c, NoFault)] + Handling(c, handler)
  }

  /** How the protocol's client stands when the interceptor gives this response. */
  function OutcomeOf(response: Response): Outcome
  {
    match response
    case Answered(statusCode, body, replayed) =>
      if replayed then Replayed(statusCode, body) else Executed(statusCode, body)
    case Refused(decision) => if decision.CreateFailed? then NoLock else Conflicted
    case _ => Errored
  }

  function RunFrom(s: State, actions: seq<Action>): State
    decreases |actions|
  {
    if |actions| == 0 then s else RunFrom(Step(s, actions[0]), actions[1..])
  }

  lemma {:induction false} RunFromContinues(before: seq<Action>, actions: seq<Action>)
    ensures Run(before + actions) == RunFrom(Run(before), actions)
    decreases |actions|
  {
    if |actions| == 0 {
      assert before + actions == before;
    } else {
      var more := before + [actions[0]];
      assert more[..|more| - 1] == before;
      RunFromContinues(more, actions[1..]);
      assert more + actions[1..] == before + actions;
    }
  }

  lemma RunFromTwo(s: State, a: Action, b: Action)
    ensures RunFrom(s, [a, b]) == Step(Step(s, a), b)
  {
    var rest := [a, b][1..];
    assert rest == [b] && rest[1..] == [];
    assert RunFrom(Step(s, a), rest) == RunFrom(Step(Step(s, a), b), []);
  }

  lemma {:induction false} RunFromAppend(s: State, a: seq<Action>, b: seq<Action>)
    ensures RunFrom(s, a + b) == RunFrom(RunFrom(s, a), b)
    decreases |a|
  {
    if |a| == 0 {
      assert a + b == b;
    } else {
      assert (a + b)[0] == a[0] && (a + b)[1..] == a[1..] + b;
      RunFromAppend(Step(s, a[0]), a[1..], b);
    }
  }

  lemma ArriveAndFind(s: State, c: nat, req: Request)
    requires c !in s.clients
    ensures RunFrom(s, [Arrive(c, req), Find(c)]) == State(s.table, s.clients[c := AfterFind(s.table, req)])
  {
    RunFromTwo(s, Arrive(c, req), Find(c));
  }

  lemma Creates(s: State, c: nat, req: Request, fault: Fault)
    requires c in s.clients && s.clients[c] == Creating(req) && req.slot !in s.table.records && fault != Unreported
    ensures var after := Step(s, TryCreate(c, fault));
      if fault == NoFault then
        after == State(Create(s.table, req.slot, req.hash).value, s.clients[c := Executing(req, s.table.nextId)])
      else after == State(s.table, s.clients[c := Refinding(req)])
  {
  }

  lemma RefindsNothing(s: State, c: nat, req: Request)
    requires c in s.clients && s.clients[c] == Refinding(req) && req.slot !in s.table.records
    ensures Step(s, Refind(c)) == State(s.table, s.clients[c := Done(req, NoLock)])
  {
  }

  /** The table after the handler's result is taken in. */
  function AfterHandler(table: Table, id: nat, handler: HandlerResult): Table
  {
    match handler
    case Returned(statusCode, body) => MarkCompleted(table, id, statusCode, body)
    case Threw => ClearPending(table, id)
  }

  function HandlerOutcome(handler: HandlerResult): Outcome
  {
    match handler
    case Returned(statusCode, body) => Executed(statusCode, body)
    case Threw => Errored
  }

  lemma HandlerStep(s: State, c: nat, req: Request, id: nat, handler: HandlerResult)
    requires c in s.clients && s.clients[c] == Executing(req, id)
    ensures Step(s, Handling(c, handler)[0])
         == match handler
            case Returned(statusCode, body) => State(s.table, s.clients[c := Completing(req, id, statusCode, body)])
            case Threw => State(s.table, s.clients[c := Clearing(req, id)])
  {
  }

  lemma CompleteStep(s: State, c: nat, req: Request, id: nat, statusCode: int, body: Json)
    requires c in s.clients && s.clients[c] == Completing(req, id, statusCode, body) && HasId(s.table, id)
    ensures Step(s, Complete(c, NoFault))
         == State(MarkCompleted(s.table, id, statusCode, body), s.clients[c := Done(req, Executed(statusCode, body))])
  {
  }

  lemma ClearStep(s: State, c: nat, req: Request, id: nat)
    requires c in s.clients && s.clients[c] == Clearing(req, id)
    ensures Step(s, Clear(c, NoFault)) == State(ClearPending(s.table, id), s.clients[c := Done(req, Errored)])
  {
  }

  lemma Overwritten<V>(m: map<nat, V>, c: nat, v: V, w: V)
    ensures m[c := v][c := w] == m[c := w]
  {
  }

  lemma Handles(s: State, c: nat, req: Request, id: nat, handler: HandlerResult)
    requires c in s.clients && s.clients[c] == Executing(req, id) && HasId(s.table, id)
    ensures RunFrom(s, Handling(c, handler))
         == State(AfterHandler(s.table, id, handler), s.clients[c := Done(req, HandlerOutcome(handler))])
  {
    HandlerStep(s, c, req, id, handler);
    var steps := Handling(c, handler);
    RunFromTwo(s, steps[0], steps[1]);
    assert steps == [steps[0], steps[1]];
    var t := Step(s, steps[0]);
    match handler
    case Returned(statusCode, body) => CompleteStep(t, c, req, id, statusCode, body);
    case Threw => ClearStep(t, c, req, id);
  }

  /** A request for a free slot that gets its record executes. */
  lemma FreeSlotExecutes(s: State, c: nat, req: Request, handler: HandlerResult)
    requires c !in s.clients && req.slot !in s.table.records
    ensures RunFrom(s, Steps(true, c, req, false, handler))
         == State(AfterHandler(Create(s.table, req.slot, req.hash).value, s.table.nextId, handler),
                  s.clients[c := Done(req, HandlerOutcome(handler))])
  {
    var created := Create(s.table, req.slot, req.hash).value;
    var found := State(s.table, s.clients[c := Creating(req)]);
    var locked := State(created, s.clients[c := Executing(req, s.table.nextId)]);
    ArriveAndFind(s, c, req);
    Creates(found, c, req, NoFault);
    Overwritten(s.clients, c, Creating(req), Executing(req, s.table.nextId));
    Overwritten(s.clients, c, Executing(req, s.table.nextId), Done(req, HandlerOutcome(handler)));
    assert created.records[req.slot].id == s.table.nextId;
    Handles(locked, c, req, s.table.nextId, handler);
    RunFromAppend(s, [Arrive(c, req), Find(c)], [TryCreate(c, NoFault)]);
    RunFromAppend(s, [Arrive(c, req), Find(c)] + [TryCreate(c, NoFault)], Handling(c, handler));
    RunFromOne(found, TryCreate(c, NoFault));
    assert [Arrive(c, req), Find(c)] + [TryCreate(c, NoFault)] == [Arrive(c, req), Find(c), TryCreate(c, NoFault)];
  }

  lemma RunFromOne(s: State, a: Action)
    ensures RunFrom(s, [a]) == Step(s, a)
  {
    var rest := [a][1..];
    assert rest == [];
  }

  lemma LostInsertFails(s: State, c: nat, req: Request, handler: HandlerResult)
    requires c !in s.clients && req.slot !in s.table.records
    ensures RunFrom(s, Steps(true, c, req, true, handler)) == State(s.table, s.clients[c := Done(req, NoLock)])
  {
    var found := State(s.table, s.clients[c := Creating(req)]);
    var lost := State(s.table, s.clients[c := Refinding(req)]);
    ArriveAndFind(s, c, req);
    Creates(found, c, req, Lost);
    RefindsNothing(lost, c, req);
    RunFromTwo(found, TryCreate(c, Lost), Refind(c));
    RunFromAppend(s, [Arrive(c, req), Find(c)], [TryCreate(c, Lost), Refind(c)]);
    assert [Arrive(c, req), Find(c)] + [TryCreate(c, Lost), Refind(c)] == Steps(true, c, req, true, handler);
  }

  /** The response to an admitted request, and the table it leaves, are what the protocol's steps come to. */
  lemma RespondIsRunFrom(
    s: State, digest: Units -> Units, c: nat, http: Http, insertFails: bool, handler: HandlerResult)
    requires c !in s.clients && IsAdmitted(http)
    ensures var req := RequestOf(digest, http);
      var (table, response) := Respond(s.table, digest, http, insertFails, handler);
      RunFrom(s, Steps(req.slot !in s.table.records, c, req, insertFails, handler))
        == State(table, s.clients[c := Done(req, OutcomeOf(response))])
  {
    var req := RequestOf(digest, http);
    if req.slot in s.table.records {
      ArriveAndFind(s, c, req);
    } else if insertFails {
      LostInsertFails(s, c, req, handler);
    } else {
      FreeSlotExecutes(s, c, req, handler);
    }
  }

  /** So an undisturbed request extends any run of the protocol by its own steps. */
  lemma UndisturbedRequestIsARun(
    before: seq<Action>, digest: Units -> Units, c: nat, http: Http, insertFails: bool, handler: HandlerResult)
    requires c !in Run(before).clients && IsAdmitted(http)
    ensures var req, s := RequestOf(digest, http), Run(before);
      var (table, response) := Respond(s.table, digest, http, insertFails, handler);
      Run(before + Steps(req.slot !in s.table.records, c, req, insertFails, handler))
        == State(table, s.clients[c := Done(req, OutcomeOf(response))])
  {
    var req, s := RequestOf(digest, http), Run(before);
    RunFromContinues(before, Steps(req.slot !in s.table.records, c, req, insertFails, handler));
    RespondIsRunFrom(s, digest, c, http, insertFails, handler);
  }

  // --- what a client sees of it

  /** A request whose key is blank, or outside of its route's scope, changes nothing and is told so. */
  lemma RefusedAtTheDoor(
    table: Table, digest: Units -> Units, http: Http, insertFails: bool, handler: HandlerResult)
    requires !IsAdmitted(http)
    ensures Respond(table, digest, http, insertFails, handler)
         == (table, if IsBlank(http.key) then KeyRequired else InvalidScope)
  {
  }

  datatype Exchange = Exchange(http: Http, insertFails: bool, handler: HandlerResult)

  /** The table after requests one after the other. */
  function Serve(table: Table, digest: Units -> Units, exchanges: seq<Exchange>): (after: Table)
  {
    if |exchanges| == 0 then table
    else
      var n := |exchanges| - 1;
      var last := exchanges[n];
      Respond(Serve(table, digest, exchanges[..n]), digest, last.http, last.insertFails, last.handler).0
  }

  /** The slot's request was answered with this. */
  ghost predicate HasStored(table: Table, slot: Slot, hash: Units, statusCode: int, body: Json)
  {
    && slot in table.records
    && var record := table.records[slot];
      record.status == COMPLETED && record.requestHash == hash
      && record.responseStatus == Some(statusCode) && record.responseBody == body
  }

  lemma RespondKeepsTable(
    table: Table, digest: Units -> Units, http: Http, insertFails: bool, handler: HandlerResult)
    requires TableOk(table)
    ensures TableOk(Respond(table, digest, http, insertFails, handler).0)
  {
    var slot, hash := SlotOf(http), digest(PayloadOf(http));
    CreateKeepsTableOk(table, slot, hash);
    if slot !in table.records {
      var created := Create(table, slot, hash).value;
      match handler
      case Returned(statusCode, body) => CompleteKeepsTableOk(created, table.nextId, statusCode, body);
      case Threw => ClearKeepsTableOk(created, table.nextId);
    }
  }

  lemma RespondKeepsStored(
    table: Table, digest: Units -> Units, e: Exchange, slot: Slot, hash: Units, statusCode: int, body: Json)
    requires TableOk(table) && HasStored(table, slot, hash, statusCode, body)
    ensures HasStored(Respond(table, digest, e.http, e.insertFails, e.handler).0, slot, hash, statusCode, body)
  {
  }

  lemma {:induction false} ServeKeepsStored(
    table: Table, digest: Units -> Units, exchanges: seq<Exchange>, slot: Slot, hash: Units, statusCode: int,
    body: Json)
    requires TableOk(table) && HasStored(table, slot, hash, statusCode, body)
    ensures TableOk(Serve(table, digest, exchanges))
    ensures HasStored(Serve(table, digest, exchanges), slot, hash, statusCode, body)
  {
    if |exchanges| > 0 {
      var n := |exchanges| - 1;
      var before, last := Serve(table, digest, exchanges[..n]), exchanges[n];
      ServeKeepsStored(table, digest, exchanges[..n], slot, hash, statusCode, body);
      RespondKeepsTable(before, digest, last.http, last.insertFails, last.handler);
      RespondKeepsStored(before, digest, last, slot, hash, statusCode, body);
    }
  }

  /** A request with the same slot as an answered one does nothing: it is replayed, or refused for another body. */
  lemma StoredIsReplayed(
    table: Table, digest: Units -> Units, again: Exchange, hash: Units, statusCode: int, body: Json)
    requires IsAdmitted(again.http) && HasStored(table, SlotOf(again.http), hash, statusCode, body)
    ensures Respond(table, digest, again.http, again.insertFails, again.handler)
         == (table, if digest(PayloadOf(again.http)) == hash then Answered(statusCode, body, true)
                    else Refused(HashConflict))
  {
  }

  /** A completed record without a status would be replayed as 200. */
  lemma MissingStatusIsOk(table: Table, digest: Units -> Units, again: Exchange)
    requires IsAdmitted(again.http) && SlotOf(again.http) in table.records
    requires var record := table.records[SlotOf(again.http)];
      record.status == COMPLETED && record.responseStatus.None? && record.requestHash == digest(PayloadOf(again.http))
    ensures Respond(table, digest, again.http, again.insertFails, again.handler)
         == (table, Answered(200, table.records[SlotOf(again.http)].responseBody, true))
  {
  }

  /** While another request with its slot is being handled, a request is refused and changes nothing. */
  lemma PendingIsRefused(table: Table, digest: Units -> Units, again: Exchange)
    requires IsAdmitted(again.http) && SlotOf(again.http) in table.records
    requires table.records[SlotOf(again.http)].status == PENDING
    ensures var same := digest(PayloadOf(again.http)) == table.records[SlotOf(again.http)].requestHash;
      Respond(table, digest, again.http, again.insertFails, again.handler)
        == (table, Refused(if same then InProgress else HashConflict))
  {
  }

  lemma AnswerIsStored(
    table: Table, digest: Units -> Units, http: Http, statusCode: int, body: Json)
    requires TableOk(table) && IsAdmitted(http) && SlotOf(http) !in table.records
    ensures var (after, response) := Respond(table, digest, http, false, Returned(statusCode, body));
      && response == Answered(statusCode, body, false)
      && TableOk(after) && HasStored(after, SlotOf(http), digest(PayloadOf(http)), statusCode, body)
  {
    RespondKeepsTable(table, digest, http, false, Returned(statusCode, body));
  }

  /**
   Once a request is answered, its handler does not run again: whatever requests come in between, every
   request with its slot and hash gets its status and body as a replay, one with another hash is refused,
   and neither changes anything.
   */
  lemma AnsweredIsReplayedForGood(
    table: Table, digest: Units -> Units, http: Http, statusCode: int, body: Json, between: seq<Exchange>,
    again: Exchange)
    requires TableOk(table) && IsAdmitted(http) && SlotOf(http) !in table.records
    requires IsAdmitted(again.http) && SlotOf(again.http) == SlotOf(http)
    ensures var (after, response) := Respond(table, digest, http, false, Returned(statusCode, body));
      var later := Serve(after, digest, between);
      && response == Answered(statusCode, body, false)
      && Respond(later, digest, again.http, again.insertFails, again.handler)
         == (later, if digest(PayloadOf(again.http)) == digest(PayloadOf(http)) then Answered(statusCode, body, true)
                    else Refused(HashConflict))
  {
    var after := Respond(table, digest, http, false, Returned(statusCode, body)).0;
    AnswerIsStored(table, digest, http, statusCode, body);
    ServeKeepsStored(after, digest, between, SlotOf(http), digest(PayloadOf(http)), statusCode, body);
    StoredIsReplayed(
      Serve(after, digest, between), digest, again, digest(PayloadOf(http)), statusCode, body);
  }

  /** A request whose handler threw leaves no record, so the next one with its key executes, whatever its body. */
  lemma ThrownCanBeSentAgain(
    table: Table, digest: Units -> Units, http: Http, again: Http, statusCode: int, body: Json)
    requires TableOk(table) && IsAdmitted(http) && SlotOf(http) !in table.records
    requires IsAdmitted(again) && SlotOf(again) == SlotOf(http)
    ensures var (after, response) := Respond(table, digest, http, false, Threw);
      && response == HandlerError && after.records == table.records
      && Respond(after, digest, again, false, Returned(statusCode, body)).1 == Answered(statusCode, body, false)
  {
  }
}
