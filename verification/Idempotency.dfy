/**
 IdempotencyService and its interceptor: the table of idempotency records, keyed by (key, method, path),
 and the single database operations on it. Record ids are never reused.
 */
module Idempotency {
  import opened Wrappers
  import opened Text
  import opened CanonicalJson
  import opened CanonicalJsonProperties

  datatype Slot = Slot(key: string, requestMethod: string, requestPath: string)

  datatype RecordStatus = PENDING | COMPLETED

  datatype Record = Record(id: nat, requestHash: Units, status: RecordStatus, responseStatus: Option<int>,
    responseBody: Json)

  datatype Table = Table(records: map<Slot, Record>, nextId: nat)

  // --- the request hash

  function Utf16(s: string): Units
  {
    if |s| == 0 then []
    else
      var c := s[0] as int;
      (if c < 0x10000 then [c]
        else [0xd800 + (c - 0x10000) / 0x400 % 0x400, 0xdc00 + (c - 0x10000) % 0x400]) + Utf16(s[1..])
  }

  /** What is hashed: method, path and the canonical body; a missing body counts as null. */
  function Payload(requestMethod: string, requestPath: string, body: Option<Json>): Units
  {
    Utf16(requestMethod) + [COLON] + Utf16(requestPath) + [COLON]
    + Print(CodeUnitLeq, if body.Some? then body.value else Null)
  }

  /** The method in upper case, as it is hashed and stored. */
  function Upper(requestMethod: string): (upper: string)
    ensures |upper| == |requestMethod|
  {
    seq(|requestMethod|, i requires 0 <= i < |requestMethod| => UpperChar(requestMethod[i]))
  }

  /** For one method and path, two bodies have the same hash exactly when they are the same but for key order. */
  lemma SameHashMeansSameBody(digest: Units -> Units, requestMethod: string, requestPath: string, a: Json, b: Json)
    requires Injective(digest) && WellFormed(a) && WellFormed(b)
    ensures digest(Payload(requestMethod, requestPath, Some(a))) == digest(Payload(requestMethod, requestPath, Some(b)))
       <==> SameValue(a, b)
  {
    CodeUnitOrderIsTotal();
    PrintIsCanonical(CodeUnitLeq, a, b);
    var prefix := Utf16(requestMethod) + [COLON] + Utf16(requestPath) + [COLON];
    assert (prefix + Print(CodeUnitLeq, a))[|prefix|..] == Print(CodeUnitLeq, a);
    assert (prefix + Print(CodeUnitLeq, b))[|prefix|..] == Print(CodeUnitLeq, b);
  }

  // --- single operations on the table

  function FindByKey(table: Table, slot: Slot): (found: Option<Record>)
  {
    if slot in table.records then Some(table.records[slot]) else None
  }

  /** INSERT under the unique key (key, requestMethod, requestPath). */
  function Create(table: Table, slot: Slot, hash: Units): (created: Option<Table>)
  {
    if slot in table.records then None
    else Some(Table(table.records[slot := Record(table.nextId, hash, PENDING, None, Null)], table.nextId + 1))
  }

  predicate HasId(table: Table, id: nat)
  {
    exists slot :: slot in table.records && table.records[slot].id == id
  }

  function Completed(record: Record, statusCode: int, body: Json): Record
  {
    record.(status := COMPLETED, responseStatus := Some(statusCode), responseBody := body)
  }

  /** UPDATE by id. */
  function MarkCompleted(table: Table, id: nat, statusCode: int, body: Json): Table
  {
    table.(records := map slot | slot in table.records ::
      if table.records[slot].id == id then Completed(table.records[slot], statusCode, body) else table.records[slot])
  }

  /** DELETE by id, of a pending record only. */
  function ClearPending(table: Table, id: nat): Table
  {
    table.(records := map slot
      | slot in table.records && !(table.records[slot].id == id && table.records[slot].status == PENDING)
             :: table.records[slot])
  }

  /** Clearing an id removes no record with another id, and no completed record, whatever the state. */
  lemma ClearRemovesOnlyOwnPending(table: Table, id: nat, slot: Slot)
    requires slot in table.records
    ensures slot !in ClearPending(table, id).records
       <==> table.records[slot].id == id && table.records[slot].status == PENDING
    ensures slot in ClearPending(table, id).records ==> ClearPending(table, id).records[slot] == table.records[slot]
  {
  }

  // --- decisions

  datatype Decision = Execute(recordId: nat) | Replay(statusCode: int, responseBody: Json)
                    | HashConflict | InProgress | CreateFailed

  function Decide(record: Record, hash: Units): Decision
  {
    if record.requestHash != hash then HashConflict
    else if record.status == COMPLETED then
      Replay(if record.responseStatus.Some? then record.responseStatus.value else 200, record.responseBody)
    else InProgress
  }

  /** evaluateRequest when nobody comes between. An insert that fails for whatever reason leaves no record. */
  function Evaluate(table: Table, slot: Slot, hash: Units, insertFails: bool): (Table, Decision)
  {
    match FindByKey(table, slot)
    case Some(record) => (table, Decide(record, hash))
    case None =>
      if insertFails then (table, CreateFailed) else (Create(table, slot, hash).value, Execute(table.nextId))
  }

  // --- the interceptor

  datatype HandlerResult = Returned(statusCode: int, body: Json) | Threw

  datatype Response =
    | KeyRequired
    | InvalidScope
    | Answered(statusCode: int, body: Json, replayed: bool)
    | Refused(decision: Decision)
    | HandlerError

  datatype Http = Http(key: string, scope: string, requestMethod: string, path: string, body: Option<Json>)

  function PathOf(http: Http): string { if |http.scope| > 0 then http.scope + ":" + http.path else http.path }

  function SlotOf(http: Http): Slot { Slot(Trim(http.key), Upper(http.requestMethod), PathOf(http)) }

  function PayloadOf(http: Http): Units { Payload(Upper(http.requestMethod), PathOf(http), http.body) }

  function Respond(table: Table, digest: Units -> Units, http: Http, insertFails: bool, handler: HandlerResult)
    : (Table, Response)
  {
    if IsBlank(http.key) then (table, KeyRequired)
    else if |http.scope| > 0 && !(http.scope + ":" <= Trim(http.key)) then (table, InvalidScope)
    else
      var (evaluated, decision) := Evaluate(table, SlotOf(http), digest(PayloadOf(http)), insertFails);
      match decision
      case Replay(statusCode, body) => (evaluated, Answered(statusCode, body, true))
      case Execute(recordId) =>
        (match handler
         case Returned(statusCode, body) =>
           (MarkCompleted(evaluated, recordId, statusCode, body), Answered(statusCode, body, false))
         case Threw => (ClearPending(evaluated, recordId), HandlerError))
      case _ => (evaluated, Refused(decision))
  }

  class IdempotencyService {
    const digest: Units -> Units
    var records: map<Slot, Record>
    var nextId: nat

    constructor (digest: Units -> Units)
      ensures this.digest == digest && View() == Table(map[], 0)
    {
      this.digest := digest;
      records, nextId := map[], 0;
    }

    function View(): Table
      reads this
    {
      Table(records, nextId)
    }

    /** Any error on the insert, not only a taken key, makes it look the slot up again; nothing there is a failure. */
    method CreatePending(slot: Slot, hash: Units, insertFails: bool) returns (record: Option<Record>, created: bool)
      modifies this
      ensures created <==> slot !in old(records) && !insertFails
      ensures record == FindByKey(View(), slot)
      ensures created ==> Some(View()) == Create(old(View()), slot, hash)
      ensures !created ==> View() == old(View())
    {
      if slot in records || insertFails {
        return FindByKey(View(), slot), false;
      }
      var pending := Record(nextId, hash, PENDING, None, Null);
      records := records[slot := pending];
      nextId := nextId + 1;
      return Some(pending), true;
    }

    method EvaluateRequest(
      key: string, requestMethod: string, requestPath: string, body: Option<Json>, insertFails: bool)
      returns (decision: Decision)
      modifies this
      ensures (View(), decision)
           == Evaluate(old(View()), Slot(key, Upper(requestMethod), requestPath),
                       digest(Payload(Upper(requestMethod), requestPath, body)), insertFails)
    {
      var slot := Slot(key, Upper(requestMethod), requestPath);
      var hash := digest(Payload(Upper(requestMethod), requestPath, body));
      if slot in records {
        return Decide(records[slot], hash);
      }
      var record, created := CreatePending(slot, hash, insertFails);
      if record.None? {
        return CreateFailed;
      }
      if !created {
        return Decide(record.value, hash);
      }
      return Execute(record.value.id);
    }

    method Complete(recordId: nat, statusCode: int, body: Json) returns (updated: bool)
      modifies this
      ensures updated <==> HasId(old(View()), recordId)
      ensures View() == MarkCompleted(old(View()), recordId, statusCode, body)
    {
      updated := exists slot :: slot in records && records[slot].id == recordId;
      records := map slot | slot in records ::
        if records[slot].id == recordId then Completed(records[slot], statusCode, body) else records[slot];
    }

    method Clear(recordId: nat)
      modifies this
      ensures View() == ClearPending(old(View()), recordId)
    {
      records := map slot
        | slot in records && !(records[slot].id == recordId && records[slot].status == PENDING) :: records[slot];
    }

    /** One request from start to end, alone; `handler` is what the route handler does if it is called. */
    method Intercept(http: Http, insertFails: bool, handler: HandlerResult) returns (response: Response)
      modifies this
      ensures (View(), response) == Respond(old(View()), digest, http, insertFails, handler)
    {
      if IsBlank(http.key) {
        return KeyRequired;
      }
      var key := Trim(http.key);
      if |http.scope| > 0 && !(http.scope + ":" <= key) {
        return InvalidScope;
      }
      var decision := EvaluateRequest(key, http.requestMethod, PathOf(http), http.body, insertFails);
      match decision {
        case Replay(statusCode, body) =>
          return Answered(statusCode, body, true);
        case Execute(recordId) =>
          match handler {
            case Returned(statusCode, body) =>
              var _ := Complete(recordId, statusCode, body);
              return Answered(statusCode, body, false);
            case Threw =>
              Clear(recordId);
              return HandlerError;
          }
        case _ =>
          return Refused(decision);
      }
    }
  }
}
