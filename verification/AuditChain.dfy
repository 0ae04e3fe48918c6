/**
 AuditService.logEvent: one hash chain per tenant and UTC day. An event's hash covers its content, the
 hash before it and its place in the chain. A chain is named by tenant and day.
 */
module AuditChain {
  import opened Wrappers
  import opened CanonicalJson

  // --- the hashed payload

  function Decimal(n: nat): (u: Units)
  {
    if n < 10 then [0x30 + n] else Decimal(n / 10) + [0x30 + n % 10]
  }

  const PREV_HASH: Units := [0x70, 0x72, 0x65, 0x76, 0x48, 0x61, 0x73, 0x68]
  const SEQUENCE: Units := [0x73, 0x65, 0x71, 0x75, 0x65, 0x6e, 0x63, 0x65]
  const SIGNATURE_VERSION: Units :=
    [0x73, 0x69, 0x67, 0x6e, 0x61, 0x74, 0x75, 0x72, 0x65, 0x56, 0x65, 0x72, 0x73, 0x69, 0x6f, 0x6e]

  function PrevHashJson(prevHash: Option<Units>): Json
  {
    if prevHash.Some? then Str(prevHash.value) else Null
  }

  /** The chain's own members of the payload; tenant, actor, action, before, after and the rest are content. */
  function Links(prevHash: Option<Units>, sequence: nat): seq<Member>
  {
    [Member(PREV_HASH, PrevHashJson(prevHash)), Member(SEQUENCE, Number(Decimal(sequence))),
     Member(SIGNATURE_VERSION, Number(Decimal(1)))]
  }

  function Payload(content: seq<Member>, prevHash: Option<Units>, sequence: nat): Json
  {
    Obj(content + Links(prevHash, sequence))
  }

  /** The hash of an event, from its content, its prevHash and its sequence. */
  type HashFunction = (seq<Member>, Option<Units>, nat) -> Units

  function AuditHash(leq: (Units, Units) -> bool, digest: Units -> Units): HashFunction
  {
    (content, prevHash, sequence) => digest(Print(leq, Payload(content, prevHash, sequence)))
  }

  // --- the tables

  datatype AuditEvent = AuditEvent(
    tenantId: string, day: int, content: seq<Member>, sequence: nat, prevHash: Option<Units>, hash: Units)

  datatype ChainState = ChainState(day: int, lastHash: Option<Units>, lastSequence: nat)

  datatype Log = Log(events: seq<AuditEvent>, states: map<string, ChainState>)

  function CurrentState(log: Log, tenantId: string, day: int): ChainState
  {
    if tenantId in log.states then log.states[tenantId] else ChainState(day, None, 0)
  }

  function NextEvent(
    hash: HashFunction, current: ChainState, tenantId: string, day: int, content: seq<Member>)
    : AuditEvent
  {
    var rotated := current.day != day;
    var sequence := if rotated then 1 else current.lastSequence + 1;
    var prevHash := if rotated then None else current.lastHash;
    AuditEvent(tenantId, day, content, sequence, prevHash, hash(content, prevHash, sequence))
  }

  /** The unique key (chainId, sequence) of the event table. */
  predicate IsTaken(events: seq<AuditEvent>, e: AuditEvent)
  {
    exists i :: 0 <= i < |events| && events[i].tenantId == e.tenantId && events[i].day == e.day
      && events[i].sequence == e.sequence
  }

  /** The event and the state row are written together. */
  function Written(log: Log, e: AuditEvent): Log
  {
    Log(log.events + [e], log.states[e.tenantId := ChainState(e.day, Some(e.hash), e.sequence)])
  }

  /** One append. If the insert breaks the unique key the transaction is undone and the event is lost. */
  function Append(hash: HashFunction, log: Log, tenantId: string, day: int, content: seq<Member>): (Log, bool)
  {
    var e := NextEvent(hash, CurrentState(log, tenantId, day), tenantId, day, content);
    if IsTaken(log.events, e) then (log, false) else (Written(log, e), true)
  }

  /** A lost event is only logged, unless its severity is CRITICAL: then the caller gets an error. */
  datatype Outcome = Logged | Swallowed | CriticalWriteFailed

  class AuditService {
    const hash: HashFunction
    var events: seq<AuditEvent>
    var states: map<string, ChainState>

    constructor (hash: HashFunction)
      ensures this.hash == hash && View() == Log([], map[])
    {
      this.hash := hash;
      events, states := [], map[];
    }

    function View(): Log
      reads this
    {
      Log(events, states)
    }

    method LogEvent(tenantId: string, day: int, content: seq<Member>, critical: bool) returns (outcome: Outcome)
      modifies this
      ensures (View(), outcome.Logged?) == Append(hash, old(View()), tenantId, day, content)
      ensures outcome.CriticalWriteFailed? <==> critical && !outcome.Logged?
    {
      var saved := states;
      if tenantId !in states {
        states := states[tenantId := ChainState(day, None, 0)];
      }
      var current := states[tenantId];
      var rotated := current.day != day;
      var nextSequence := if rotated then 1 else current.lastSequence + 1;
      var prevHash := if rotated then None else current.lastHash;
      var eventHash := hash(content, prevHash, nextSequence);
      var e := AuditEvent(tenantId, day, content, nextSequence, prevHash, eventHash);
      assert e == NextEvent(hash, CurrentState(old(View()), tenantId, day), tenantId, day, content);
      if IsTaken(events, e) {
        states := saved;
        return if critical then CriticalWriteFailed else Swallowed;
      }
      events := events + [e];
      states := states[tenantId := ChainState(day, Some(eventHash), nextSequence)];
      assert states == saved[tenantId := ChainState(day, Some(eventHash), nextSequence)];
      return Logged;
    }
  }
}
