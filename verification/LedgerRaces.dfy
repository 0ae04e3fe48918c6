/**
 Callers that race: a posting looks its key up in one state of the ledger and inserts into a later one, where the
 unique keys decide.
 */
module LedgerRaces {
  import opened Wrappers
  import opened LedgerModel
  import opened TenantLedger
  import opened LedgerProperties

  /** A posting whose lookup and insert see different states. */
  function PostAcross(atFind: seq<Entry>, atInsert: seq<Entry>, input: EntryInput, newId: string)
    : (seq<Entry>, PostResult)
  {
    if !ValidPost(input) then (atInsert, Rejected(CheckPost(input).value))
    else match FindKey(atFind, input.tenantId, input.idempotencyKey)
      case Some(existing) => (atInsert, Posted(existing.id, true))
      case None =>
        if FindKey(atInsert, input.tenantId, input.idempotencyKey).Some? || IdTaken(atInsert, newId) then
          (atInsert, Rejected(UniqueViolation))
        else (atInsert + [NewEntry(input, newId)], Posted(newId, false))
  }

  function ReverseAcross(
    atEntry: seq<Entry>, atKey: seq<Entry>, atFind: seq<Entry>, atInsert: seq<Entry>, tenantId: string, entryId: string,
    role: Option<Role>, now: int, newId: string)
    : (seq<Entry>, PostResult)
  {
    if !RoleCanReverse(role) then (atInsert, Rejected(RoleCannotReverse))
    else match FindEntry(atEntry, tenantId, entryId)
      case None => (atInsert, Rejected(EntryNotFound))
      case Some(entry) =>
        match FindKey(atKey, tenantId, ReversalKey(entry.id))
        case Some(existing) => (atInsert, Posted(existing.id, true))
        case None => PostAcross(atFind, atInsert, ReversalInput(entry, role, now), newId)
  }

  lemma {:induction false} FoundKeyStays(before: seq<Entry>, after: seq<Entry>, tenantId: string, key: string)
    requires before <= after && FindKey(before, tenantId, key).Some?
    ensures FindKey(after, tenantId, key) == FindKey(before, tenantId, key)
  {
    assert after[0] == before[0];
    if !(before[0].tenantId == tenantId && before[0].idempotencyKey == key) {
      FoundKeyStays(before[1..], after[1..], tenantId, key);
    }
  }

  lemma {:induction false} FoundEntryStays(before: seq<Entry>, after: seq<Entry>, tenantId: string, id: string)
    requires before <= after && FindEntry(before, tenantId, id).Some?
    ensures FindEntry(after, tenantId, id) == FindEntry(before, tenantId, id)
  {
    assert after[0] == before[0];
    if !(before[0].tenantId == tenantId && before[0].id == id) {
      FoundEntryStays(before[1..], after[1..], tenantId, id);
    }
  }

  /** Somebody else got the key between the lookup and the insert. */
  predicate KeyLost(atFind: seq<Entry>, atInsert: seq<Entry>, tenantId: string, key: string)
  {
    FindKey(atFind, tenantId, key).None? && FindKey(atInsert, tenantId, key).Some?
  }

  /**
   Whatever was added between the lookup and the insert, the ledger is the one an atomic posting at the insert would
   leave, and so is the answer, but that a valid posting whose key was lost fails on the unique key instead of
   returning the other's id.
   */
  lemma RacingPostIsAtomic(atFind: seq<Entry>, atInsert: seq<Entry>, input: EntryInput, newId: string)
    requires atFind <= atInsert
    ensures var (after, result) := PostAcross(atFind, atInsert, input, newId);
      var (atomic, answer) := Post(atInsert, input, newId);
      && after == atomic
      && (result == answer <==> !(ValidPost(input) && KeyLost(atFind, atInsert, input.tenantId, input.idempotencyKey)))
      && (result != answer ==> result == Rejected(UniqueViolation) && answer.Posted? && answer.reused)
  {
    if FindKey(atFind, input.tenantId, input.idempotencyKey).Some? {
      FoundKeyStays(atFind, atInsert, input.tenantId, input.idempotencyKey);
    }
  }

  /**
   The same of a reversal: one that read its entry leaves the ledger an atomic reversal at the insert would, with the
   same answer unless it lost its key; one that came before its entry changes nothing.
   */
  lemma RacingReversalIsAtomic(
    atEntry: seq<Entry>, atKey: seq<Entry>, atFind: seq<Entry>, atInsert: seq<Entry>, tenantId: string, entryId: string,
    role: Option<Role>, now: int, newId: string)
    requires atEntry <= atKey <= atFind <= atInsert
    ensures var (after, result) :=
        ReverseAcross(atEntry, atKey, atFind, atInsert, tenantId, entryId, role, now, newId);
      var (atomic, answer) := Reverse(atInsert, tenantId, entryId, role, now, newId);
      if RoleCanReverse(role) && FindEntry(atEntry, tenantId, entryId).None? then
        after == atInsert && result == Rejected(EntryNotFound)
      else
        && after == atomic
        && (result == answer || (
              && result.Rejected? && answer.Posted? && answer.reused
              && KeyLost(atKey, atInsert, tenantId, ReversalKey(entryId))))
  {
    if RoleCanReverse(role) && FindEntry(atEntry, tenantId, entryId).Some? {
      FoundEntryStays(atEntry, atInsert, tenantId, entryId);
      var entry := FindEntry(atEntry, tenantId, entryId).value;
      if FindKey(atKey, tenantId, ReversalKey(entryId)).Some? {
        FoundKeyStays(atKey, atInsert, tenantId, ReversalKey(entryId));
      } else {
        RacingPostIsAtomic(atFind, atInsert, ReversalInput(entry, role, now), newId);
      }
    }
  }

  /** So a posting that looks its key up at any moment of a run extends the run by an atomic posting at its end. */
  lemma RacingPostExtendsRun(commands: seq<Command>, n: nat, input: EntryInput, newId: string)
    requires n <= |commands|
    ensures PostAcross(RunLedger(commands[..n]), RunLedger(commands), input, newId).0
         == RunLedger(commands + [PostCommand(input, newId)])
  {
    LedgerIsAppendOnly(commands, n);
    RacingPostIsAtomic(RunLedger(commands[..n]), RunLedger(commands), input, newId);
    RunLedgerSnoc(commands, PostCommand(input, newId));
  }

  /** The same of a reversal that read its entry, at any four moments of a run. */
  lemma RacingReversalExtendsRun(
    commands: seq<Command>, i: nat, j: nat, k: nat, tenantId: string, entryId: string, role: Option<Role>, now: int,
    newId: string)
    requires i <= j <= k <= |commands|
    requires FindEntry(RunLedger(commands[..i]), tenantId, entryId).Some?
    ensures ReverseAcross(
              RunLedger(commands[..i]), RunLedger(commands[..j]), RunLedger(commands[..k]), RunLedger(commands),
              tenantId, entryId, role, now, newId).0
         == RunLedger(commands + [ReverseCommand(tenantId, entryId, role, now, newId)])
  {
    assert commands[..j][..i] == commands[..i] && commands[..k][..j] == commands[..j];
    LedgerIsAppendOnly(commands[..j], i);
    LedgerIsAppendOnly(commands[..k], j);
    LedgerIsAppendOnly(commands, k);
    RacingReversalIsAtomic(
      RunLedger(commands[..i]), RunLedger(commands[..j]), RunLedger(commands[..k]), RunLedger(commands),
      tenantId, entryId, role, now, newId);
    RunLedgerSnoc(commands, ReverseCommand(tenantId, entryId, role, now, newId));
  }
}
