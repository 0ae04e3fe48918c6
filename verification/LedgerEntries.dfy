/**
 Where every stored entry comes from and what it says: over every run, each is a permitted posting's own fields
 and lines, or the mirror image of an earlier entry.
 */
module LedgerEntries {
  import opened Wrappers
  import opened Sums
  import opened Text
  import opened LedgerModel
  import opened TenantLedger
  import opened LedgerProperties

  // --- currencies

  /** The text from i to j, with nothing but white space around it. */
  predicate IsMiddle(t: string, s: string, i: nat, j: nat)
  {
    && i <= j <= |s| && |t| == j - i
    && (forall k :: 0 <= k < |t| ==> t[k] == s[i + k])
    && (forall k :: 0 <= k < i ==> IsWhiteSpace(s[k]))
    && (forall k :: j <= k < |s| ==> IsWhiteSpace(s[k]))
  }

  lemma MiddleOfTail(t: string, s: string, i: nat, j: nat)
    requires |s| > 0 && IsWhiteSpace(s[0]) && IsMiddle(t, s[1..], i, j)
    ensures IsMiddle(t, s, i + 1, j + 1)
  {
    forall k | 0 <= k < i + 1 || j + 1 <= k < |s| ensures IsWhiteSpace(s[k]) {
      assert k > 0 ==> s[k] == s[1..][k - 1];
    }
  }

  lemma MiddleOfInit(t: string, s: string, i: nat, j: nat)
    requires |s| > 0 && IsWhiteSpace(s[|s| - 1]) && IsMiddle(t, s[..|s| - 1], i, j)
    ensures IsMiddle(t, s, i, j)
  {
    forall k | 0 <= k < i || j <= k < |s| ensures IsWhiteSpace(s[k]) {
      assert k < |s| - 1 ==> s[k] == s[..|s| - 1][k];
    }
  }

  lemma TrimStep(s: string)
    requires |s| > 0
    ensures IsWhiteSpace(s[0]) ==> Trim(s) == Trim(s[1..])
    ensures !IsWhiteSpace(s[0]) && IsWhiteSpace(s[|s| - 1]) ==> Trim(s) == Trim(s[..|s| - 1])
    ensures !IsWhiteSpace(s[0]) && !IsWhiteSpace(s[|s| - 1]) ==> Trim(s) == s
  {
  }

  /** White space at both ends is taken away, and nothing else. */
  lemma {:induction false} TrimTakesEnds(s: string) returns (i: nat, j: nat)
    ensures IsMiddle(Trim(s), s, i, j)
    decreases |s|
  {
    i, j := 0, |s|;
    if |s| > 0 {
      TrimStep(s);
      if IsWhiteSpace(s[0]) {
        i, j := TrimTakesEnds(s[1..]);
        MiddleOfTail(Trim(s[1..]), s, i, j);
        i, j := i + 1, j + 1;
      } else if IsWhiteSpace(s[|s| - 1]) {
        i, j := TrimTakesEnds(s[..|s| - 1]);
        MiddleOfInit(Trim(s[..|s| - 1]), s, i, j);
      }
    }
  }

  /** The code without white space at its ends and with its small letters made capital. */
  ghost predicate IsNormalFormOf(t: string, code: string)
  {
    exists i: nat, j: nat :: IsCapitalPart(t, code, i, j)
  }

  predicate IsCapitalPart(t: string, code: string, i: nat, j: nat)
  {
    && i <= j <= |code| && |t| == j - i
    && (forall k :: 0 <= k < |t| ==> IsCapitalOf(t[k], code[i + k]))
    && (forall k :: 0 <= k < i ==> IsWhiteSpace(code[k]))
    && (forall k :: j <= k < |code| ==> IsWhiteSpace(code[k]))
  }

  predicate IsCapitalOf(t: char, c: char)
  {
    if 'a' <= c <= 'z' then t as int == c as int - 32 else t == c
  }

  lemma NormalizedIs(code: string)
    ensures IsNormalFormOf(Normalized(code), code)
  {
    var i, j := TrimTakesEnds(code);
    assert IsCapitalPart(Normalized(code), code, i, j);
  }

  // --- what is stored of a posting

  /** The posting's account, side and nearest kobo, halves going up, in the entry's currency. */
  ghost predicate IsStoredLine(stored: Line, line: LineInput, currency: string)
  {
    && stored.accountCode == line.accountCode && stored.direction == line.direction
    && stored.amount * 100.0 == stored.amountMinor as real
    && stored.amountMinor as real - 0.5 <= line.amount * 100.0 < stored.amountMinor as real + 0.5
    && stored.currency == currency
  }

  ghost predicate IsHeadOf(e: Entry, input: EntryInput, id: string)
  {
    && e.id == id && e.tenantId == input.tenantId && e.occurredAt == input.occurredAt
    && e.entryType == input.entryType && e.idempotencyKey == input.idempotencyKey
    && e.referenceType == input.referenceType && e.referenceId == input.referenceId
  }

  /** All of the posting's fields, and its lines in order, in its own currency or in naira. */
  ghost predicate IsStoredAs(e: Entry, input: EntryInput, id: string, currency: string)
  {
    && IsHeadOf(e, input, id)
    && IsNormalFormOf(currency, if input.currency.Some? then input.currency.value else "NGN")
    && |e.lines| == |input.lines|
    && forall i :: 0 <= i < |e.lines| ==> IsStoredLine(e.lines[i], input.lines[i], currency)
  }

  lemma NewEntryIsStoredAs(input: EntryInput, id: string)
    ensures IsStoredAs(NewEntry(input, id), input, id, CurrencyOf(input))
  {
    NormalizedIs(if input.currency.Some? then input.currency.value else DEFAULT_CURRENCY);
  }

  // --- who may post

  /** Without a role, the system and super administrators post anything; two roles post what is theirs. */
  predicate MayPost(role: Option<Role>, entryType: EntryType)
  {
    role == None || role == Some(SYSTEM) || role == Some(SUPER_ADMIN)
    || (role == Some(OPS) && (entryType == DISBURSEMENT || entryType == REPAYMENT || entryType == ACCRUAL))
    || (role == Some(RISK_MANAGER) && entryType == WRITE_OFF)
  }

  predicate MayReverse(role: Option<Role>)
  {
    role == None || role == Some(SYSTEM) || role == Some(SUPER_ADMIN)
  }

  /** Every refusal of a posting, in the order in which the first that applies is given. */
  lemma RefusedExactlyIf(entries: seq<Entry>, input: EntryInput, newId: string)
    ensures var result := Post(entries, input, newId).1;
      var debits, credits := SumReal(Side(DEBIT), input.lines), SumReal(Side(CREDIT), input.lines);
      var blank, empty, barred :=
        IsBlank(input.idempotencyKey), |input.lines| == 0, !MayPost(input.actorRole, input.entryType);
      var negative := exists i :: 0 <= i < |input.lines| && input.lines[i].amount <= 0.0;
      && (result == Rejected(KeyRequired) <==> blank)
      && (result == Rejected(NoLines) <==> !blank && empty)
      && (result == Rejected(RoleCannotPost) <==> !blank && !empty && barred)
      && ((result.Rejected? && result.error.NonPositiveAmount?) <==> !blank && !empty && !barred && negative)
      && (result == Rejected(Unbalanced(debits, credits))
          <==> !blank && !empty && !barred && !negative && debits != credits)
      && (result.Posted? || result == Rejected(UniqueViolation)
          <==> !blank && !empty && !barred && !negative && debits == credits)
  {
    SidesAre(input.lines);
  }

  function Side(direction: Direction): LineInput -> real
  {
    (line: LineInput) => if line.direction == direction then line.amount else 0.0
  }

  lemma {:induction false} SidesAre(lines: seq<LineInput>)
    ensures SumReal(Side(DEBIT), lines) == SumReal(DebitAmount, lines)
    ensures SumReal(Side(CREDIT), lines) == SumReal(CreditAmount, lines)
  {
    if |lines| > 0 {
      SidesAre(lines[..|lines| - 1]);
    }
  }

  // --- reversals

  /** A stored line with its side changed and its kobo kept. */
  predicate IsMirrored(mirror: Line, line: Line)
  {
    && mirror.accountCode == line.accountCode && mirror.direction != line.direction
    && mirror.amountMinor == line.amountMinor && mirror.amount == line.amount
  }

  /** An adjustment under the entry's reversal key that refers to it, with its lines mirrored in its currency. */
  ghost predicate IsReversalOf(e: Entry, original: Entry, id: string, now: int)
  {
    && e.id == id && e.tenantId == original.tenantId && e.occurredAt == now && e.entryType == ADJUSTMENT
    && e.idempotencyKey == "reversal:" + original.id
    && e.referenceType == "LEDGER_REVERSAL" && e.referenceId == original.id
    && |e.lines| == |original.lines| > 0
    && forall i :: 0 <= i < |e.lines| ==>
         IsMirrored(e.lines[i], original.lines[i]) && IsNormalFormOf(e.lines[i].currency, original.lines[0].currency)
  }

  lemma ReversalEntryIs(original: Entry, role: Option<Role>, now: int, id: string)
    requires EntryOk(original) && |original.lines| > 0
    ensures IsReversalOf(NewEntry(ReversalInput(original, role, now), id), original, id, now)
  {
    var input := ReversalInput(original, role, now);
    FlippedIsWholeKobo(original.lines);
    NormalizedIs(original.lines[0].currency);
    var e := NewEntry(input, id);
    forall i | 0 <= i < |e.lines|
      ensures IsMirrored(e.lines[i], original.lines[i])
      ensures IsNormalFormOf(e.lines[i].currency, original.lines[0].currency)
    {
      MirrorIs(original.lines[i], input.lines[i], CurrencyOf(input));
      assert e.lines[i] == Stored(input.lines[i], CurrencyOf(input));
    }
  }

  lemma MirrorIs(line: Line, flipped: LineInput, currency: string)
    requires LineOk(line) && flipped == LineInput(line.accountCode, Opposite(line.direction), line.amount)
    requires ToMinor(flipped.amount) == line.amountMinor
    ensures IsMirrored(Stored(flipped, currency), line)
  {
  }

  // --- where every entry comes from

  /** The command stores the entry, given the ledger before it. */
  ghost predicate Stores(before: seq<Entry>, command: Command, e: Entry)
  {
    match command
    case PostCommand(input, newId) =>
      MayPost(input.actorRole, input.entryType) && exists currency :: IsStoredAs(e, input, newId, currency)
    case InterruptedCommand(input, newId) =>
      MayPost(input.actorRole, input.entryType) && IsHeadOf(e, input, newId) && e.lines == []
    case ReverseCommand(tenantId, entryId, role, now, newId) =>
      && MayReverse(role)
      && exists original ::
           original in before && original.tenantId == tenantId && original.id == entryId
           && IsReversalOf(e, original, newId, now)
  }

  lemma AddedEntryIsStored(before: seq<Entry>, command: Command)
    requires LedgerOk(before) && Apply(before, command) != before
    ensures |Apply(before, command)| == |before| + 1
    ensures Stores(before, command, Apply(before, command)[|before|])
  {
    ApplyAppends(before, command);
    var input := AppliedInput(before, command).value;
    var e := AppliedEntry(command, input);
    NewEntryIsStoredAs(input, command.newId);
    RefusedExactlyIf(before, input, command.newId);
    if command.ReverseCommand? {
      var original := FindEntry(before, command.tenantId, command.entryId).value;
      ReversalEntryIs(original, command.role, command.now, command.newId);
    }
  }

  /**
   Over every run each entry was stored by a call that may: a posting by a role allowed its type, whole or, if
   interrupted, without lines, or a reversal of an entry that was there before.
   */
  lemma {:induction false} EveryEntryHasItsCommand(commands: seq<Command>, k: nat) returns (n: nat)
    requires k < |RunLedger(commands)|
    ensures n < |commands| && |RunLedger(commands[..n])| == k
    ensures Stores(RunLedger(commands[..n]), commands[n], RunLedger(commands)[k])
  {
    n := |commands| - 1;
    var before := RunLedger(commands[..n]);
    ApplyAppends(before, commands[n]);
    if k < |before| {
      var m := EveryEntryHasItsCommand(commands[..n], k);
      assert commands[..n][..m] == commands[..m];
      n := m;
    } else {
      ReachableLedgerOk(commands[..n]);
      AddedEntryIsStored(before, commands[n]);
    }
  }

  // --- balances up to a date

  /** What an entry of the tenant puts on an account, if it had occurred by then. */
  function ByThen(tenantId: string, asOf: Option<int>, code: AccountCode): Entry -> int
  {
    (e: Entry) =>
      if e.tenantId == tenantId && (asOf.None? || e.occurredAt <= asOf.value) then Effect(code, e.lines) else 0
  }

  /** The account list up to a date counts the tenant's entries that had occurred by then, and all of them without. */
  lemma {:induction false} ListedUpToDate(
    tenantId: string, asOf: Option<int>, entries: seq<Entry>, code: AccountCode)
    ensures Effect(code, LinesAsOf(tenantId, asOf, entries)) == SumInt(ByThen(tenantId, asOf, code), entries)
    ensures asOf.None? ==> LinesAsOf(tenantId, asOf, entries) == LinesOf(tenantId, entries)
  {
    if |entries| > 0 {
      var init, last := entries[..|entries| - 1], entries[|entries| - 1];
      ListedUpToDate(tenantId, asOf, init, code);
      var counts := last.tenantId == tenantId && (asOf.None? || last.occurredAt <= asOf.value);
      var added := if counts then last.lines else [];
      SumIntAppend(SignedOn(code), LinesAsOf(tenantId, asOf, init), added);
    }
  }
}
