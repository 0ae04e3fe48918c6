/**
 TenantLedgerService: posting, journals, reversal and the account list. `Post` and `Reverse` say what
 one atomic call does to the table of entries; the class below does it step by step, as the service.
 */
module TenantLedger {
  import opened Wrappers
  import opened Sums
  import opened LedgerModel
  import opened Text

  datatype PostError =
    | KeyRequired
    | NoLines
    | RoleCannotPost
    | RoleCannotReverse
    | NonPositiveAmount(accountCode: AccountCode)
    | Unbalanced(debit: real, credit: real)
    | TooFewEntries
    | MixedCurrencies
    | EntryNotFound
    | UniqueViolation

  datatype PostResult = Posted(id: string, reused: bool) | Rejected(error: PostError)

  // --- checks before the database is touched

  predicate RoleCanPost(role: Option<Role>, entryType: EntryType)
  {
    match role
    case None => true
    case Some(SYSTEM) => true
    case Some(SUPER_ADMIN) => true
    case Some(OPS) => entryType in {DISBURSEMENT, REPAYMENT, ACCRUAL}
    case Some(RISK_MANAGER) => entryType == WRITE_OFF
    case Some(_) => false
  }

  predicate RoleCanReverse(role: Option<Role>)
  {
    role in {None, Some(SYSTEM), Some(SUPER_ADMIN)}
  }

  function DebitAmount(line: LineInput): real { if line.direction == DEBIT then line.amount else 0.0 }

  function CreditAmount(line: LineInput): real { if line.direction == DEBIT then 0.0 else line.amount }

  predicate AllPositive(lines: seq<LineInput>)
  {
    forall i :: 0 <= i < |lines| ==> lines[i].amount > 0.0
  }

  predicate Balanced(lines: seq<LineInput>)
  {
    SumReal(DebitAmount, lines) == SumReal(CreditAmount, lines)
  }

  function FirstNonPositive(lines: seq<LineInput>): (code: AccountCode)
    requires !AllPositive(lines)
  {
    if lines[0].amount <= 0.0 then lines[0].accountCode else FirstNonPositive(lines[1..])
  }

  function CheckLines(lines: seq<LineInput>): (error: Option<PostError>)
  {
    if !AllPositive(lines) then Some(NonPositiveAmount(FirstNonPositive(lines)))
    else if !Balanced(lines) then Some(Unbalanced(SumReal(DebitAmount, lines), SumReal(CreditAmount, lines)))
    else None
  }

  function CheckPost(input: EntryInput): (error: Option<PostError>)
  {
    if IsBlank(input.idempotencyKey) then Some(KeyRequired)
    else if |input.lines| == 0 then Some(NoLines)
    else if !RoleCanPost(input.actorRole, input.entryType) then Some(RoleCannotPost)
    else CheckLines(input.lines)
  }

  predicate ValidPost(input: EntryInput)
  {
    CheckPost(input).None?
  }

  // --- the table of entries

  function FindKey(entries: seq<Entry>, tenantId: string, key: string): (found: Option<Entry>)
    ensures found.Some? ==> found.value in entries
    ensures found.Some? ==> found.value.tenantId == tenantId && found.value.idempotencyKey == key
    ensures found.None? ==> forall e :: e in entries ==> !(e.tenantId == tenantId && e.idempotencyKey == key)
  {
    if |entries| == 0 then None
    else if entries[0].tenantId == tenantId && entries[0].idempotencyKey == key then Some(entries[0])
    else FindKey(entries[1..], tenantId, key)
  }

  function FindEntry(entries: seq<Entry>, tenantId: string, id: string): (found: Option<Entry>)
    ensures found.Some? ==> found.value in entries && found.value.tenantId == tenantId && found.value.id == id
    ensures found.None? ==> forall e :: e in entries ==> !(e.tenantId == tenantId && e.id == id)
  {
    if |entries| == 0 then None
    else if entries[0].tenantId == tenantId && entries[0].id == id then Some(entries[0])
    else FindEntry(entries[1..], tenantId, id)
  }

  predicate IdTaken(entries: seq<Entry>, id: string)
  {
    exists e :: e in entries && e.id == id
  }

  const DEFAULT_CURRENCY := "NGN"

  function CurrencyOf(input: EntryInput): string
  {
    Normalized(if input.currency.Some? then input.currency.value else DEFAULT_CURRENCY)
  }

  function NewEntry(input: EntryInput, id: string): Entry
  {
    Entry(id, input.tenantId, input.occurredAt, input.entryType, input.idempotencyKey,
          input.referenceType, input.referenceId, StoredLines(input.lines, CurrencyOf(input)))
  }

  /** One posting. An id that is already taken breaks the primary key, and the transaction is undone. */
  function Post(entries: seq<Entry>, input: EntryInput, newId: string): (seq<Entry>, PostResult)
  {
    if !ValidPost(input) then (entries, Rejected(CheckPost(input).value))
    else match FindKey(entries, input.tenantId, input.idempotencyKey)
      case Some(existing) => (entries, Posted(existing.id, true))
      case None =>
        if IdTaken(entries, newId) then (entries, Rejected(UniqueViolation))
        else (entries + [NewEntry(input, newId)], Posted(newId, false))
  }

  /**
   Without a caller's transaction the entry and its lines are two writes: a posting that stops between them
   leaves an entry without lines.
   */
  function PostInterrupted(entries: seq<Entry>, input: EntryInput, newId: string): seq<Entry>
  {
    if Post(entries, input, newId).1 == Posted(newId, false) then entries + [NewEntry(input, newId).(lines := [])]
    else entries
  }

  // --- reversal

  function Opposite(direction: Direction): Direction
  {
    if direction == DEBIT then CREDIT else DEBIT
  }

  function ReversalKey(id: string): string { "reversal:" + id }

  function FlippedLines(lines: seq<Line>): (flipped: seq<LineInput>)
    ensures |flipped| == |lines|
    ensures forall i :: 0 <= i < |lines| ==>
      flipped[i] == LineInput(lines[i].accountCode, Opposite(lines[i].direction), lines[i].amount)
  {
    seq(|lines|, i requires 0 <= i < |lines| =>
      LineInput(lines[i].accountCode, Opposite(lines[i].direction), lines[i].amount))
  }

  function ReversalInput(entry: Entry, role: Option<Role>, now: int): EntryInput
  {
    EntryInput(entry.tenantId, now, ADJUSTMENT, ReversalKey(entry.id), "LEDGER_REVERSAL", entry.id,
               Some(if |entry.lines| > 0 then entry.lines[0].currency else DEFAULT_CURRENCY), role,
               FlippedLines(entry.lines))
  }

  function Reverse(entries: seq<Entry>, tenantId: string, entryId: string, role: Option<Role>, now: int, newId: string)
    : (seq<Entry>, PostResult)
  {
    if !RoleCanReverse(role) then (entries, Rejected(RoleCannotReverse))
    else match FindEntry(entries, tenantId, entryId)
      case None => (entries, Rejected(EntryNotFound))
      case Some(entry) =>
        match FindKey(entries, tenantId, ReversalKey(entry.id))
        case Some(existing) => (entries, Posted(existing.id, true))
        case None => Post(entries, ReversalInput(entry, role, now), newId)
  }

  // --- journals

  datatype JournalLine = JournalLine(accountCode: AccountCode, direction: Direction, amount: real,
    currency: Option<string>)

  datatype JournalInput = JournalInput(
    tenantId: string, referenceType: string, referenceId: string, idempotencyKey: string,
    actorRole: Option<Role>, occurredAt: int, entries: seq<JournalLine>)

  function JournalCurrency(line: JournalLine): string
  {
    Normalized(if line.currency.Some? then line.currency.value else DEFAULT_CURRENCY)
  }

  predicate OneCurrency(lines: seq<JournalLine>)
  {
    |lines| > 0 && forall i :: 0 <= i < |lines| ==> JournalCurrency(lines[i]) == JournalCurrency(lines[0])
  }

  function JournalLines(lines: seq<JournalLine>): (inputs: seq<LineInput>)
    ensures |inputs| == |lines|
    ensures forall i :: 0 <= i < |lines| ==>
      inputs[i] == LineInput(lines[i].accountCode, lines[i].direction, lines[i].amount)
  {
    seq(|lines|, i requires 0 <= i < |lines| => LineInput(lines[i].accountCode, lines[i].direction, lines[i].amount))
  }

  /** The posting a journal becomes. The journal's own currency is not handed on. */
  function JournalPost(journal: JournalInput): EntryInput
  {
    EntryInput(journal.tenantId, journal.occurredAt, ADJUSTMENT, journal.idempotencyKey, journal.referenceType,
               journal.referenceId, None, journal.actorRole, JournalLines(journal.entries))
  }

  function CheckBalanced(lines: seq<LineInput>): (error: Option<PostError>)
  {
    if |lines| < 2 then Some(TooFewEntries) else CheckLines(lines)
  }

  function Journal(entries: seq<Entry>, journal: JournalInput, newId: string): (seq<Entry>, PostResult)
  {
    if !OneCurrency(journal.entries) then (entries, Rejected(MixedCurrencies))
    else match CheckBalanced(JournalLines(journal.entries))
      case Some(error) => (entries, Rejected(error))
      case None => Post(entries, JournalPost(journal), newId)
  }

  // --- account list

  datatype AccountRow = AccountRow(account: Account, debitMinor: int, creditMinor: int, balanceMinor: int)

  datatype Total = Total(d: int, c: int)

  /** The lines of a tenant, up to an optional date. */
  function LinesAsOf(tenantId: string, asOf: Option<int>, entries: seq<Entry>): seq<Line>
  {
    if |entries| == 0 then []
    else
      var last := entries[|entries| - 1];
      LinesAsOf(tenantId, asOf, entries[..|entries| - 1])
      + if last.tenantId == tenantId && (asOf.None? || last.occurredAt <= asOf.value) then last.lines else []
  }

  function DebitOn(code: AccountCode): Line -> int
  {
    (line: Line) => if line.accountCode == code then DebitMinor(line) else 0
  }

  function CreditOn(code: AccountCode): Line -> int
  {
    (line: Line) => if line.accountCode == code then CreditMinor(line) else 0
  }

  /** Every account in the order of the codes, with its two sides and its balance on its normal side. */
  ghost predicate IsAccountList(rows: seq<AccountRow>, lines: seq<Line>)
  {
    && |rows| == |SORTED_CODES|
    && forall i :: 0 <= i < |rows| ==> IsAccountRow(rows[i], AccountOf(SORTED_CODES[i]), lines)
  }

  ghost predicate IsAccountRow(row: AccountRow, account: Account, lines: seq<Line>)
  {
    && row.account == account
    && row.debitMinor == SumInt(DebitOn(account.code), lines)
    && row.creditMinor == SumInt(CreditOn(account.code), lines)
    && row.balanceMinor == (if account.normalBalance == DEBIT then 1 else -1) * Effect(account.code, lines)
  }

  class TenantLedgerService {
    var entries: seq<Entry>

    constructor ()
      ensures entries == []
    {
      entries := [];
    }

    /** Adds up both sides line by line, stopping at the first amount that is not positive. */
    static method AssertLines(lines: seq<LineInput>) returns (error: Option<PostError>)
      ensures error == CheckLines(lines)
    {
      var debit, credit := 0.0, 0.0;
      var i := 0;
      while i < |lines|
        invariant 0 <= i <= |lines|
        invariant forall j :: 0 <= j < i ==> lines[j].amount > 0.0
        invariant debit == SumReal(DebitAmount, lines[..i])
        invariant credit == SumReal(CreditAmount, lines[..i])
      {
        if lines[i].amount <= 0.0 {
          FirstNonPositiveIs(lines, i);
          return Some(NonPositiveAmount(lines[i].accountCode));
        }
        SumRealPrefix(DebitAmount, lines, i);
        SumRealPrefix(CreditAmount, lines, i);
        if lines[i].direction == DEBIT {
          debit := debit + lines[i].amount;
        } else {
          credit := credit + lines[i].amount;
        }
        i := i + 1;
      }
      assert lines[..i] == lines;
      if debit != credit {
        return Some(Unbalanced(debit, credit));
      }
      return None;
    }

    method PostEntry(input: EntryInput, newId: string) returns (result: PostResult)
      modifies this
      ensures (entries, result) == Post(old(entries), input, newId)
    {
      if IsBlank(input.idempotencyKey) {
        return Rejected(KeyRequired);
      }
      if |input.lines| == 0 {
        return Rejected(NoLines);
      }
      if !RoleCanPost(input.actorRole, input.entryType) {
        return Rejected(RoleCannotPost);
      }
      var error := AssertLines(input.lines);
      if error.Some? {
        return Rejected(error.value);
      }
      var existing := FindKey(entries, input.tenantId, input.idempotencyKey);
      if existing.Some? {
        return Posted(existing.value.id, true);
      }
      if IdTaken(entries, newId) {
        return Rejected(UniqueViolation);
      }
      entries := entries + [NewEntry(input, newId)];
      return Posted(newId, false);
    }

    method ReverseEntry(tenantId: string, entryId: string, role: Option<Role>, now: int, newId: string)
      returns (result: PostResult)
      modifies this
      ensures (entries, result) == Reverse(old(entries), tenantId, entryId, role, now, newId)
    {
      if !RoleCanReverse(role) {
        return Rejected(RoleCannotReverse);
      }
      var entry := FindEntry(entries, tenantId, entryId);
      if entry.None? {
        return Rejected(EntryNotFound);
      }
      var existing := FindKey(entries, tenantId, ReversalKey(entry.value.id));
      if existing.Some? {
        return Posted(existing.value.id, true);
      }
      result := PostEntry(ReversalInput(entry.value, role, now), newId);
    }

    method CreateJournal(journal: JournalInput, newId: string) returns (result: PostResult)
      modifies this
      ensures (entries, result) == Journal(old(entries), journal, newId)
    {
      if !OneCurrency(journal.entries) {
        return Rejected(MixedCurrencies);
      }
      var lines := JournalLines(journal.entries);
      if |lines| < 2 {
        return Rejected(TooFewEntries);
      }
      var error := AssertLines(lines);
      if error.Some? {
        return Rejected(error.value);
      }
      result := PostEntry(JournalPost(journal), newId);
    }

    method ListAccountsWithBalances(tenantId: string, asOf: Option<int>) returns (rows: seq<AccountRow>)
      ensures IsAccountList(rows, LinesAsOf(tenantId, asOf, entries))
    {
      var lines := LinesAsOf(tenantId, asOf, entries);
      var totals := AddUp(lines);
      rows := [];
      for i := 0 to |SORTED_CODES|
        invariant |rows| == i
        invariant forall k :: 0 <= k < i ==> rows[k] == RowOf(AccountOf(SORTED_CODES[k]), totals)
      {
        rows := rows + [RowOf(AccountOf(SORTED_CODES[i]), totals)];
      }
      forall i | 0 <= i < |rows| ensures IsAccountRow(rows[i], AccountOf(SORTED_CODES[i]), lines) {
        SidesMakeEffect(SORTED_CODES[i], lines);
      }
    }

    static function RowOf(account: Account, totals: map<AccountCode, Total>): AccountRow
    {
      var t := TotalAt(totals, account.code);
      var raw := t.d - t.c;
      AccountRow(account, t.d, t.c, if account.normalBalance == DEBIT then raw else -raw)
    }

    static function TotalAt(totals: map<AccountCode, Total>, code: AccountCode): Total
    {
      if code in totals then totals[code] else Total(0, 0)
    }

    static method AddUp(lines: seq<Line>) returns (totals: map<AccountCode, Total>)
      ensures forall code :: TotalAt(totals, code) == Total(SumInt(DebitOn(code), lines), SumInt(CreditOn(code), lines))
    {
      totals := map[];
      var i := 0;
      while i < |lines|
        invariant 0 <= i <= |lines|
        invariant forall code ::
          TotalAt(totals, code) == Total(SumInt(DebitOn(code), lines[..i]), SumInt(CreditOn(code), lines[..i]))
      {
        var line := lines[i];
        var acc := TotalAt(totals, line.accountCode);
        if line.direction == DEBIT {
          acc := acc.(d := acc.d + line.amountMinor);
        } else {
          acc := acc.(c := acc.c + line.amountMinor);
        }
        forall code
          ensures SumInt(DebitOn(code), lines[..i + 1]) == SumInt(DebitOn(code), lines[..i]) + DebitOn(code)(line)
          ensures SumInt(CreditOn(code), lines[..i + 1]) == SumInt(CreditOn(code), lines[..i]) + CreditOn(code)(line)
        {
          SumIntPrefix(DebitOn(code), lines, i);
          SumIntPrefix(CreditOn(code), lines, i);
        }
        totals := totals[line.accountCode := acc];
        i := i + 1;
      }
      assert lines[..i] == lines;
    }
  }

  lemma FirstNonPositiveIs(lines: seq<LineInput>, i: nat)
    requires i < |lines| && lines[i].amount <= 0.0
    requires forall j :: 0 <= j < i ==> lines[j].amount > 0.0
    ensures !AllPositive(lines) && FirstNonPositive(lines) == lines[i].accountCode
  {
    assert !AllPositive(lines);
    if i > 0 {
      FirstNonPositiveIs(lines[1..], i - 1);
    }
  }

  /** The two sides of an account make up its effect. */
  lemma {:induction false} SidesMakeEffect(code: AccountCode, lines: seq<Line>)
    ensures SumInt(DebitOn(code), lines) - SumInt(CreditOn(code), lines) == Effect(code, lines)
  {
    if |lines| > 0 {
      SidesMakeEffect(code, lines[..|lines| - 1]);
    }
  }
}
