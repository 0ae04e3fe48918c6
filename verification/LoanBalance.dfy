/**
 LoanBalanceService: what is outstanding on a loan, added up from the receivable lines of the entries
 that refer to it.
 */
module LoanBalance {
  import opened Reals
  import opened Rounding
  import opened Sums
  import opened LedgerModel
  import opened TenantLedger
  import opened LedgerProperties

  const LOAN_APPLICATION := "LoanApplication"

  predicate IsReceivable(code: AccountCode)
  {
    code in {LOAN_PRINCIPAL_RECEIVABLE, INTEREST_RECEIVABLE, FEES_RECEIVABLE}
  }

  function Receivables(lines: seq<Line>): (kept: seq<Line>)
    ensures forall l :: l in kept <==> l in lines && IsReceivable(l.accountCode)
  {
    if |lines| == 0 then []
    else
      Receivables(lines[..|lines| - 1])
      + if IsReceivable(lines[|lines| - 1].accountCode) then [lines[|lines| - 1]] else []
  }

  predicate RefersTo(e: Entry, tenantId: string, loanId: string)
  {
    e.tenantId == tenantId && e.referenceType == LOAN_APPLICATION && e.referenceId == loanId
  }

  /** The lines the balance query selects. */
  function LoanLines(tenantId: string, loanId: string, entries: seq<Entry>): (lines: seq<Line>)
    ensures forall l :: l in lines ==> exists e :: e in entries && l in e.lines
  {
    if |entries| == 0 then []
    else
      var last := entries[|entries| - 1];
      LoanLines(tenantId, loanId, entries[..|entries| - 1])
      + if RefersTo(last, tenantId, loanId) then Receivables(last.lines) else []
  }

  // --- what the selected lines come to

  /** What an entry puts on an account, if it is one for the loan. */
  function ForLoan(tenantId: string, loanId: string, code: AccountCode): Entry -> int
  {
    (e: Entry) =>
      if e.tenantId == tenantId && e.referenceType == "LoanApplication" && e.referenceId == loanId
      then Effect(code, e.lines) else 0
  }

  lemma {:induction false} ReceivablesKeepEffect(code: AccountCode, lines: seq<Line>)
    requires code == LOAN_PRINCIPAL_RECEIVABLE || code == INTEREST_RECEIVABLE || code == FEES_RECEIVABLE
    ensures Effect(code, Receivables(lines)) == Effect(code, lines)
  {
    if |lines| > 0 {
      var init, last := lines[..|lines| - 1], lines[|lines| - 1];
      ReceivablesKeepEffect(code, init);
      if IsReceivable(last.accountCode) {
        SumIntSnoc(SignedOn(code), Receivables(init), last);
      } else {
        assert Receivables(init) + [] == Receivables(init);
      }
    }
  }

  lemma {:induction false} EffectOfSelected(tenantId: string, loanId: string, code: AccountCode, entries: seq<Entry>)
    requires code == LOAN_PRINCIPAL_RECEIVABLE || code == INTEREST_RECEIVABLE || code == FEES_RECEIVABLE
    ensures Effect(code, LoanLines(tenantId, loanId, entries)) == SumInt(ForLoan(tenantId, loanId, code), entries)
  {
    if |entries| > 0 {
      var init, last := entries[..|entries| - 1], entries[|entries| - 1];
      var added := if RefersTo(last, tenantId, loanId) then Receivables(last.lines) else [];
      EffectOfSelected(tenantId, loanId, code, init);
      ReceivablesKeepEffect(code, last.lines);
      SumIntAppend(SignedOn(code), LoanLines(tenantId, loanId, init), added);
    }
  }

  /** The effect of every entry for the loan on principal, interest and fees receivable, and of nothing else. */
  lemma SelectedLinesAre(tenantId: string, loanId: string, entries: seq<Entry>)
    ensures var lines := LoanLines(tenantId, loanId, entries);
      && Effect(LOAN_PRINCIPAL_RECEIVABLE, lines)
           == SumInt(ForLoan(tenantId, loanId, LOAN_PRINCIPAL_RECEIVABLE), entries)
      && Effect(INTEREST_RECEIVABLE, lines) == SumInt(ForLoan(tenantId, loanId, INTEREST_RECEIVABLE), entries)
      && Effect(FEES_RECEIVABLE, lines) == SumInt(ForLoan(tenantId, loanId, FEES_RECEIVABLE), entries)
      && forall l :: l in lines ==>
           l.accountCode in {LOAN_PRINCIPAL_RECEIVABLE, INTEREST_RECEIVABLE, FEES_RECEIVABLE}
  {
    EffectOfSelected(tenantId, loanId, LOAN_PRINCIPAL_RECEIVABLE, entries);
    EffectOfSelected(tenantId, loanId, INTEREST_RECEIVABLE, entries);
    EffectOfSelected(tenantId, loanId, FEES_RECEIVABLE, entries);
    LoanLinesAreReceivable(tenantId, loanId, entries);
  }

  // --- the three balances

  datatype Kobo = Kobo(principal: int, interest: int, fees: int)

  /** What is outstanding: the three sums, each shown as nothing when the loan is overpaid. */
  function Owed(tenantId: string, loanId: string, entries: seq<Entry>): Kobo
  {
    Kobo(
      NotNegative(SumInt(ForLoan(tenantId, loanId, LOAN_PRINCIPAL_RECEIVABLE), entries)),
      NotNegative(SumInt(ForLoan(tenantId, loanId, INTEREST_RECEIVABLE), entries)),
      NotNegative(SumInt(ForLoan(tenantId, loanId, FEES_RECEIVABLE), entries)))
  }

  function NotNegative(kobo: int): int { if kobo >= 0 then kobo else 0 }

  /** Nothing is ever owed below zero, and what is owed otherwise is the sum. */
  lemma OverpaidOwesNothing(tenantId: string, loanId: string, entries: seq<Entry>)
    ensures var owed, sum := Owed(tenantId, loanId, entries).interest,
        SumInt(ForLoan(tenantId, loanId, INTEREST_RECEIVABLE), entries);
      owed >= 0 && owed >= sum && (sum >= 0 ==> owed == sum) && (sum < 0 ==> owed == 0)
    ensures Owed(tenantId, loanId, entries).principal >= 0 && Owed(tenantId, loanId, entries).fees >= 0
  {
  }

  datatype LoanBalances = LoanBalances(principal: real, interest: real, fees: real, total: real)

  /** Balances in naira that stand for these kobo. */
  predicate StandsFor(balances: LoanBalances, principal: int, interest: int, fees: int)
  {
    && balances.principal * 100.0 == principal as real
    && balances.interest * 100.0 == interest as real
    && balances.fees * 100.0 == fees as real
    && balances.total * 100.0 == (principal + interest + fees) as real
  }

  /** The rows of the query may come in any order. */
  method GetBalances(
    tenantId: string, loanId: string, entries: seq<Entry>, rows: seq<Line>)
    returns (balances: LoanBalances)
    requires LedgerOk(entries)
    requires multiset(rows) == multiset(LoanLines(tenantId, loanId, entries))
    ensures var owed := Owed(tenantId, loanId, entries);
      StandsFor(balances, owed.principal, owed.interest, owed.fees)
  {
    var accum: map<AccountCode, real> :=
      map[LOAN_PRINCIPAL_RECEIVABLE := 0.0, INTEREST_RECEIVABLE := 0.0, FEES_RECEIVABLE := 0.0];
    var i := 0;
    while i < |rows|
      invariant 0 <= i <= |rows|
      invariant Tracks(accum, rows[..i])
    {
      var line := rows[i];
      RowIsReceivable(tenantId, loanId, entries, rows, i);
      var current := accum[line.accountCode];
      var next := if line.direction == DEBIT then current + line.amount else current - line.amount;
      TracksNext(accum, rows, i, next);
      accum := accum[line.accountCode := next];
      i := i + 1;
    }
    assert rows[..i] == rows;
    EffectsIgnoreOrder(rows, LoanLines(tenantId, loanId, entries));
    SelectedLinesAre(tenantId, loanId, entries);
    var principal := Max(0.0, accum[LOAN_PRINCIPAL_RECEIVABLE]);
    var interest := Max(0.0, accum[INTEREST_RECEIVABLE]);
    var fees := Max(0.0, accum[FEES_RECEIVABLE]);
    balances := LoanBalances(principal, interest, fees, principal + interest + fees);
  }

  /** The accumulators hold, in naira, the effects of the lines read so far. */
  ghost predicate Tracks(accum: map<AccountCode, real>, lines: seq<Line>)
  {
    && accum.Keys == {LOAN_PRINCIPAL_RECEIVABLE, INTEREST_RECEIVABLE, FEES_RECEIVABLE}
    && forall code :: code in accum ==> accum[code] * 100.0 == Effect(code, lines) as real
  }

  lemma TracksNext(accum: map<AccountCode, real>, rows: seq<Line>, i: nat, next: real)
    requires i < |rows| && Tracks(accum, rows[..i]) && LineOk(rows[i]) && IsReceivable(rows[i].accountCode)
    requires var current, line := accum[rows[i].accountCode], rows[i];
      next == if line.direction == DEBIT then current + line.amount else current - line.amount
    ensures Tracks(accum[rows[i].accountCode := next], rows[..i + 1])
  {
    EffectsGrow(rows, i);
  }

  lemma EffectsGrow(rows: seq<Line>, i: nat)
    requires i < |rows|
    ensures forall code :: Effect(code, rows[..i + 1]) == Effect(code, rows[..i]) + SignedOn(code)(rows[i])
  {
    forall code ensures Effect(code, rows[..i + 1]) == Effect(code, rows[..i]) + SignedOn(code)(rows[i]) {
      SumIntPrefix(SignedOn(code), rows, i);
    }
  }

  lemma EffectsIgnoreOrder(a: seq<Line>, b: seq<Line>)
    requires multiset(a) == multiset(b)
    ensures forall code :: Effect(code, a) == Effect(code, b)
  {
    forall code ensures Effect(code, a) == Effect(code, b) {
      SumIntPermutation(SignedOn(code), a, b);
    }
  }

  lemma RowIsReceivable(tenantId: string, loanId: string, entries: seq<Entry>, rows: seq<Line>, i: nat)
    requires LedgerOk(entries) && i < |rows|
    requires multiset(rows) == multiset(LoanLines(tenantId, loanId, entries))
    ensures LineOk(rows[i]) && IsReceivable(rows[i].accountCode)
  {
    var lines := LoanLines(tenantId, loanId, entries);
    assert rows[i] in multiset(rows);
    assert rows[i] in lines;
    LoanLinesAreReceivable(tenantId, loanId, entries);
    var e :| e in entries && rows[i] in e.lines;
    assert EntryOk(e);
  }

  lemma {:induction false} LoanLinesAreReceivable(tenantId: string, loanId: string, entries: seq<Entry>)
    ensures forall l :: l in LoanLines(tenantId, loanId, entries) ==> IsReceivable(l.accountCode)
  {
    if |entries| > 0 {
      LoanLinesAreReceivable(tenantId, loanId, entries[..|entries| - 1]);
    }
  }

  // --- what moves a loan's balances

  /** What a posting's lines put on an account, each rounded to kobo. */
  function Puts(code: AccountCode): LineInput -> int
  {
    (line: LineInput) =>
      if line.accountCode != code then 0
      else if line.direction == DEBIT then ToMinor(line.amount)
      else -ToMinor(line.amount)
  }

  lemma StoredPuts(input: EntryInput, id: string, code: AccountCode)
    ensures Effect(code, NewEntry(input, id).lines) == SumInt(Puts(code), input.lines)
  {
    var lines := NewEntry(input, id).lines;
    SumIntAgree(SignedOn(code), lines, Puts(code), input.lines);
  }

  /** A posting for the loan that goes through moves each of its three sums by what its lines put on the account. */
  lemma PostingMovesLoan(entries: seq<Entry>, input: EntryInput, newId: string, code: AccountCode)
    requires Post(entries, input, newId).1 == Posted(newId, false)
    requires input.referenceType == "LoanApplication"
    ensures SumInt(ForLoan(input.tenantId, input.referenceId, code), Post(entries, input, newId).0)
         == SumInt(ForLoan(input.tenantId, input.referenceId, code), entries) + SumInt(Puts(code), input.lines)
  {
    PostAppends(entries, input, newId);
    SumIntSnoc(ForLoan(input.tenantId, input.referenceId, code), entries, NewEntry(input, newId));
    StoredPuts(input, newId, code);
  }

  /** Interest accrued on the loan: so much more is owed. */
  lemma AccrualIsOwed(entries: seq<Entry>, input: EntryInput, newId: string, kobo: nat)
    requires Post(entries, input, newId).1 == Posted(newId, false) && input.referenceType == "LoanApplication"
    requires |input.lines| == 2 && input.lines[0] == LineInput(INTEREST_RECEIVABLE, DEBIT, kobo as real / 100.0)
    requires input.lines[1] == LineInput(INTEREST_INCOME, CREDIT, kobo as real / 100.0)
    requires SumInt(ForLoan(input.tenantId, input.referenceId, INTEREST_RECEIVABLE), entries) >= 0
    ensures Owed(input.tenantId, input.referenceId, Post(entries, input, newId).0).interest
         == Owed(input.tenantId, input.referenceId, entries).interest + kobo
  {
    PostingMovesLoan(entries, input, newId, INTEREST_RECEIVABLE);
    RoundWhole(kobo);
    SumIntPrefix(Puts(INTEREST_RECEIVABLE), input.lines, 0);
    SumIntPrefix(Puts(INTEREST_RECEIVABLE), input.lines, 1);
    assert input.lines[..2] == input.lines;
  }

  // --- what does not move a loan's balances

  /** A posting that could move the loan: it refers to it and has a receivable line. */
  predicate Concerns(input: EntryInput, tenantId: string, loanId: string)
  {
    && input.tenantId == tenantId && input.referenceType == LOAN_APPLICATION && input.referenceId == loanId
    && exists i :: 0 <= i < |input.lines| && IsReceivable(input.lines[i].accountCode)
  }

  lemma NoReceivableStored(input: EntryInput, id: string)
    requires forall i :: 0 <= i < |input.lines| ==> !IsReceivable(input.lines[i].accountCode)
    ensures Receivables(NewEntry(input, id).lines) == []
  {
    var lines := NewEntry(input, id).lines;
    forall l | l in lines ensures !IsReceivable(l.accountCode) {
      var i :| 0 <= i < |lines| && lines[i] == l;
      assert l == Stored(input.lines[i], CurrencyOf(input));
    }
    NoneReceivable(lines);
  }

  lemma {:induction false} NoneReceivable(lines: seq<Line>)
    requires forall l :: l in lines ==> !IsReceivable(l.accountCode)
    ensures Receivables(lines) == []
  {
    if |lines| > 0 {
      NoneReceivable(lines[..|lines| - 1]);
    }
  }

  lemma AddedElsewhere(entries: seq<Entry>, added: Entry, tenantId: string, loanId: string)
    requires RefersTo(added, tenantId, loanId) ==> Receivables(added.lines) == []
    ensures LoanLines(tenantId, loanId, entries + [added]) == LoanLines(tenantId, loanId, entries)
  {
  }

  lemma PostingElsewhere(input: EntryInput, id: string, tenantId: string, loanId: string)
    requires !Concerns(input, tenantId, loanId) && RefersTo(NewEntry(input, id), tenantId, loanId)
    ensures Receivables(NewEntry(input, id).lines) == []
  {
    NoReceivableStored(input, id);
  }

  lemma ReversalElsewhere(entries: seq<Entry>, command: Command, tenantId: string, loanId: string)
    requires command.ReverseCommand? && AppliedInput(entries, command).Some?
    ensures !RefersTo(NewEntry(AppliedInput(entries, command).value, command.newId), tenantId, loanId)
  {
  }

  /** A reversal, an interrupted posting or one that does not concern the loan selects no new line for it. */
  lemma OtherCallsAddNoLoanLines(entries: seq<Entry>, command: Command, tenantId: string, loanId: string)
    requires command.PostCommand? ==> !Concerns(command.input, tenantId, loanId)
    ensures LoanLines(tenantId, loanId, Apply(entries, command)) == LoanLines(tenantId, loanId, entries)
  {
    ApplyAppends(entries, command);
    if Apply(entries, command) != entries {
      var input := AppliedInput(entries, command).value;
      var added := AppliedEntry(command, input);
      if RefersTo(added, tenantId, loanId) {
        match command
        case PostCommand(_, newId) => PostingElsewhere(input, newId, tenantId, loanId);
        case InterruptedCommand(_, _) =>
        case ReverseCommand(_, _, _, _, _) => ReversalElsewhere(entries, command, tenantId, loanId);
      }
      AddedElsewhere(entries, added, tenantId, loanId);
    }
  }

  /** The calls from number n on concern something else. */
  lemma {:induction false} FramedFrom(all: seq<Command>, n: nat, tenantId: string, loanId: string)
    requires n <= |all|
    requires forall i :: n <= i < |all| && all[i].PostCommand? ==> !Concerns(all[i].input, tenantId, loanId)
    ensures LoanLines(tenantId, loanId, RunLedger(all)) == LoanLines(tenantId, loanId, RunLedger(all[..n]))
  {
    if n == |all| {
      assert all[..n] == all;
    } else {
      var init := all[..|all| - 1];
      FramedFrom(init, n, tenantId, loanId);
      assert init[..n] == all[..n];
      OtherCallsAddNoLoanLines(RunLedger(init), all[|all| - 1], tenantId, loanId);
    }
  }

  /**
   Over any run: reversals, capital movements and postings for other loans leave a loan's selected
   lines, and with them its balances, exactly as they were.
   */
  lemma LoanBalancesAreFramed(commands: seq<Command>, others: seq<Command>, tenantId: string, loanId: string)
    requires forall i :: 0 <= i < |others| && others[i].PostCommand? ==> !Concerns(others[i].input, tenantId, loanId)
    ensures LoanLines(tenantId, loanId, RunLedger(commands + others))
         == LoanLines(tenantId, loanId, RunLedger(commands))
  {
    FramedFrom(commands + others, |commands|, tenantId, loanId);
    assert (commands + others)[..|commands|] == commands;
  }
}
