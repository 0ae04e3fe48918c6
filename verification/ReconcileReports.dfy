/** What the nightly job reports: exactly the tenants whose stored lines are out of balance, each time it meets one. */
module ReconcileReports {
  import opened Wrappers
  import opened Rounding
  import opened Sums
  import opened LedgerModel
  import opened TenantLedger
  import opened LedgerProperties
  import opened LedgerReversals
  import opened LedgerReconcile
  import opened Text

  // --- which tenants are reported

  /** Each tenant whose query succeeds gets the groups of its own lines. */
  ghost predicate GroupsOf(tenants: seq<string>, rowsOf: Query, entries: seq<Entry>)
  {
    forall t :: t in tenants && rowsOf(t).Some? ==> IsGroupBy(rowsOf(t).value, LinesOf(t, entries))
  }

  /** Total debits minus total credits of a tenant's lines. */
  function OutOfBalance(t: string, entries: seq<Entry>): int
  {
    SumInt(DebitMinor, LinesOf(t, entries)) - SumInt(CreditMinor, LinesOf(t, entries))
  }

  function DueIf(known: bool, delta: int): Option<int> { if known && delta != 0 then Some(delta) else None }

  /** What a tenant is out of balance by, if the job can know it and it is not zero. */
  function Due(rowsOf: Query, entries: seq<Entry>): string -> Option<int>
  {
    (t: string) => DueIf(rowsOf(t).Some?, OutOfBalance(t, entries))
  }

  function ReportIfDue(t: string, due: Option<int>): seq<Mismatch>
  {
    if due.Some? then [Mismatch(t, due.value)] else []
  }

  lemma ReportOfDelta(t: string, rowsOf: Query, delta: int)
    requires rowsOf(t).Some? ==> Delta(TotalsOf(rowsOf(t).value)) == delta
    ensures ReportOf(t, rowsOf) == ReportIfDue(t, DueIf(rowsOf(t).Some?, delta))
  {
  }

  lemma GroupsTellDelta(t: string, rows: seq<Row>, entries: seq<Entry>)
    requires IsGroupBy(rows, LinesOf(t, entries))
    ensures Delta(TotalsOf(rows)) == OutOfBalance(t, entries)
  {
    DeltaIsDebitsMinusCredits(rows, LinesOf(t, entries));
  }

  /** The places in the list of tenants where a report is due. */
  function Places(tenants: seq<string>, due: string -> Option<int>): (places: seq<nat>)
  {
    if |tenants| == 0 then []
    else
      var n := |tenants| - 1;
      Places(tenants[..n], due) + if due(tenants[n]).Some? then [n] else []
  }

  /** Places are in the list, and one behind the other. */
  lemma {:induction false} PlacesRise(tenants: seq<string>, due: string -> Option<int>)
    ensures forall k :: 0 <= k < |Places(tenants, due)| ==> Places(tenants, due)[k] < |tenants|
    ensures forall k, l :: 0 <= k < l < |Places(tenants, due)| ==> Places(tenants, due)[k] < Places(tenants, due)[l]
  {
    if |tenants| > 0 {
      PlacesRise(tenants[..|tenants| - 1], due);
    }
  }

  /** Every tenant for whom a report is due has its place. */
  lemma {:induction false} PlaceOf(tenants: seq<string>, due: string -> Option<int>, i: nat) returns (k: nat)
    requires i < |tenants| && due(tenants[i]).Some?
    ensures k < |Places(tenants, due)| && Places(tenants, due)[k] == i
  {
    var n := |tenants| - 1;
    k := |Places(tenants[..n], due)|;
    if i < n {
      k := PlaceOf(tenants[..n], due, i);
    }
  }

  /** One report for each place, of the tenant there. */
  ghost predicate AreReports(
    reports: seq<Mismatch>, places: seq<nat>, tenants: seq<string>, due: string -> Option<int>)
  {
    && |reports| == |places|
    && forall k :: 0 <= k < |places| ==> IsReportAt(reports[k], places[k], tenants, due)
  }

  predicate IsReportAt(report: Mismatch, place: nat, tenants: seq<string>, due: string -> Option<int>)
  {
    place < |tenants| && report.tenantId == tenants[place] && due(tenants[place]) == Some(report.deltaMinor)
  }

  lemma ReportsSnoc(reports: seq<Mismatch>, places: seq<nat>, tenants: seq<string>, due: string -> Option<int>)
    requires |tenants| > 0 && AreReports(reports, places, tenants[..|tenants| - 1], due)
    ensures var n := |tenants| - 1;
      AreReports(reports + ReportIfDue(tenants[n], due(tenants[n])),
                 places + if due(tenants[n]).Some? then [n] else [], tenants, due)
  {
    var n := |tenants| - 1;
    forall k | 0 <= k < |places| ensures IsReportAt(reports[k], places[k], tenants, due) {
      assert IsReportAt(reports[k], places[k], tenants[..n], due);
    }
  }

  lemma {:induction false} ReportsByTenant(tenants: seq<string>, rowsOf: Query, due: string -> Option<int>)
    requires forall t :: t in tenants ==> ReportOf(t, rowsOf) == ReportIfDue(t, due(t))
    ensures AreReports(Reports(tenants, rowsOf), Places(tenants, due), tenants, due)
  {
    if |tenants| > 0 {
      var n := |tenants| - 1;
      ReportsByTenant(tenants[..n], rowsOf, due);
      ReportsSnoc(Reports(tenants[..n], rowsOf), Places(tenants[..n], due), tenants, due);
    }
  }

  lemma AllTenantsReport(tenants: seq<string>, rowsOf: Query, entries: seq<Entry>)
    requires GroupsOf(tenants, rowsOf, entries)
    ensures AreReports(
      Reports(tenants, rowsOf), Places(tenants, Due(rowsOf, entries)), tenants, Due(rowsOf, entries))
  {
    forall t | t in tenants ensures ReportOf(t, rowsOf) == ReportIfDue(t, Due(rowsOf, entries)(t)) {
      if rowsOf(t).Some? {
        GroupsTellDelta(t, rowsOf(t).value, entries);
      }
      ReportOfDelta(t, rowsOf, OutOfBalance(t, entries));
    }
    ReportsByTenant(tenants, rowsOf, Due(rowsOf, entries));
  }

  /**
   The reports are those of the tenants that are out of balance and whose query succeeds, all of them, in the
   order of the tenants, each with its debits minus credits, whichever is more.
   */
  lemma ReportsAreTheMismatches(tenants: seq<string>, rowsOf: Query, entries: seq<Entry>) returns (places: seq<nat>)
    requires GroupsOf(tenants, rowsOf, entries)
    ensures AreReports(Reports(tenants, rowsOf), places, tenants, Due(rowsOf, entries))
    ensures forall k, l :: 0 <= k < l < |places| ==> places[k] < places[l]
    ensures forall i :: 0 <= i < |tenants| && Due(rowsOf, entries)(tenants[i]).Some? ==> i in places
  {
    var due := Due(rowsOf, entries);
    places := Places(tenants, due);
    AllTenantsReport(tenants, rowsOf, entries);
    PlacesRise(tenants, due);
    forall i | 0 <= i < |tenants| && due(tenants[i]).Some? ensures i in places {
      var k := PlaceOf(tenants, due, i);
    }
  }

  lemma ReportedIsDue(
    reports: seq<Mismatch>, places: seq<nat>, tenants: seq<string>, due: string -> Option<int>, report: Mismatch)
    requires AreReports(reports, places, tenants, due) && report in reports
    ensures report.tenantId in tenants && due(report.tenantId) == Some(report.deltaMinor)
  {
    var k :| 0 <= k < |reports| && reports[k] == report;
    assert IsReportAt(reports[k], places[k], tenants, due);
  }

  lemma DueIsReported(reports: seq<Mismatch>, tenants: seq<string>, due: string -> Option<int>, t: string)
    requires AreReports(reports, Places(tenants, due), tenants, due) && t in tenants && due(t).Some?
    ensures Mismatch(t, due(t).value) in reports
  {
    var i :| 0 <= i < |tenants| && tenants[i] == t;
    var k := PlaceOf(tenants, due, i);
    assert IsReportAt(reports[k], Places(tenants, due)[k], tenants, due);
  }

  lemma ReportedExactlyIfDue(
    reports: seq<Mismatch>, tenants: seq<string>, due: string -> Option<int>, t: string, delta: int)
    requires AreReports(reports, Places(tenants, due), tenants, due)
    ensures Mismatch(t, delta) in reports <==> t in tenants && due(t) == Some(delta)
  {
    if Mismatch(t, delta) in reports {
      ReportedIsDue(reports, Places(tenants, due), tenants, due, Mismatch(t, delta));
    }
    if t in tenants && due(t) == Some(delta) {
      DueIsReported(reports, tenants, due, t);
    }
  }

  lemma DueReads(t: string, rowsOf: Query, entries: seq<Entry>, delta: int)
    ensures Due(rowsOf, entries)(t) == Some(delta)
      <==> && rowsOf(t).Some?
           && delta == SumInt(DebitMinor, LinesOf(t, entries)) - SumInt(CreditMinor, LinesOf(t, entries))
           && delta != 0
  {
  }

  /** A tenant is reported with a delta if and only if that is what its lines are out of balance by, and not zero. */
  lemma ReportedExactlyIfOutOfBalance(
    tenants: seq<string>, rowsOf: Query, entries: seq<Entry>, t: string, delta: int)
    requires GroupsOf(tenants, rowsOf, entries)
    ensures Mismatch(t, delta) in Reports(tenants, rowsOf)
      <==> && t in tenants && rowsOf(t).Some?
           && delta == SumInt(DebitMinor, LinesOf(t, entries)) - SumInt(CreditMinor, LinesOf(t, entries))
           && delta != 0
  {
    AllTenantsReport(tenants, rowsOf, entries);
    ReportedExactlyIfDue(Reports(tenants, rowsOf), tenants, Due(rowsOf, entries), t, delta);
    DueReads(t, rowsOf, entries, delta);
  }

  /** 1.00 debited against 0.505 and 0.495 credited, which are stored as 100 against 51 and 50 kobo. */
  predicate IsHalfKoboPosting(input: EntryInput)
  {
    && !IsBlank(input.idempotencyKey) && input.actorRole.None? && |input.lines| == 3
    && input.lines[0] == LineInput(CASH_MAIN, DEBIT, 1.0)
    && input.lines[1] == LineInput(FEE_INCOME, CREDIT, 0.505)
    && input.lines[2] == LineInput(FEE_INCOME, CREDIT, 0.495)
  }

  lemma HalfKoboIsValid(input: EntryInput)
    requires IsHalfKoboPosting(input)
    ensures ValidPost(input)
  {
    SumOfThree(DebitAmount, input.lines);
    SumOfThree(CreditAmount, input.lines);
    assert AllPositive(input.lines) && Balanced(input.lines);
  }

  lemma FirstPosting(input: EntryInput, newId: string)
    requires ValidPost(input)
    ensures Post([], input, newId).0 == [NewEntry(input, newId)]
  {
  }

  lemma SumOfThreeLines(f: Line -> int, lines: seq<Line>)
    requires |lines| == 3
    ensures SumInt(f, lines) == f(lines[0]) + f(lines[1]) + f(lines[2])
  {
    SumIntPrefix(f, lines, 0);
    SumIntPrefix(f, lines, 1);
    SumIntPrefix(f, lines, 2);
    assert lines[..3] == lines;
  }

  lemma HalfKoboIsStored(input: EntryInput, newId: string)
    requires IsHalfKoboPosting(input)
    ensures var lines := NewEntry(input, newId).lines;
      SumInt(DebitMinor, lines) == 100 && SumInt(CreditMinor, lines) == 101
  {
    var lines := NewEntry(input, newId).lines;
    RoundWhole(100);
    RoundHalfUpUnique(50.5, 51);
    RoundHalfUpUnique(49.5, 50);
    SumOfThreeLines(DebitMinor, lines);
    SumOfThreeLines(CreditMinor, lines);
  }

  lemma LinesOfOne(e: Entry)
    ensures LinesOf(e.tenantId, [e]) == e.lines
  {
    LinesOfSnoc(e.tenantId, [], e);
    assert [] + [e] == [e];
  }

  lemma ReportsOfOne(t: string, rowsOf: Query)
    ensures Reports([t], rowsOf) == ReportOf(t, rowsOf)
  {
    assert [t][..0] == [];
  }

  lemma OneEntryIsReported(e: Entry, rowsOf: Query, delta: int)
    requires rowsOf(e.tenantId).Some? && IsGroupBy(rowsOf(e.tenantId).value, LinesOf(e.tenantId, [e]))
    requires delta == SumInt(DebitMinor, e.lines) - SumInt(CreditMinor, e.lines) && delta != 0
    ensures Reports([e.tenantId], rowsOf) == [Mismatch(e.tenantId, delta)]
  {
    LinesOfOne(e);
    ReportsOfOne(e.tenantId, rowsOf);
    GroupsTellDelta(e.tenantId, rowsOf(e.tenantId).value, [e]);
    ReportOfDelta(e.tenantId, rowsOf, delta);
  }

  /** Such a posting leaves more credited than debited, and that is reported. */
  lemma CreditsBeyondDebitsAreReported(input: EntryInput, newId: string, rowsOf: Query)
    requires IsHalfKoboPosting(input)
    requires rowsOf(input.tenantId).Some?
    requires IsGroupBy(rowsOf(input.tenantId).value, LinesOf(input.tenantId, Post([], input, newId).0))
    ensures Post([], input, newId).0 == [NewEntry(input, newId)]
    ensures Reports([input.tenantId], rowsOf) == [Mismatch(input.tenantId, -1)]
  {
    HalfKoboIsValid(input);
    FirstPosting(input, newId);
    HalfKoboIsStored(input, newId);
    OneEntryIsReported(NewEntry(input, newId), rowsOf, -1);
  }

  // --- the totals by type are those of the account list

  /** What a line adds to the total of one account type: positive on the account's normal side. */
  function OnNormalSide(accountType: AccountType): Line -> int
  {
    (line: Line) =>
      var account := AccountOf(line.accountCode);
      if account.accountType != accountType then 0
      else if account.normalBalance == line.direction then line.amountMinor
      else -line.amountMinor
  }

  function BalanceIf(accountType: AccountType): AccountRow -> int
  {
    (row: AccountRow) => if row.account.accountType == accountType then row.balanceMinor else 0
  }

  lemma {:induction false} GroupOnNormalSide(accountType: AccountType, key: GroupKey, lines: seq<Line>)
    ensures SumGroup(KeyOf, OnNormalSide(accountType), key, lines)
         == if key.accountType != accountType then 0
            else if key.normalBalance == key.direction then SumGroup(KeyOf, AmountMinor, key, lines)
            else -SumGroup(KeyOf, AmountMinor, key, lines)
  {
    if |lines| > 0 {
      GroupOnNormalSide(accountType, key, lines[..|lines| - 1]);
    }
  }

  lemma {:induction false} RowsByType(accountType: AccountType, rows: seq<Row>, lines: seq<Line>)
    requires forall i :: 0 <= i < |rows| ==> IsGroup(rows[i], lines)
    ensures SumInt(SignedRow(accountType), rows)
         == SumInt(GroupTotal(KeyOf, OnNormalSide(accountType), lines), RowKeys(rows))
  {
    forall i | 0 <= i < |rows|
      ensures SignedRow(accountType)(rows[i])
           == GroupTotal(KeyOf, OnNormalSide(accountType), lines)(RowKeys(rows)[i])
    {
      assert IsGroup(rows[i], lines);
      GroupOnNormalSide(accountType, rows[i].key, lines);
    }
    SumIntAgree(SignedRow(accountType), rows, GroupTotal(KeyOf, OnNormalSide(accountType), lines), RowKeys(rows));
  }

  lemma {:induction false} CodeOnNormalSide(accountType: AccountType, code: AccountCode, lines: seq<Line>)
    ensures var account := AccountOf(code);
      SumGroup((line: Line) => line.accountCode, OnNormalSide(accountType), code, lines)
      == if account.accountType != accountType then 0
         else if account.normalBalance == DEBIT then Effect(code, lines) else -Effect(code, lines)
  {
    if |lines| > 0 {
      CodeOnNormalSide(accountType, code, lines[..|lines| - 1]);
    }
  }

  lemma ListByType(accountType: AccountType, accountRows: seq<AccountRow>, lines: seq<Line>)
    requires IsAccountList(accountRows, lines)
    ensures SumInt(BalanceIf(accountType), accountRows) == SumInt(OnNormalSide(accountType), lines)
  {
    var total := GroupTotal((line: Line) => line.accountCode, OnNormalSide(accountType), lines);
    forall i | 0 <= i < |accountRows|
      ensures BalanceIf(accountType)(accountRows[i]) == total(SORTED_CODES[i])
    {
      assert IsAccountRow(accountRows[i], AccountOf(SORTED_CODES[i]), lines);
      CodeOnNormalSide(accountType, SORTED_CODES[i], lines);
    }
    SumIntAgree(BalanceIf(accountType), accountRows, total, SORTED_CODES);
    SortedCodesAreAll();
    SumByGroups((line: Line) => line.accountCode, OnNormalSide(accountType), lines, SORTED_CODES);
  }

  lemma TotalByType(accountType: AccountType, accountRows: seq<AccountRow>, rows: seq<Row>, lines: seq<Line>)
    requires IsAccountList(accountRows, lines) && IsGroupBy(rows, lines)
    ensures SumInt(SignedRow(accountType), rows) == SumInt(BalanceIf(accountType), accountRows)
  {
    RowsByType(accountType, rows, lines);
    SumByGroups(KeyOf, OnNormalSide(accountType), lines, RowKeys(rows));
    ListByType(accountType, accountRows, lines);
  }

  /** The balances of the account list, each on its normal side, add up by type to the totals the job computes. */
  lemma AccountListMakesTotals(accountRows: seq<AccountRow>, rows: seq<Row>, lines: seq<Line>)
    requires IsAccountList(accountRows, lines) && IsGroupBy(rows, lines)
    ensures TotalsOf(rows).asset == SumInt(BalanceIf(ASSET), accountRows)
    ensures TotalsOf(rows).liability == SumInt(BalanceIf(LIABILITY), accountRows)
    ensures TotalsOf(rows).equity == SumInt(BalanceIf(EQUITY), accountRows)
    ensures TotalsOf(rows).income == SumInt(BalanceIf(INCOME), accountRows)
    ensures TotalsOf(rows).expense == SumInt(BalanceIf(EXPENSE), accountRows)
  {
    TotalByType(ASSET, accountRows, rows, lines);
    TotalByType(LIABILITY, accountRows, rows, lines);
    TotalByType(EQUITY, accountRows, rows, lines);
    TotalByType(INCOME, accountRows, rows, lines);
    TotalByType(EXPENSE, accountRows, rows, lines);
  }
}
