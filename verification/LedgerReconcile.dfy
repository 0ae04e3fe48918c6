/**
 LedgerReconcileJob: the nightly test of the accounting equation. The query groups a tenant's lines by
 account type, normal balance and direction; its rows come in no particular order.
 */
module LedgerReconcile {
  import opened Wrappers
  import opened Sums
  import opened LedgerModel
  import opened TenantLedger
  import opened LedgerProperties

  datatype GroupKey = GroupKey(accountType: AccountType, normalBalance: Direction, direction: Direction)

  datatype Row = Row(key: GroupKey, totalMinor: int)

  datatype Totals = Totals(asset: int, liability: int, equity: int, income: int, expense: int)

  function KeyOf(line: Line): GroupKey
  {
    var account := AccountOf(line.accountCode);
    GroupKey(account.accountType, account.normalBalance, line.direction)
  }

  function AmountMinor(line: Line): int { line.amountMinor }

  function RowKeys(rows: seq<Row>): (keys: seq<GroupKey>)
    ensures |keys| == |rows| && forall i :: 0 <= i < |rows| ==> keys[i] == rows[i].key
  {
    seq(|rows|, i requires 0 <= i < |rows| => rows[i].key)
  }

  /** The rows are the groups of these lines: one row per key that occurs, with the group's total. */
  ghost predicate IsGroupBy(rows: seq<Row>, lines: seq<Line>)
  {
    && Distinct(RowKeys(rows))
    && (forall i :: 0 <= i < |lines| ==> KeyOf(lines[i]) in RowKeys(rows))
    && (forall i :: 0 <= i < |rows| ==> IsGroup(rows[i], lines))
  }

  /** The row is the total of a group that has at least one line. */
  ghost predicate IsGroup(row: Row, lines: seq<Line>)
  {
    && row.totalMinor == SumGroup(KeyOf, AmountMinor, row.key, lines)
    && exists l :: l in lines && KeyOf(l) == row.key
  }

  /** What a row adds to the total of one account type: positive on the account's normal side. */
  function SignedRow(accountType: AccountType): Row -> int
  {
    (row: Row) =>
      if row.key.accountType != accountType then 0
      else if row.key.normalBalance == row.key.direction then row.totalMinor
      else -row.totalMinor
  }

  function TotalsOf(rows: seq<Row>): Totals
  {
    Totals(SumInt(SignedRow(ASSET), rows), SumInt(SignedRow(LIABILITY), rows), SumInt(SignedRow(EQUITY), rows),
           SumInt(SignedRow(INCOME), rows), SumInt(SignedRow(EXPENSE), rows))
  }

  method ComputeTotals(rows: seq<Row>) returns (totals: Totals)
    ensures totals == TotalsOf(rows)
  {
    totals := Totals(0, 0, 0, 0, 0);
    var i := 0;
    while i < |rows|
      invariant 0 <= i <= |rows|
      invariant totals == TotalsOf(rows[..i])
    {
      var row := rows[i];
      var signed := if row.key.normalBalance == row.key.direction then row.totalMinor else -row.totalMinor;
      assert rows[..i + 1][..i] == rows[..i];
      match row.key.accountType {
        case ASSET => totals := totals.(asset := totals.asset + signed);
        case LIABILITY => totals := totals.(liability := totals.liability + signed);
        case EQUITY => totals := totals.(equity := totals.equity + signed);
        case INCOME => totals := totals.(income := totals.income + signed);
        case EXPENSE => totals := totals.(expense := totals.expense + signed);
        case REVENUE =>
      }
      i := i + 1;
    }
    assert rows[..i] == rows;
  }

  function Delta(totals: Totals): int
  {
    totals.asset - (totals.liability + totals.equity + totals.income - totals.expense)
  }

  datatype Mismatch = Mismatch(tenantId: string, deltaMinor: int)

  /** The rows of each tenant, or nothing where the tenant's query fails; an error is logged and the run goes on. */
  type Query = string -> Option<seq<Row>>

  function ReportOf(tenantId: string, rowsOf: Query): seq<Mismatch>
  {
    if rowsOf(tenantId).None? then []
    else
      var delta := Delta(TotalsOf(rowsOf(tenantId).value));
      if delta != 0 then [Mismatch(tenantId, delta)] else []
  }

  /** One nightly run: a report for each tenant whose delta is known and not zero, in tenant order. */
  function Reports(tenants: seq<string>, rowsOf: Query): seq<Mismatch>
  {
    if |tenants| == 0 then []
    else Reports(tenants[..|tenants| - 1], rowsOf) + ReportOf(tenants[|tenants| - 1], rowsOf)
  }

  lemma ReportsPrefix(tenants: seq<string>, rowsOf: Query, i: nat)
    requires i < |tenants|
    ensures Reports(tenants[..i + 1], rowsOf) == Reports(tenants[..i], rowsOf) + ReportOf(tenants[i], rowsOf)
  {
    assert tenants[..i + 1][..i] == tenants[..i];
  }

  method CheckTenant(tenantId: string, rowsOf: Query) returns (report: seq<Mismatch>)
    ensures report == ReportOf(tenantId, rowsOf)
  {
    var rows := rowsOf(tenantId);
    if rows.None? {
      return [];
    }
    var totals := ComputeTotals(rows.value);
    var delta := Delta(totals);
    if delta != 0 {
      return [Mismatch(tenantId, delta)];
    }
    return [];
  }

  method RunOnce(tenants: seq<string>, rowsOf: Query) returns (reports: seq<Mismatch>)
    ensures reports == Reports(tenants, rowsOf)
  {
    reports := [];
    var i := 0;
    while i < |tenants|
      invariant 0 <= i <= |tenants|
      invariant reports == Reports(tenants[..i], rowsOf)
    {
      ReportsPrefix(tenants, rowsOf, i);
      var report := CheckTenant(tenants[i], rowsOf);
      reports := reports + report;
      i := i + 1;
    }
    assert tenants[..i] == tenants;
  }

  // --- the delta is the imbalance of the lines

  /** A row of signed minors within one group: the direction, and so the sign, is the same throughout. */
  lemma {:induction false} SignedGroup(key: GroupKey, lines: seq<Line>)
    ensures SumGroup(KeyOf, SignedMinor, key, lines)
         == (if key.direction == DEBIT then 1 else -1) * SumGroup(KeyOf, AmountMinor, key, lines)
  {
    if |lines| > 0 {
      SignedGroup(key, lines[..|lines| - 1]);
    }
  }

  lemma RowDelta(row: Row, lines: seq<Line>)
    requires IsGroup(row, lines)
    ensures SignedRow(ASSET)(row) - SignedRow(LIABILITY)(row) - SignedRow(EQUITY)(row) - SignedRow(INCOME)(row)
              + SignedRow(EXPENSE)(row)
         == GroupTotal(KeyOf, SignedMinor, lines)(row.key)
  {
    var l :| l in lines && KeyOf(l) == row.key;
    ChartPairsTypeWithNormalBalance(AccountOf(l.accountCode));
    SignedGroup(row.key, lines);
  }

  lemma {:induction false} DeltaByRows(rows: seq<Row>, lines: seq<Line>)
    requires forall i :: 0 <= i < |rows| ==> IsGroup(rows[i], lines)
    ensures Delta(TotalsOf(rows)) == SumInt(GroupTotal(KeyOf, SignedMinor, lines), RowKeys(rows))
  {
    if |rows| > 0 {
      var n := |rows| - 1;
      DeltaByRows(rows[..n], lines);
      RowDelta(rows[n], lines);
      assert RowKeys(rows)[..n] == RowKeys(rows[..n]);
    }
  }

  /** For any order of the groups, the delta is total debits minus total credits, in kobo. */
  lemma DeltaIsDebitsMinusCredits(rows: seq<Row>, lines: seq<Line>)
    requires IsGroupBy(rows, lines)
    ensures Delta(TotalsOf(rows)) == Imbalance(lines)
    ensures Delta(TotalsOf(rows)) == SumInt(DebitMinor, lines) - SumInt(CreditMinor, lines)
  {
    DeltaByRows(rows, lines);
    SumByGroups(KeyOf, SignedMinor, lines, RowKeys(rows));
    SidesMakeImbalance(lines);
  }

  lemma {:induction false} SidesMakeImbalance(lines: seq<Line>)
    ensures SumInt(DebitMinor, lines) - SumInt(CreditMinor, lines) == Imbalance(lines)
  {
    if |lines| > 0 {
      SidesMakeImbalance(lines[..|lines| - 1]);
    }
  }

  lemma TrialBalance(lines: seq<Line>)
    ensures SumInt(GroupTotal((line: Line) => line.accountCode, SignedMinor, lines), SORTED_CODES) == Imbalance(lines)
  {
    SortedCodesAreAll();
    SumByGroups((line: Line) => line.accountCode, SignedMinor, lines, SORTED_CODES);
  }

  /** A listed account's balance on the debit side. */
  function DebitBalance(row: AccountRow): int { row.debitMinor - row.creditMinor }

  lemma {:induction false} GroupIsEffect(code: AccountCode, lines: seq<Line>)
    ensures SumGroup((line: Line) => line.accountCode, SignedMinor, code, lines) == Effect(code, lines)
  {
    if |lines| > 0 {
      GroupIsEffect(code, lines[..|lines| - 1]);
    }
  }

  lemma ListedTotal(accountRows: seq<AccountRow>, lines: seq<Line>)
    requires IsAccountList(accountRows, lines)
    ensures SumInt(DebitBalance, accountRows) == Imbalance(lines)
  {
    var total := GroupTotal((line: Line) => line.accountCode, SignedMinor, lines);
    var codes := SORTED_CODES;
    forall i | 0 <= i < |accountRows| ensures DebitBalance(accountRows[i]) == total(codes[i]) {
      ListedBalance(accountRows[i], AccountOf(codes[i]), lines);
    }
    SumIntAgree(DebitBalance, accountRows, total, codes);
    TrialBalance(lines);
  }

  lemma ListedBalance(row: AccountRow, account: Account, lines: seq<Line>)
    requires IsAccountRow(row, account, lines)
    ensures DebitBalance(row) == GroupTotal((line: Line) => line.accountCode, SignedMinor, lines)(account.code)
  {
    SidesMakeEffect(account.code, lines);
    GroupIsEffect(account.code, lines);
  }

  /** The account list and the reconcile job agree: the listed debit balances add up to the delta. */
  lemma TrialBalanceAddsUp(accountRows: seq<AccountRow>, rows: seq<Row>, lines: seq<Line>)
    requires IsAccountList(accountRows, lines) && IsGroupBy(rows, lines)
    ensures SumInt(DebitBalance, accountRows) == Delta(TotalsOf(rows)) == Imbalance(lines)
  {
    ListedTotal(accountRows, lines);
    DeltaIsDebitsMinusCredits(rows, lines);
  }

  // --- over every run

  lemma {:induction false} ImbalanceBound(tenantId: string, entries: seq<Entry>)
    requires forall e :: e in entries ==> EntryOk(e)
    ensures var lines := LinesOf(tenantId, entries);
      -|lines| <= 2 * Imbalance(lines) <= |lines|
  {
    if |entries| > 0 {
      var init, last := entries[..|entries| - 1], entries[|entries| - 1];
      ImbalanceBound(tenantId, init);
      assert EntryOk(last);
      SumIntAppend(SignedMinor, LinesOf(tenantId, init), if last.tenantId == tenantId then last.lines else []);
    }
  }

  lemma {:induction false} BalancedEntriesBalance(tenantId: string, entries: seq<Entry>)
    requires forall e :: e in entries ==> Imbalance(e.lines) == 0
    ensures Imbalance(LinesOf(tenantId, entries)) == 0
  {
    if |entries| > 0 {
      var init, last := entries[..|entries| - 1], entries[|entries| - 1];
      BalancedEntriesBalance(tenantId, init);
      SumIntAppend(SignedMinor, LinesOf(tenantId, init), if last.tenantId == tenantId then last.lines else []);
    }
  }

  ghost predicate PostsWholeKobo(commands: seq<Command>)
  {
    forall i :: 0 <= i < |commands| && commands[i].PostCommand? ==> WholeKobo(commands[i].input.lines)
  }

  lemma {:induction false} WholeKoboRunBalances(commands: seq<Command>)
    requires PostsWholeKobo(commands)
    ensures forall e :: e in RunLedger(commands) ==> Imbalance(e.lines) == 0
  {
    if |commands| > 0 {
      var init, last := commands[..|commands| - 1], commands[|commands| - 1];
      WholeKoboRunBalances(init);
      ReachableLedgerOk(init);
      var before := RunLedger(init);
      WholeKoboStep(before, last);
    }
  }

  lemma WholeKoboStep(before: seq<Entry>, command: Command)
    requires LedgerOk(before) && (command.PostCommand? ==> WholeKobo(command.input.lines))
    requires forall e :: e in before ==> Imbalance(e.lines) == 0
    ensures forall e :: e in Apply(before, command) ==> Imbalance(e.lines) == 0
  {
    ApplyAppends(before, command);
    if Apply(before, command) != before && !command.InterruptedCommand? {
      if command.ReverseCommand? {
        FlippedIsWholeKobo(FindEntry(before, command.tenantId, command.entryId).value.lines);
      }
      WholeKoboEntryBalances(AppliedInput(before, command).value, command.newId);
    }
  }

  /**
   For every run of postings and reversals, every tenant and every order of the groups: the delta is at
   most half the number of lines either way, and it is zero when the postings are in whole kobo.
   */
  lemma ReconcileDeltaBound(commands: seq<Command>, tenantId: string, rows: seq<Row>)
    requires IsGroupBy(rows, LinesOf(tenantId, RunLedger(commands)))
    ensures var delta, count := Delta(TotalsOf(rows)), |LinesOf(tenantId, RunLedger(commands))|;
      && -count <= 2 * delta <= count
      && (PostsWholeKobo(commands) ==> delta == 0)
  {
    var entries := RunLedger(commands);
    DeltaIsDebitsMinusCredits(rows, LinesOf(tenantId, entries));
    ReachableLedgerOk(commands);
    ImbalanceBound(tenantId, entries);
    if PostsWholeKobo(commands) {
      WholeKoboRunBalances(commands);
      BalancedEntriesBalance(tenantId, entries);
    }
  }

  /** With whole-kobo postings the nightly run reports nothing. */
  lemma {:induction false} WholeKoboRunReportsNothing(commands: seq<Command>, tenants: seq<string>, rowsOf: Query)
    requires PostsWholeKobo(commands)
    requires forall t :: t in tenants && rowsOf(t).Some? ==> IsGroupBy(rowsOf(t).value, LinesOf(t, RunLedger(commands)))
    ensures Reports(tenants, rowsOf) == []
  {
    if |tenants| > 0 {
      var last := tenants[|tenants| - 1];
      WholeKoboRunReportsNothing(commands, tenants[..|tenants| - 1], rowsOf);
      if rowsOf(last).Some? {
        ReconcileDeltaBound(commands, last, rowsOf(last).value);
      }
    }
  }
}
