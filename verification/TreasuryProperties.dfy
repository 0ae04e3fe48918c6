/**
 The allocation table and the ledger tell the same story over every run, to the kobo, exactly as long as every
 movement has its own key and nothing else touches the capital accounts.
 */
module TreasuryProperties {
  import opened Wrappers
  import opened Sums
  import opened LedgerModel
  import opened TenantLedger
  import opened LedgerProperties
  import opened Treasury
  import LoanBalance

  datatype Call =
    | DeployCall(pools: seq<Pool>, guard: (string, real) -> bool, m: Movement, allocationId: string)
    | RepayCall(m: Movement)
    | WriteOffCall(m: Movement)
    | LedgerCall(command: Command)

  function Step(books: Books, call: Call): Books
  {
    match call
    case DeployCall(pools, guard, m, allocationId) => Deploy(books, pools, guard, m, allocationId).0
    case RepayCall(m) => Repay(books, m).0
    case WriteOffCall(m) => WriteOff(books, m).0
    case LedgerCall(command) => books.(entries := Apply(books.entries, command))
  }

  function Run(calls: seq<Call>): (books: Books)
  {
    if |calls| == 0 then Books([], []) else Step(Run(calls[..|calls| - 1]), calls[|calls| - 1])
  }

  // --- the four sums of a tenant's allocations

  function DeployedOf(tenantId: string): Allocation -> int
  {
    (a: Allocation) => if a.tenantId == tenantId then a.deployed else 0
  }

  function ReleasedOf(tenantId: string): Allocation -> int
  {
    (a: Allocation) => if a.tenantId == tenantId then a.released else 0
  }

  function WrittenOffOf(tenantId: string): Allocation -> int
  {
    (a: Allocation) => if a.tenantId == tenantId then a.writtenOff else 0
  }

  function OutstandingOf(tenantId: string): Allocation -> int
  {
    (a: Allocation) => if a.tenantId == tenantId then OutstandingKobo(a) else 0
  }

  /** The ledger's capital accounts say what the allocation table says. */
  ghost predicate Agrees(books: Books, tenantId: string)
  {
    && Balance(tenantId, CAPITAL_POOL_DEPLOYED, books.entries) == SumInt(OutstandingOf(tenantId), books.allocations)
    && Balance(tenantId, CAPITAL_POOL_REPAID, books.entries) == SumInt(ReleasedOf(tenantId), books.allocations)
    && Balance(tenantId, CAPITAL_POOL_LOSSES, books.entries) == SumInt(WrittenOffOf(tenantId), books.allocations)
    && Balance(tenantId, CAPITAL_POOL_AVAILABLE, books.entries) == -SumInt(DeployedOf(tenantId), books.allocations)
  }

  predicate IsCapital(code: AccountCode)
  {
    code in {CAPITAL_POOL_AVAILABLE, CAPITAL_POOL_DEPLOYED, CAPITAL_POOL_REPAID, CAPITAL_POOL_LOSSES}
  }

  // --- rounding of allocation columns

  lemma ColumnAddsKobo(kobo: int, amount: real)
    ensures ToMinor(Naira(kobo) + amount) == kobo + ToMinor(amount)
  {
  }

  /** A write-off never takes more than what is outstanding. */
  lemma WriteOffWithinOutstanding(a: Allocation, amount: real)
    requires OutstandingKobo(a) > 0 && amount > 0.0
    ensures 0 <= ToMinor(WriteOffAmount(a, amount)) <= OutstandingKobo(a)
    ensures WriteOffAmount(a, amount) > 0.0
  {
  }

  // --- what one capital entry does to the ledger

  lemma CapitalEffect(
    m: Movement, entryType: EntryType, key: string, debitCode: AccountCode, creditCode: AccountCode, amount: real,
    id: string, code: AccountCode)
    ensures Effect(code, NewEntry(CapitalEntry(m, entryType, key, debitCode, creditCode, amount), id).lines)
         == (if code == debitCode then ToMinor(amount) else 0) - (if code == creditCode then ToMinor(amount) else 0)
  {
    var lines := NewEntry(CapitalEntry(m, entryType, key, debitCode, creditCode, amount), id).lines;
    SumIntPrefix(SignedOn(code), lines, 0);
    SumIntPrefix(SignedOn(code), lines, 1);
    assert lines[..2] == lines;
  }

  /** A capital posting that is not refused moves kobo between its two accounts, unless its key was used before. */
  lemma CapitalPosting(
    entries: seq<Entry>, m: Movement, entryType: EntryType, key: string, debitCode: AccountCode,
    creditCode: AccountCode, amount: real, tenantId: string, code: AccountCode)
    requires Post(entries, CapitalEntry(m, entryType, key, debitCode, creditCode, amount), m.entryId).1.Posted?
    ensures var after := Post(entries, CapitalEntry(m, entryType, key, debitCode, creditCode, amount), m.entryId).0;
      Balance(tenantId, code, after) - Balance(tenantId, code, entries)
        == if tenantId == m.tenantId && FindKey(entries, m.tenantId, key).None?
           then (if code == debitCode then ToMinor(amount) else 0) - (if code == creditCode then ToMinor(amount) else 0)
           else 0
  {
    var input := CapitalEntry(m, entryType, key, debitCode, creditCode, amount);
    var after := Post(entries, input, m.entryId).0;
    if FindKey(entries, m.tenantId, key).None? {
      BalanceSnoc(tenantId, code, entries, NewEntry(input, m.entryId));
      CapitalEffect(m, entryType, key, debitCode, creditCode, amount, m.entryId, code);
    }
  }

  /** The same, for the four capital accounts at once. */
  lemma CapitalPostingOnAll(
    entries: seq<Entry>, m: Movement, entryType: EntryType, key: string, debitCode: AccountCode,
    creditCode: AccountCode, amount: real, tenantId: string)
    requires Post(entries, CapitalEntry(m, entryType, key, debitCode, creditCode, amount), m.entryId).1.Posted?
    ensures var after := Post(entries, CapitalEntry(m, entryType, key, debitCode, creditCode, amount), m.entryId).0;
      var moved := if tenantId == m.tenantId && FindKey(entries, m.tenantId, key).None? then ToMinor(amount) else 0;
      BalancesMove(entries, after, tenantId, debitCode, creditCode, moved)
  {
    CapitalPosting(entries, m, entryType, key, debitCode, creditCode, amount, tenantId, CAPITAL_POOL_DEPLOYED);
    CapitalPosting(entries, m, entryType, key, debitCode, creditCode, amount, tenantId, CAPITAL_POOL_REPAID);
    CapitalPosting(entries, m, entryType, key, debitCode, creditCode, amount, tenantId, CAPITAL_POOL_LOSSES);
    CapitalPosting(entries, m, entryType, key, debitCode, creditCode, amount, tenantId, CAPITAL_POOL_AVAILABLE);
  }

  ghost predicate BalanceMoves(
    before: seq<Entry>, after: seq<Entry>, tenantId: string, code: AccountCode, debitCode: AccountCode,
    creditCode: AccountCode, moved: int)
  {
    Balance(tenantId, code, after)
      == Balance(tenantId, code, before) + (if code == debitCode then moved else 0)
         - (if code == creditCode then moved else 0)
  }

  ghost predicate BalancesMove(
    before: seq<Entry>, after: seq<Entry>, tenantId: string, debitCode: AccountCode, creditCode: AccountCode,
    moved: int)
  {
    && BalanceMoves(before, after, tenantId, CAPITAL_POOL_DEPLOYED, debitCode, creditCode, moved)
    && BalanceMoves(before, after, tenantId, CAPITAL_POOL_REPAID, debitCode, creditCode, moved)
    && BalanceMoves(before, after, tenantId, CAPITAL_POOL_LOSSES, debitCode, creditCode, moved)
    && BalanceMoves(before, after, tenantId, CAPITAL_POOL_AVAILABLE, debitCode, creditCode, moved)
  }

  // --- what one movement does to the sums

  ghost predicate SumsMove(
    before: seq<Allocation>, after: seq<Allocation>, tenantId: string, deployed: int, released: int, writtenOff: int)
  {
    && SumInt(DeployedOf(tenantId), after) == SumInt(DeployedOf(tenantId), before) + deployed
    && SumInt(ReleasedOf(tenantId), after) == SumInt(ReleasedOf(tenantId), before) + released
    && SumInt(WrittenOffOf(tenantId), after) == SumInt(WrittenOffOf(tenantId), before) + writtenOff
    && SumInt(OutstandingOf(tenantId), after)
         == SumInt(OutstandingOf(tenantId), before) + deployed - released - writtenOff
  }

  lemma InsertMovesSums(allocations: seq<Allocation>, a: Allocation, tenantId: string)
    requires a.released == 0 && a.writtenOff == 0
    ensures SumsMove(allocations, allocations + [a], tenantId, if a.tenantId == tenantId then a.deployed else 0, 0, 0)
  {
  }

  lemma UpdateMovesSums(allocations: seq<Allocation>, i: nat, next: Allocation, tenantId: string)
    requires i < |allocations|
    requires next.tenantId == allocations[i].tenantId && next.deployed == allocations[i].deployed
    ensures var mine := allocations[i].tenantId == tenantId;
      SumsMove(allocations, allocations[i := next], tenantId, 0,
               if mine then next.released - allocations[i].released else 0,
               if mine then next.writtenOff - allocations[i].writtenOff else 0)
  {
    SumIntUpdate(DeployedOf(tenantId), allocations, i, next);
    SumIntUpdate(ReleasedOf(tenantId), allocations, i, next);
    SumIntUpdate(WrittenOffOf(tenantId), allocations, i, next);
    SumIntUpdate(OutstandingOf(tenantId), allocations, i, next);
  }

  /** Agreement survives exactly when the kobo posted on each account are the kobo its sum moved by. */
  lemma AgreesAfter(before: Books, after: Books, tenantId: string, deployed: int, released: int, writtenOff: int,
                    debitCode: AccountCode, creditCode: AccountCode, moved: int)
    requires Agrees(before, tenantId)
    requires SumsMove(before.allocations, after.allocations, tenantId, deployed, released, writtenOff)
    requires BalancesMove(before.entries, after.entries, tenantId, debitCode, creditCode, moved)
    requires deployed != 0 ==>
      released == writtenOff == 0 && debitCode == CAPITAL_POOL_DEPLOYED && creditCode == CAPITAL_POOL_AVAILABLE
    requires released != 0 ==>
      deployed == writtenOff == 0 && debitCode == CAPITAL_POOL_REPAID && creditCode == CAPITAL_POOL_DEPLOYED
    requires writtenOff != 0 ==>
      deployed == released == 0 && debitCode == CAPITAL_POOL_LOSSES && creditCode == CAPITAL_POOL_DEPLOYED
    requires IsCapital(debitCode) && IsCapital(creditCode) && debitCode != creditCode
    ensures Agrees(after, tenantId) <==> moved == deployed + released + writtenOff
  {
  }

  lemma DeployMoves(
    books: Books, pools: seq<Pool>, guard: (string, real) -> bool, m: Movement, allocationId: string, tenantId: string)
    requires Deploy(books, pools, guard, m, allocationId).0 != books
    requires Agrees(books, tenantId)
    ensures Agrees(Deploy(books, pools, guard, m, allocationId).0, tenantId)
      <==> tenantId != m.tenantId || FindKey(books.entries, m.tenantId, DeployKey(m)).None? || ToMinor(m.amount) == 0
  {
    var pool := ResolveFundingPool(books.allocations, pools, guard, m.tenantId, m.amount).pool;
    InsertMovesSums(books.allocations, NewAllocation(m, allocationId, pool.id), tenantId);
    CapitalPostingOnAll(books.entries, m, ADJUSTMENT, DeployKey(m), CAPITAL_POOL_DEPLOYED, CAPITAL_POOL_AVAILABLE,
      m.amount, tenantId);
    var mine := if tenantId == m.tenantId then ToMinor(m.amount) else 0;
    var moved := if FindKey(books.entries, m.tenantId, DeployKey(m)).None? then mine else 0;
    AgreesAfter(books, Deploy(books, pools, guard, m, allocationId).0, tenantId, mine, 0, 0,
                CAPITAL_POOL_DEPLOYED, CAPITAL_POOL_AVAILABLE, moved);
  }

  lemma RepayMoves(books: Books, m: Movement, tenantId: string)
    requires Repay(books, m).1 == Applied
    requires Agrees(books, tenantId)
    ensures Agrees(Repay(books, m).0, tenantId)
      <==> tenantId != m.tenantId || FindKey(books.entries, m.tenantId, RepaymentKey(m)).None? || ToMinor(m.amount) == 0
  {
    var i := FindAllocation(books.allocations, m.tenantId, m.loanId).value;
    var a := books.allocations[i];
    ColumnAddsKobo(a.released, m.amount);
    UpdateMovesSums(books.allocations, i, AfterRepayment(a, m.amount), tenantId);
    CapitalPostingOnAll(books.entries, m, ADJUSTMENT, RepaymentKey(m), CAPITAL_POOL_REPAID, CAPITAL_POOL_DEPLOYED,
      m.amount, tenantId);
    var mine := if tenantId == m.tenantId then ToMinor(m.amount) else 0;
    var moved := if FindKey(books.entries, m.tenantId, RepaymentKey(m)).None? then mine else 0;
    AgreesAfter(books, Repay(books, m).0, tenantId, 0, mine, 0, CAPITAL_POOL_REPAID, CAPITAL_POOL_DEPLOYED, moved);
  }

  lemma WriteOffMoves(books: Books, m: Movement, tenantId: string)
    requires WriteOff(books, m).1 == Applied
    requires Agrees(books, tenantId)
    ensures var a := books.allocations[FindAllocation(books.allocations, m.tenantId, m.loanId).value];
      Agrees(WriteOff(books, m).0, tenantId)
      <==> tenantId != m.tenantId || FindKey(books.entries, m.tenantId, WriteOffKey(m)).None?
           || ToMinor(WriteOffAmount(a, m.amount)) == 0
  {
    var i := FindAllocation(books.allocations, m.tenantId, m.loanId).value;
    var a := books.allocations[i];
    var amount := WriteOffAmount(a, m.amount);
    ColumnAddsKobo(a.writtenOff, amount);
    UpdateMovesSums(books.allocations, i, AfterWriteOff(a, m.amount), tenantId);
    CapitalPostingOnAll(books.entries, m, WRITE_OFF, WriteOffKey(m), CAPITAL_POOL_LOSSES, CAPITAL_POOL_DEPLOYED,
      amount, tenantId);
    var mine := if tenantId == m.tenantId then ToMinor(amount) else 0;
    var moved := if FindKey(books.entries, m.tenantId, WriteOffKey(m)).None? then mine else 0;
    AgreesAfter(books, WriteOff(books, m).0, tenantId, 0, 0, mine, CAPITAL_POOL_LOSSES, CAPITAL_POOL_DEPLOYED, moved);
  }

  /** The entry has no effect on any capital account, to the kobo. */
  ghost predicate IsNeutral(added: Entry)
  {
    && Effect(CAPITAL_POOL_DEPLOYED, added.lines) == 0 && Effect(CAPITAL_POOL_REPAID, added.lines) == 0
    && Effect(CAPITAL_POOL_LOSSES, added.lines) == 0 && Effect(CAPITAL_POOL_AVAILABLE, added.lines) == 0
  }

  lemma AddedEntryMoves(entries: seq<Entry>, allocations: seq<Allocation>, added: Entry, tenantId: string)
    requires Agrees(Books(entries, allocations), tenantId)
    ensures Agrees(Books(entries + [added], allocations), tenantId)
      <==> added.tenantId != tenantId || IsNeutral(added)
  {
    BalanceSnoc(tenantId, CAPITAL_POOL_DEPLOYED, entries, added);
    BalanceSnoc(tenantId, CAPITAL_POOL_REPAID, entries, added);
    BalanceSnoc(tenantId, CAPITAL_POOL_LOSSES, entries, added);
    BalanceSnoc(tenantId, CAPITAL_POOL_AVAILABLE, entries, added);
  }

  /** A ledger call keeps the agreement exactly if what it adds is neutral, another tenant's, or nothing. */
  lemma LedgerCallMoves(books: Books, command: Command, tenantId: string)
    requires Agrees(books, tenantId)
    ensures var added := Added(books.entries, command);
      Agrees(books.(entries := Apply(books.entries, command)), tenantId)
      <==> added.None? || added.value.tenantId != tenantId || IsNeutral(added.value)
  {
    var added := Added(books.entries, command);
    if added.Some? {
      AddedEntryMoves(books.entries, books.allocations, added.value, tenantId);
    } else {
      assert books.entries + [] == books.entries;
    }
  }

  // --- agreement over every run

  ghost predicate KeyIsFree(books: Books, m: Movement, key: string, amount: real)
  {
    FindKey(books.entries, m.tenantId, key).None? || ToMinor(amount) == 0
  }

  /**
   A movement that is not refused has a ledger key not in use yet, or moves no kobo; any other ledger call has no
   effect on the capital accounts.
   */
  ghost predicate Disciplined(books: Books, call: Call)
  {
    match call
    case DeployCall(_, _, m, _) => Step(books, call) != books ==> KeyIsFree(books, m, DeployKey(m), m.amount)
    case RepayCall(m) => Repay(books, m).1 == Applied ==> KeyIsFree(books, m, RepaymentKey(m), m.amount)
    case WriteOffCall(m) =>
      WriteOff(books, m).1 == Applied ==>
        var a := books.allocations[FindAllocation(books.allocations, m.tenantId, m.loanId).value];
        KeyIsFree(books, m, WriteOffKey(m), WriteOffAmount(a, m.amount))
    case LedgerCall(command) =>
      var added := Added(books.entries, command);
      added.Some? ==> IsNeutral(added.value)
  }

  ghost predicate DisciplinedRun(calls: seq<Call>)
  {
    forall i :: 0 <= i < |calls| ==> Disciplined(Run(calls[..i]), calls[i])
  }

  /** The tenant whose books the call may put out of step. */
  ghost function Mover(books: Books, call: Call): string
  {
    if !call.LedgerCall? then call.m.tenantId
    else
      var added := Added(books.entries, call.command);
      if added.Some? then added.value.tenantId else ""
  }

  /** A step keeps the agreement of every other tenant, and its own tenant's exactly if it is disciplined. */
  lemma StepAgrees(books: Books, call: Call, tenantId: string)
    requires Agrees(books, tenantId)
    ensures Agrees(Step(books, call), tenantId) <==> tenantId != Mover(books, call) || Disciplined(books, call)
  {
    match call
    case DeployCall(pools, guard, m, allocationId) =>
      if Step(books, call) != books { DeployMoves(books, pools, guard, m, allocationId, tenantId); }
    case RepayCall(m) =>
      if Repay(books, m).1 == Applied { RepayMoves(books, m, tenantId); }
    case WriteOffCall(m) =>
      if WriteOff(books, m).1 == Applied { WriteOffMoves(books, m, tenantId); }
    case LedgerCall(command) =>
      LedgerCallMoves(books, command, tenantId);
  }

  /**
   Over every disciplined run the ledger's four capital accounts agree with the allocation table, for
   every tenant and for any amounts; so the four always add up to zero.
   */
  lemma {:induction false} LedgerAgreesWithAllocations(calls: seq<Call>, tenantId: string)
    requires DisciplinedRun(calls)
    ensures Agrees(Run(calls), tenantId)
    ensures var entries := Run(calls).entries;
      Balance(tenantId, CAPITAL_POOL_AVAILABLE, entries) + Balance(tenantId, CAPITAL_POOL_DEPLOYED, entries)
      + Balance(tenantId, CAPITAL_POOL_REPAID, entries) + Balance(tenantId, CAPITAL_POOL_LOSSES, entries) == 0
  {
    if |calls| > 0 {
      var init := calls[..|calls| - 1];
      assert forall i :: 0 <= i < |init| ==> init[..i] == calls[..i];
      LedgerAgreesWithAllocations(init, tenantId);
      assert Disciplined(Run(calls[..|calls| - 1]), calls[|calls| - 1]);
      StepAgrees(Run(init), calls[|calls| - 1], tenantId);
    }
    OutstandingIsTheRest(tenantId, Run(calls).allocations);
  }

  ghost predicate AgreesForAll(books: Books)
  {
    forall tenantId :: Agrees(books, tenantId)
  }

  ghost predicate AgreesThroughout(calls: seq<Call>)
  {
    forall n :: 0 <= n <= |calls| ==> AgreesForAll(Run(calls[..n]))
  }

  lemma DisciplinedPrefixAgrees(calls: seq<Call>, n: nat)
    requires DisciplinedRun(calls) && n <= |calls|
    ensures AgreesForAll(Run(calls[..n]))
  {
    assert forall i :: 0 <= i < n ==> calls[..n][..i] == calls[..i];
    forall tenantId ensures Agrees(Run(calls[..n]), tenantId) {
      LedgerAgreesWithAllocations(calls[..n], tenantId);
    }
  }

  lemma AgreeingStepIsDisciplined(books: Books, call: Call)
    requires AgreesForAll(books) && AgreesForAll(Step(books, call))
    ensures Disciplined(books, call)
  {
    StepAgrees(books, call, Mover(books, call));
  }

  /** Ledger and allocations agree for every tenant all through a run exactly if the run is disciplined. */
  lemma AgreesThroughoutExactlyIfDisciplined(calls: seq<Call>)
    ensures AgreesThroughout(calls) <==> DisciplinedRun(calls)
  {
    if DisciplinedRun(calls) {
      forall n | 0 <= n <= |calls| ensures AgreesForAll(Run(calls[..n])) {
        DisciplinedPrefixAgrees(calls, n);
      }
    }
    if AgreesThroughout(calls) {
      forall i | 0 <= i < |calls| ensures Disciplined(Run(calls[..i]), calls[i]) {
        assert calls[..i + 1][..i] == calls[..i];
        AgreeingStepIsDisciplined(Run(calls[..i]), calls[i]);
      }
    }
  }

  lemma {:induction false} OutstandingIsTheRest(tenantId: string, allocations: seq<Allocation>)
    ensures SumInt(OutstandingOf(tenantId), allocations)
         == SumInt(DeployedOf(tenantId), allocations) - SumInt(ReleasedOf(tenantId), allocations)
            - SumInt(WrittenOffOf(tenantId), allocations)
  {
    if |allocations| > 0 {
      OutstandingIsTheRest(tenantId, allocations[..|allocations| - 1]);
    }
  }

  /** Deploying, repaying and writing off select no line for any loan's balances, not even the loan's own. */
  lemma CapitalCallsKeepLoanLines(books: Books, call: Call, tenantId: string, loanId: string)
    requires !call.LedgerCall?
    ensures LoanBalance.LoanLines(tenantId, loanId, Step(books, call).entries)
         == LoanBalance.LoanLines(tenantId, loanId, books.entries)
  {
    if Step(books, call).entries != books.entries {
      var input := CapitalCallPosts(books, call);
      CapitalPostKeepsLoanLines(books.entries, input, call.m.entryId, tenantId, loanId);
    }
  }

  /** Whatever a capital call adds to the ledger is a posting on capital accounts. */
  lemma CapitalCallPosts(books: Books, call: Call) returns (input: EntryInput)
    requires !call.LedgerCall? && Step(books, call).entries != books.entries
    ensures forall i :: 0 <= i < |input.lines| ==> IsCapital(input.lines[i].accountCode)
    ensures Step(books, call).entries == Post(books.entries, input, call.m.entryId).0
  {
    match call
    case DeployCall(_, _, m, _) => input := DeployEntry(m);
    case RepayCall(m) => input := RepaymentEntry(m);
    case WriteOffCall(m) =>
      var found := FindAllocation(books.allocations, m.tenantId, m.loanId);
      input := WriteOffEntry(m, WriteOffAmount(books.allocations[found.value], m.amount));
  }

  lemma CapitalPostKeepsLoanLines(
    entries: seq<Entry>, input: EntryInput, newId: string, tenantId: string, loanId: string)
    requires forall i :: 0 <= i < |input.lines| ==> IsCapital(input.lines[i].accountCode)
    ensures LoanBalance.LoanLines(tenantId, loanId, Post(entries, input, newId).0)
         == LoanBalance.LoanLines(tenantId, loanId, entries)
  {
    LoanBalance.OtherCallsAddNoLoanLines(entries, PostCommand(input, newId), tenantId, loanId);
  }

  // --- pool summaries against the ledger

  /** What is outstanding in one pool; negative when it was over-repaid. */
  function PoolOutstanding(pool: Pool, allocations: seq<Allocation>): int
  {
    SumInt(DeployedIn(pool), allocations) - SumInt(ReleasedIn(pool), allocations)
    - SumInt(WrittenOffIn(pool), allocations)
  }

  function SummaryDeployed(allocations: seq<Allocation>): Pool -> real
  {
    (pool: Pool) => GetPoolSummary(allocations, pool).deployed
  }

  function OutstandingIn(allocations: seq<Allocation>): Pool -> int
  {
    (pool: Pool) => PoolOutstanding(pool, allocations)
  }

  /** All pools of one tenant that its allocations are in. */
  ghost predicate CoversTenant(pools: seq<Pool>, tenantId: string, allocations: seq<Allocation>)
  {
    && (forall i :: 0 <= i < |pools| ==> pools[i].tenantId == tenantId)
    && (forall i, j :: 0 <= i < j < |pools| ==> pools[i].id != pools[j].id)
    && (forall a :: a in allocations && a.tenantId == tenantId ==>
          exists i :: 0 <= i < |pools| && pools[i].id == a.poolId)
  }

  lemma {:induction false} OneMoreAllocation(pools: seq<Pool>, allocations: seq<Allocation>, a: Allocation)
    requires forall i, j :: 0 <= i < j < |pools| ==> pools[i].id != pools[j].id
    ensures SumInt(OutstandingIn(allocations + [a]), pools)
         == SumInt(OutstandingIn(allocations), pools)
            + if exists p :: p in pools && InPool(a, p) then OutstandingKobo(a) else 0
  {
    if |pools| > 0 {
      var n := |pools| - 1;
      var p := pools[n];
      OneMoreAllocation(pools[..n], allocations, a);
      SumIntSnoc(DeployedIn(p), allocations, a);
      SumIntSnoc(ReleasedIn(p), allocations, a);
      SumIntSnoc(WrittenOffIn(p), allocations, a);
      assert forall q :: q in pools <==> q in pools[..n] || q == p;
    }
  }

  lemma {:induction false} NothingOutstandingYet(pools: seq<Pool>)
    ensures SumInt(OutstandingIn([]), pools) == 0
  {
    if |pools| > 0 {
      NothingOutstandingYet(pools[..|pools| - 1]);
    }
  }

  lemma {:induction false} PoolsMakeTenant(pools: seq<Pool>, tenantId: string, allocations: seq<Allocation>)
    requires CoversTenant(pools, tenantId, allocations)
    ensures SumInt(OutstandingIn(allocations), pools) == SumInt(OutstandingOf(tenantId), allocations)
  {
    if |allocations| == 0 {
      NothingOutstandingYet(pools);
    } else {
      var n := |allocations| - 1;
      var a := allocations[n];
      assert allocations == allocations[..n] + [a];
      PoolsMakeTenant(pools, tenantId, allocations[..n]);
      OneMoreAllocation(pools, allocations[..n], a);
      if a.tenantId == tenantId {
        var i :| 0 <= i < |pools| && pools[i].id == a.poolId;
        assert pools[i] in pools && InPool(a, pools[i]);
      }
    }
  }

  /** The summaries clamp at zero, so their sum is never below the outstanding one, and equal only without clamping. */
  lemma {:induction false} ClampedSum(pools: seq<Pool>, allocations: seq<Allocation>)
    ensures SumReal(SummaryDeployed(allocations), pools) * 100.0 >= SumInt(OutstandingIn(allocations), pools) as real
    ensures SumReal(SummaryDeployed(allocations), pools) * 100.0 == SumInt(OutstandingIn(allocations), pools) as real
       <==> forall i :: 0 <= i < |pools| ==> PoolOutstanding(pools[i], allocations) >= 0
  {
    if |pools| > 0 {
      var n := |pools| - 1;
      ClampedSum(pools[..n], allocations);
      assert forall i :: 0 <= i < n ==> pools[..n][i] == pools[i];
    }
  }

  /**
   The deployed figures of a tenant's pool summaries add up to the ledger's deployed account exactly when
   no pool was repaid more than it had deployed: a summary shows zero where the ledger shows a debt.
   */
  lemma PoolSummariesAddUpToLedger(calls: seq<Call>, tenantId: string, pools: seq<Pool>)
    requires DisciplinedRun(calls) && CoversTenant(pools, tenantId, Run(calls).allocations)
    ensures var books := Run(calls);
      SumReal(SummaryDeployed(books.allocations), pools) * 100.0
        == Balance(tenantId, CAPITAL_POOL_DEPLOYED, books.entries) as real
      <==> forall i :: 0 <= i < |pools| ==> PoolOutstanding(pools[i], books.allocations) >= 0
  {
    LedgerAgreesWithAllocations(calls, tenantId);
    PoolsMakeTenant(pools, tenantId, Run(calls).allocations);
    ClampedSum(pools, Run(calls).allocations);
  }

  /** A pool's available, deployed and lost capital make up its initial capital unless it is overdrawn. */
  lemma PoolSummaryConserves(allocations: seq<Allocation>, pool: Pool)
    requires InitialCapital(pool) > 0.0
    ensures var s := GetPoolSummary(allocations, pool);
      && (s.available + s.deployed + s.losses == InitialCapital(pool)
          <==> s.deployed + s.losses <= InitialCapital(pool))
      && (s.deployed + s.losses > InitialCapital(pool) ==> s.available == 0.0)
  {
  }

  // --- which pool funds a loan

  /** What precedes a pool also precedes every pool that is no earlier than that one. */
  lemma PrecedesOn(allocations: seq<Allocation>, a: Pool, b: Pool, c: Pool)
    requires Precedes(allocations, a, b) && (Precedes(allocations, b, c) || !Precedes(allocations, c, b))
    ensures Precedes(allocations, a, c)
  {
  }

  lemma FirstSnoc(allocations: seq<Allocation>, pools: seq<Pool>, i: nat)
    requires i < |pools| - 1 && IsFirst(allocations, pools[..|pools| - 1], i)
    ensures IsFirst(allocations, pools, if Precedes(allocations, pools[|pools| - 1], pools[i]) then |pools| - 1 else i)
  {
    var n := |pools| - 1;
    assert forall j :: 0 <= j < n ==> pools[..n][j] == pools[j];
    if Precedes(allocations, pools[n], pools[i]) {
      forall j | 0 <= j < n ensures Precedes(allocations, pools[n], pools[j]) {
        if j != i {
          PrecedesOn(allocations, pools[n], pools[i], pools[j]);
        }
      }
    }
  }

  lemma SortedLength(allocations: seq<Allocation>, pools: seq<Pool>)
    ensures |SortByAvailable(allocations, pools)| == |pools|
  {
    assert |multiset(SortByAvailable(allocations, pools))| == |multiset(pools)|;
  }

  lemma {:induction false} SortedHead(allocations: seq<Allocation>, pools: seq<Pool>) returns (i: nat)
    requires |pools| > 0
    ensures i < |pools| && |SortByAvailable(allocations, pools)| == |pools|
    ensures SortByAvailable(allocations, pools)[0] == pools[i] && IsFirst(allocations, pools, i)
  {
    var n := |pools| - 1;
    SortedLength(allocations, pools);
    if n == 0 {
      i := 0;
    } else {
      i := SortedHead(allocations, pools[..n]);
      FirstSnoc(allocations, pools, i);
      if Precedes(allocations, pools[n], pools[i]) {
        i := n;
      }
    }
  }

  /**
   Whatever the guard, the pool that is tried is the first candidate that no other precedes, in the order
   of availability and age; a loan is funded exactly when the guard accepts that one.
   */
  lemma OnlyHeadCandidateIsTried(
    allocations: seq<Allocation>, pools: seq<Pool>, guard: (string, real) -> bool, tenantId: string, amount: real)
    returns (i: nat)
    ensures var candidates := Candidates(pools, tenantId);
      var resolution := ResolveFundingPool(allocations, pools, guard, tenantId, amount);
      && (resolution == NoActivePool <==> |candidates| == 0)
      && resolution != NoPoolPassed
      && (|candidates| > 0 ==>
            && i < |candidates| && IsFirst(allocations, candidates, i)
            && resolution == if guard(candidates[i].id, amount) then Funded(candidates[i])
              else GuardThrew(candidates[i]))
  {
    var candidates := Candidates(pools, tenantId);
    i := 0;
    if |candidates| > 0 {
      i := SortedHead(allocations, candidates);
    } else {
      assert |multiset(SortByAvailable(allocations, candidates))| == 0;
    }
  }

  /** Some candidate would pass the guard. */
  ghost predicate Acceptable(pools: seq<Pool>, tenantId: string, guard: (string, real) -> bool, amount: real)
  {
    exists p :: p in pools && IsCandidate(p, tenantId) && guard(p.id, amount)
  }

  ghost predicate IsFunded(
    allocations: seq<Allocation>, pools: seq<Pool>, tenantId: string, guard: (string, real) -> bool, amount: real)
  {
    ResolveFundingPool(allocations, pools, guard, tenantId, amount).Funded?
  }

  /** For one guard: whenever some candidate is acceptable the loan is funded, exactly if the head is or none is. */
  lemma AcceptableIsFundedExactlyAtHead(
    allocations: seq<Allocation>, pools: seq<Pool>, guard: (string, real) -> bool, tenantId: string, amount: real)
    requires |Candidates(pools, tenantId)| > 0
    ensures |SortByAvailable(allocations, Candidates(pools, tenantId))| > 0
    ensures (Acceptable(pools, tenantId, guard, amount) ==> IsFunded(allocations, pools, tenantId, guard, amount))
       <==> guard(SortByAvailable(allocations, Candidates(pools, tenantId))[0].id, amount)
            || forall p :: p in Candidates(pools, tenantId) ==> !guard(p.id, amount)
  {
    var i := OnlyHeadCandidateIsTried(allocations, pools, guard, tenantId, amount);
  }

  /** With two candidates of different ids some guard accepts one of them and the loan is still refused. */
  lemma ChoiceCanBeRefused(
    allocations: seq<Allocation>, pools: seq<Pool>, tenantId: string, amount: real, p: Pool, q: Pool)
    returns (guard: (string, real) -> bool)
    requires p in Candidates(pools, tenantId) && q in Candidates(pools, tenantId) && p.id != q.id
    ensures Acceptable(pools, tenantId, guard, amount) && !IsFunded(allocations, pools, tenantId, guard, amount)
  {
    SortedLength(allocations, Candidates(pools, tenantId));
    var head := SortByAvailable(allocations, Candidates(pools, tenantId))[0];
    var other := if p.id == head.id then q else p;
    guard := (id: string, x: real) => id == other.id;
    assert guard(other.id, amount);
  }

  /** All candidates of the tenant are one pool. */
  ghost predicate NoChoice(pools: seq<Pool>, tenantId: string)
  {
    forall p, q :: p in Candidates(pools, tenantId) && q in Candidates(pools, tenantId) ==> p.id == q.id
  }

  ghost predicate FundedIfAcceptable(
    allocations: seq<Allocation>, pools: seq<Pool>, tenantId: string, guard: (string, real) -> bool, amount: real)
  {
    Acceptable(pools, tenantId, guard, amount) ==> IsFunded(allocations, pools, tenantId, guard, amount)
  }

  /**
   Every guard lets a loan have a pool whenever some candidate is acceptable, exactly if there is no choice of
   pools.
   */
  lemma AcceptableIsFundedExactlyWithoutChoice(
    allocations: seq<Allocation>, pools: seq<Pool>, tenantId: string, amount: real)
    ensures (forall guard :: FundedIfAcceptable(allocations, pools, tenantId, guard, amount))
      <==> NoChoice(pools, tenantId)
  {
    if NoChoice(pools, tenantId) {
      forall guard ensures FundedIfAcceptable(allocations, pools, tenantId, guard, amount) {
        if p :| p in pools && IsCandidate(p, tenantId) && guard(p.id, amount) {
          var i := OnlyHeadCandidateIsTried(allocations, pools, guard, tenantId, amount);
          assert p in Candidates(pools, tenantId) && Candidates(pools, tenantId)[i] in Candidates(pools, tenantId);
        }
      }
    } else {
      var p, q :| p in Candidates(pools, tenantId) && q in Candidates(pools, tenantId) && p.id != q.id;
      var guard := ChoiceCanBeRefused(allocations, pools, tenantId, amount, p, q);
      assert !FundedIfAcceptable(allocations, pools, tenantId, guard, amount);
    }
  }

  // --- the life of an allocation

  ghost predicate AllocationOk(a: Allocation)
  {
    && a.deployed >= 0 && a.released >= 0 && a.writtenOff >= 0
    && a.writtenOff <= a.deployed
    && (a.status == RELEASED ==> OutstandingKobo(a) <= 0)
  }

  ghost predicate TableOk(allocations: seq<Allocation>)
  {
    && (forall i :: 0 <= i < |allocations| ==> AllocationOk(allocations[i]))
    && (forall i, j :: 0 <= i < j < |allocations| ==>
          allocations[i].id != allocations[j].id && allocations[i].loanId != allocations[j].loanId)
  }

  /** How a row may change: only forwards, never out of RELEASED, and no write-off past what was deployed. */
  ghost predicate Forward(a: Allocation, b: Allocation)
  {
    && b.id == a.id && b.tenantId == a.tenantId && b.loanId == a.loanId && b.poolId == a.poolId
      && b.deployed == a.deployed
    && a.released <= b.released && a.writtenOff <= b.writtenOff
    && (a.status == RELEASED ==> b.status == RELEASED)
    && (a.writtenOff < b.writtenOff ==> b.released + b.writtenOff <= b.deployed)
  }

  ghost predicate TableForward(before: seq<Allocation>, after: seq<Allocation>)
  {
    |before| <= |after| && forall i :: 0 <= i < |before| ==> Forward(before[i], after[i])
  }

  lemma RepaymentForward(a: Allocation, principal: real)
    requires AllocationOk(a) && principal > 0.0
    ensures AllocationOk(AfterRepayment(a, principal)) && Forward(a, AfterRepayment(a, principal))
    ensures AfterRepayment(a, principal).status == RELEASED <==> OutstandingKobo(a) as real <= principal * 100.0
  {
  }

  lemma InsertForward(allocations: seq<Allocation>, a: Allocation)
    requires TableOk(allocations) && AllocationOk(a) && CanInsert(allocations, a.id, a.loanId)
    ensures TableOk(allocations + [a]) && TableForward(allocations, allocations + [a])
  {
  }

  lemma UpdateForward(allocations: seq<Allocation>, i: nat, next: Allocation)
    requires TableOk(allocations) && i < |allocations| && AllocationOk(next) && Forward(allocations[i], next)
    ensures TableOk(allocations[i := next]) && TableForward(allocations, allocations[i := next])
  {
  }

  /** A deployment that does something inserts one row. */
  lemma DeployInserts(books: Books, pools: seq<Pool>, guard: (string, real) -> bool, m: Movement, allocationId: string)
    returns (poolId: string)
    requires Deploy(books, pools, guard, m, allocationId).0 != books
    ensures Deploy(books, pools, guard, m, allocationId).0.allocations
         == books.allocations + [NewAllocation(m, allocationId, poolId)]
    ensures CanInsert(books.allocations, allocationId, m.loanId) && m.amount > 0.0
  {
    poolId := ResolveFundingPool(books.allocations, pools, guard, m.tenantId, m.amount).pool.id;
  }

  lemma DeployForward(books: Books, pools: seq<Pool>, guard: (string, real) -> bool, m: Movement, allocationId: string)
    requires TableOk(books.allocations) && Deploy(books, pools, guard, m, allocationId).0 != books
    ensures TableOk(Deploy(books, pools, guard, m, allocationId).0.allocations)
    ensures TableForward(books.allocations, Deploy(books, pools, guard, m, allocationId).0.allocations)
  {
    var poolId := DeployInserts(books, pools, guard, m, allocationId);
    InsertForward(books.allocations, NewAllocation(m, allocationId, poolId));
  }

  lemma RepayForward(books: Books, m: Movement)
    requires TableOk(books.allocations) && Repay(books, m).1 == Applied
    ensures TableOk(Repay(books, m).0.allocations)
    ensures TableForward(books.allocations, Repay(books, m).0.allocations)
  {
    var i := FindAllocation(books.allocations, m.tenantId, m.loanId).value;
    RepaymentForward(books.allocations[i], m.amount);
    UpdateForward(books.allocations, i, AfterRepayment(books.allocations[i], m.amount));
  }

  lemma WriteOffForward(a: Allocation, amount: real)
    requires AllocationOk(a) && amount > 0.0 && OutstandingKobo(a) > 0
    ensures AllocationOk(AfterWriteOff(a, amount)) && Forward(a, AfterWriteOff(a, amount))
  {
    WriteOffWithinOutstanding(a, amount);
    ColumnAddsKobo(a.writtenOff, WriteOffAmount(a, amount));
  }

  lemma WriteOffCallForward(books: Books, m: Movement)
    requires TableOk(books.allocations) && WriteOff(books, m).1 == Applied
    ensures TableOk(WriteOff(books, m).0.allocations)
    ensures TableForward(books.allocations, WriteOff(books, m).0.allocations)
  {
    var i := FindAllocation(books.allocations, m.tenantId, m.loanId).value;
    WriteOffForward(books.allocations[i], m.amount);
    UpdateForward(books.allocations, i, AfterWriteOff(books.allocations[i], m.amount));
  }

  lemma StepForward(books: Books, call: Call)
    requires TableOk(books.allocations)
    ensures TableOk(Step(books, call).allocations)
    ensures TableForward(books.allocations, Step(books, call).allocations)
  {
    match call
    case DeployCall(pools, guard, m, allocationId) =>
      if Step(books, call) != books { DeployForward(books, pools, guard, m, allocationId); }
    case RepayCall(m) =>
      if Repay(books, m).1 == Applied { RepayForward(books, m); }
    case WriteOffCall(m) =>
      if WriteOff(books, m).1 == Applied { WriteOffCallForward(books, m); }
    case LedgerCall(command) =>
  }

  lemma {:induction false} TableOkAlways(calls: seq<Call>)
    ensures TableOk(Run(calls).allocations)
  {
    if |calls| > 0 {
      TableOkAlways(calls[..|calls| - 1]);
      StepForward(Run(calls[..|calls| - 1]), calls[|calls| - 1]);
    }
  }

  /**
   Over every run there is one allocation per loan, amounts repaid and written off never go down, what is
   written off never passes what was deployed, and RELEASED is final.
   */
  lemma {:induction false} AllocationsOnlyGoForward(calls: seq<Call>, n: nat)
    requires n <= |calls|
    ensures TableOk(Run(calls).allocations)
    ensures var before, after := Run(calls[..n]).allocations, Run(calls).allocations;
      && |before| <= |after|
      && forall i :: 0 <= i < |before| ==>
           && after[i].loanId == before[i].loanId && after[i].tenantId == before[i].tenantId
           && before[i].deployed == after[i].deployed
           && before[i].released <= after[i].released
           && before[i].writtenOff <= after[i].writtenOff <= after[i].deployed
           && (before[i].status == RELEASED ==> after[i].status == RELEASED)
  {
    TableOkAlways(calls);
    if n == |calls| {
      assert calls[..n] == calls;
    } else {
      var init := calls[..|calls| - 1];
      AllocationsOnlyGoForward(init, n);
      assert init[..n] == calls[..n];
      StepForward(Run(init), calls[|calls| - 1]);
    }
  }

  // --- DEPLOYED and what is outstanding

  /** Every capital amount of the call is whole kobo. */
  ghost predicate WholeKoboCall(call: Call)
  {
    !call.LedgerCall? ==> call.m.amount * 100.0 == ToMinor(call.m.amount) as real
  }

  ghost predicate DeployedMeansOutstanding(allocations: seq<Allocation>)
  {
    forall i :: 0 <= i < |allocations| && allocations[i].status == DEPLOYED ==> OutstandingKobo(allocations[i]) > 0
  }

  /**
   A repayment leaves a DEPLOYED row with nothing outstanding exactly when less than what was
   outstanding is repaid and the repayment rounds up to all of it.
   */
  lemma RepaymentLeavesEmptyDeployed(a: Allocation, principal: real)
    requires AllocationOk(a) && principal > 0.0
    ensures var b := AfterRepayment(a, principal);
      (b.status == DEPLOYED && OutstandingKobo(b) <= 0)
      <==> (principal * 100.0 < OutstandingKobo(a) as real && ToMinor(principal) == OutstandingKobo(a))
  {
  }

  /** Deploying less than half a kobo makes such a row at once. */
  lemma DeployMakesEmptyDeployed(
    books: Books, pools: seq<Pool>, guard: (string, real) -> bool, m: Movement, allocationId: string)
    requires Deploy(books, pools, guard, m, allocationId).0 != books
    ensures var allocations := Deploy(books, pools, guard, m, allocationId).0.allocations;
      && |allocations| == |books.allocations| + 1
      && allocations[|books.allocations|].status == DEPLOYED
      && (OutstandingKobo(allocations[|books.allocations|]) <= 0 <==> m.amount < 0.005)
  {
  }

  /** A step of whole-kobo amounts leaves no empty DEPLOYED row. */
  lemma StepKeepsDeployed(books: Books, call: Call)
    requires TableOk(books.allocations) && DeployedMeansOutstanding(books.allocations) && WholeKoboCall(call)
    ensures DeployedMeansOutstanding(Step(books, call).allocations)
  {
    match call
    case DeployCall(pools, guard, m, allocationId) =>
      if Step(books, call) != books { DeployMakesEmptyDeployed(books, pools, guard, m, allocationId); }
    case RepayCall(m) =>
      if Repay(books, m).1 == Applied {
        var i := FindAllocation(books.allocations, m.tenantId, m.loanId).value;
        RepaymentLeavesEmptyDeployed(books.allocations[i], m.amount);
      }
    case WriteOffCall(m) =>
    case LedgerCall(command) =>
  }

  /** With whole-kobo amounts, DEPLOYED always means that something is outstanding. */
  lemma {:induction false} DeployedMeansOutstandingInWholeKobo(calls: seq<Call>)
    requires forall i :: 0 <= i < |calls| ==> WholeKoboCall(calls[i])
    ensures DeployedMeansOutstanding(Run(calls).allocations)
  {
    if |calls| > 0 {
      var init := calls[..|calls| - 1];
      DeployedMeansOutstandingInWholeKobo(init);
      TableOkAlways(init);
      StepKeepsDeployed(Run(init), calls[|calls| - 1]);
    }
  }
}
