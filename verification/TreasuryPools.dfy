/** Which pool a loan is funded from, over every run, and what the pools' summaries say of the ledger. */
module TreasuryPools {
  import opened Wrappers
  import opened Sums
  import opened LedgerModel
  import opened TenantLedger
  import opened LedgerEntries
  import opened Treasury
  import opened TreasuryProperties

  // --- what a pool has left

  /** Deployed and neither repaid nor written off, in naira, for one pool of one tenant. */
  function InUse(allocations: seq<Allocation>, tenantId: string, poolId: string): (naira: real)
    ensures naira >= 0.0
  {
    var kobo := SumInt(
      (a: Allocation) =>
        if a.tenantId == tenantId && a.poolId == poolId then a.deployed - a.released - a.writtenOff else 0,
      allocations);
    if kobo < 0 then 0.0 else kobo as real / 100.0
  }

  function Lost(allocations: seq<Allocation>, tenantId: string, poolId: string): (naira: real)
  {
    SumInt((a: Allocation) => if a.tenantId == tenantId && a.poolId == poolId then a.writtenOff else 0, allocations)
      as real / 100.0
  }

  lemma {:induction false} InUseIsOutstanding(allocations: seq<Allocation>, pool: Pool)
    ensures var f := (a: Allocation) =>
        if a.tenantId == pool.tenantId && a.poolId == pool.id then a.deployed - a.released - a.writtenOff else 0;
      SumInt(f, allocations) == PoolOutstanding(pool, allocations)
  {
    if |allocations| > 0 {
      InUseIsOutstanding(allocations[..|allocations| - 1], pool);
    }
  }

  lemma {:induction false} LostIsWrittenOff(allocations: seq<Allocation>, pool: Pool)
    ensures var f := (a: Allocation) =>
        if a.tenantId == pool.tenantId && a.poolId == pool.id then a.writtenOff else 0;
      SumInt(f, allocations) == SumInt(WrittenOffIn(pool), allocations)
  {
    if |allocations| > 0 {
      LostIsWrittenOff(allocations[..|allocations| - 1], pool);
    }
  }

  /** What a pool still has: its capital less what is in use and lost, and nothing without or beyond its capital. */
  lemma AvailableIsWhatIsLeft(allocations: seq<Allocation>, pool: Pool)
    ensures var capital :=
        if pool.initialCapital.Some? then pool.initialCapital.value
        else if pool.maxDeployedAmount.Some? then pool.maxDeployedAmount.value
        else 0.0;
      var left := capital - InUse(allocations, pool.tenantId, pool.id) - Lost(allocations, pool.tenantId, pool.id);
      GetPoolSummary(allocations, pool).available == if capital <= 0.0 || left < 0.0 then 0.0 else left
  {
    InUseIsOutstanding(allocations, pool);
    LostIsWrittenOff(allocations, pool);
  }

  // --- which pool is funded

  function Available(allocations: seq<Allocation>, pool: Pool): real { GetPoolSummary(allocations, pool).available }

  /** No active pool of the tenant has more left, and none that has as much is older. */
  ghost predicate IsBest(allocations: seq<Allocation>, pools: seq<Pool>, tenantId: string, best: Pool)
  {
    && best in pools && best.tenantId == tenantId && best.active
    && forall p :: p in pools && p.tenantId == tenantId && p.active ==>
         && Available(allocations, p) <= Available(allocations, best)
         && (Available(allocations, p) == Available(allocations, best) ==> best.createdAt <= p.createdAt)
  }

  ghost predicate HasActivePool(pools: seq<Pool>, tenantId: string)
  {
    exists p :: p in pools && p.tenantId == tenantId && p.active
  }

  /**
   A loan is funded from an active pool of its own tenant, the one with the most left and of those the oldest,
   and only if the guard lets it; if the guard throws it throws on that one; and nothing else stands in the
   way but that the tenant has no active pool.
   */
  lemma FundedFromBestOwnPool(
    allocations: seq<Allocation>, pools: seq<Pool>, guard: (string, real) -> bool, tenantId: string, amount: real)
    ensures var resolution := ResolveFundingPool(allocations, pools, guard, tenantId, amount);
      && (resolution == NoActivePool <==> !HasActivePool(pools, tenantId))
      && (resolution.Funded? ==>
            IsBest(allocations, pools, tenantId, resolution.pool) && guard(resolution.pool.id, amount))
      && (resolution.GuardThrew? ==>
            IsBest(allocations, pools, tenantId, resolution.pool) && !guard(resolution.pool.id, amount))
      && resolution != NoPoolPassed
  {
    var candidates := Candidates(pools, tenantId);
    var i := OnlyHeadCandidateIsTried(allocations, pools, guard, tenantId, amount);
    if |candidates| > 0 {
      HeadIsBest(allocations, pools, tenantId, i);
      assert candidates[0] in candidates;
    }
  }

  lemma HeadIsBest(allocations: seq<Allocation>, pools: seq<Pool>, tenantId: string, i: nat)
    requires i < |Candidates(pools, tenantId)| && IsFirst(allocations, Candidates(pools, tenantId), i)
    ensures IsBest(allocations, pools, tenantId, Candidates(pools, tenantId)[i])
  {
    var candidates := Candidates(pools, tenantId);
    assert candidates[i] in candidates;
    forall p | p in pools && p.tenantId == tenantId && p.active
      ensures Available(allocations, p) <= Available(allocations, candidates[i])
      ensures Available(allocations, p) == Available(allocations, candidates[i]) ==>
        candidates[i].createdAt <= p.createdAt
    {
      assert p in candidates;
      var j :| 0 <= j < |candidates| && candidates[j] == p;
    }
  }

  // --- over every run

  /** The call is the deployment that made the allocation, from what was then the best pool of its own tenant. */
  ghost predicate MadeBy(before: Books, call: Call, a: Allocation)
  {
    && call.DeployCall? && a.tenantId == call.m.tenantId && a.loanId == call.m.loanId
    && exists p :: IsBest(before.allocations, call.pools, a.tenantId, p) && p.id == a.poolId
                   && call.guard(p.id, call.m.amount)
  }

  lemma NewRowIsMadeBy(before: Books, call: Call, k: nat)
    requires |before.allocations| <= k < |Step(before, call).allocations|
    ensures MadeBy(before, call, Step(before, call).allocations[k])
  {
    assert call.DeployCall?;
    var m := call.m;
    FundedFromBestOwnPool(before.allocations, call.pools, call.guard, m.tenantId, m.amount);
    var pool := ResolveFundingPool(before.allocations, call.pools, call.guard, m.tenantId, m.amount).pool;
    assert Step(before, call).allocations == before.allocations + [NewAllocation(m, call.allocationId, pool.id)];
  }

  /**
   Over every run each allocation was made by a deployment of the run, for its tenant and loan, from a pool
   that was then an active one of that tenant with the most left; and it stays with that pool.
   */
  lemma {:induction false} EveryAllocationHasItsPool(calls: seq<Call>, k: nat) returns (n: nat)
    requires k < |Run(calls).allocations|
    ensures n < |calls| && MadeBy(Run(calls[..n]), calls[n], Run(calls).allocations[k])
  {
    n := |calls| - 1;
    var init := calls[..n];
    TableOkAlways(init);
    StepForward(Run(init), calls[n]);
    if k < |Run(init).allocations| {
      var a, b := Run(init).allocations[k], Run(calls).allocations[k];
      assert Forward(a, b);
      var e := EveryAllocationHasItsPool(init, k);
      assert init[..e] == calls[..e] && init[e] == calls[e];
      n := e;
    } else {
      NewRowIsMadeBy(Run(init), calls[n], k);
    }
  }

  /** So if all deployments read one table of pools, every allocation is in an active pool of its own tenant. */
  lemma AllocationsAreInOwnPools(calls: seq<Call>, pools: seq<Pool>)
    requires forall i :: 0 <= i < |calls| && calls[i].DeployCall? ==> calls[i].pools == pools
    ensures forall a :: a in Run(calls).allocations ==>
      exists p :: p in pools && p.id == a.poolId && p.tenantId == a.tenantId && p.active
  {
    forall a | a in Run(calls).allocations
      ensures exists p :: p in pools && p.id == a.poolId && p.tenantId == a.tenantId && p.active
    {
      var k :| 0 <= k < |Run(calls).allocations| && Run(calls).allocations[k] == a;
      var n := EveryAllocationHasItsPool(calls, k);
    }
  }

  // --- what a movement leaves behind

  /** A debit and a credit of the same kobo, of the movement's currency, for its loan. */
  ghost predicate IsCapitalEntry(
    e: Entry, m: Movement, entryType: EntryType, prefix: string, debitCode: AccountCode, creditCode: AccountCode,
    kobo: int)
  {
    && e.id == m.entryId && e.tenantId == m.tenantId && e.occurredAt == m.now && e.entryType == entryType
    && e.idempotencyKey == prefix + m.idempotencyKey
    && e.referenceType == "LoanApplication" && e.referenceId == m.loanId
    && |e.lines| == 2
    && e.lines[0].accountCode == debitCode && e.lines[0].direction == DEBIT && e.lines[0].amountMinor == kobo
    && e.lines[1].accountCode == creditCode && e.lines[1].direction == CREDIT && e.lines[1].amountMinor == kobo
    && IsNormalFormOf(e.lines[0].currency, m.currency) && e.lines[1].currency == e.lines[0].currency
  }

  /** What the call added at the end of the ledger, if anything, is this entry. */
  ghost predicate AddsCapitalEntry(
    before: seq<Entry>, after: seq<Entry>, m: Movement, entryType: EntryType, prefix: string,
    debitCode: AccountCode, creditCode: AccountCode, kobo: int)
  {
    after == before
    || (&& |after| == |before| + 1 && after[..|before|] == before
        && IsCapitalEntry(after[|before|], m, entryType, prefix, debitCode, creditCode, kobo))
  }

  lemma PostAddsCapitalEntry(
    entries: seq<Entry>, m: Movement, entryType: EntryType, prefix: string, debitCode: AccountCode,
    creditCode: AccountCode, amount: real)
    ensures var input := CapitalEntry(m, entryType, prefix + m.idempotencyKey, debitCode, creditCode, amount);
      AddsCapitalEntry(entries, Post(entries, input, m.entryId).0, m, entryType, prefix, debitCode, creditCode,
                       ToMinor(amount))
  {
    NormalizedIs(m.currency);
  }

  /** The entry a movement posts, and nothing else of the ledger changes. */
  ghost predicate Posts(
    before: seq<Entry>, after: seq<Entry>, m: Movement, entryType: EntryType, prefix: string,
    debitCode: AccountCode, creditCode: AccountCode, amount: real)
  {
    after == Post(before, CapitalEntry(m, entryType, prefix + m.idempotencyKey, debitCode, creditCode, amount),
                  m.entryId).0
  }

  lemma PostsAdd(
    before: seq<Entry>, after: seq<Entry>, m: Movement, entryType: EntryType, prefix: string,
    debitCode: AccountCode, creditCode: AccountCode, amount: real)
    requires Posts(before, after, m, entryType, prefix, debitCode, creditCode, amount)
    ensures AddsCapitalEntry(before, after, m, entryType, prefix, debitCode, creditCode, ToMinor(amount))
  {
    PostAddsCapitalEntry(before, m, entryType, prefix, debitCode, creditCode, amount);
  }

  lemma DeploymentPosts(
    books: Books, pools: seq<Pool>, guard: (string, real) -> bool, m: Movement, allocationId: string)
    requires Deploy(books, pools, guard, m, allocationId).0 != books
    ensures Posts(books.entries, Deploy(books, pools, guard, m, allocationId).0.entries, m, ADJUSTMENT,
                  "capital:deploy:", CAPITAL_POOL_DEPLOYED, CAPITAL_POOL_AVAILABLE, m.amount)
  {
  }

  lemma DeploymentRow(
    books: Books, pools: seq<Pool>, guard: (string, real) -> bool, m: Movement, allocationId: string)
    requires Deploy(books, pools, guard, m, allocationId).0 != books
    ensures var (after, outcome) := Deploy(books, pools, guard, m, allocationId);
      var kobo := ToMinor(m.amount);
      && outcome.Allocated? && outcome.allocationId == allocationId
      && after.allocations == books.allocations
           + [Allocation(allocationId, m.tenantId, outcome.poolId, m.loanId, DEPLOYED, kobo, kobo, 0, 0)]
  {
  }

  /** A deployment adds an allocation of its kobo, all of it outstanding, and its ledger entry. */
  lemma DeploymentLeaves(
    books: Books, pools: seq<Pool>, guard: (string, real) -> bool, m: Movement, allocationId: string)
    requires Deploy(books, pools, guard, m, allocationId).0 != books
    ensures var (after, outcome) := Deploy(books, pools, guard, m, allocationId);
      var kobo := ToMinor(m.amount);
      && outcome.Allocated? && outcome.allocationId == allocationId
      && after.allocations == books.allocations
           + [Allocation(allocationId, m.tenantId, outcome.poolId, m.loanId, DEPLOYED, kobo, kobo, 0, 0)]
      && AddsCapitalEntry(books.entries, after.entries, m, ADJUSTMENT, "capital:deploy:", CAPITAL_POOL_DEPLOYED,
                          CAPITAL_POOL_AVAILABLE, kobo)
  {
    DeploymentRow(books, pools, guard, m, allocationId);
    DeploymentPosts(books, pools, guard, m, allocationId);
    PostsAdd(books.entries, Deploy(books, pools, guard, m, allocationId).0.entries, m, ADJUSTMENT, "capital:deploy:",
      CAPITAL_POOL_DEPLOYED, CAPITAL_POOL_AVAILABLE, m.amount);
  }

  /** Deploying again to a loan that has an allocation is answered with that one, and changes nothing. */
  lemma DeploymentIsNotRepeated(
    books: Books, pools: seq<Pool>, guard: (string, real) -> bool, m: Movement, allocationId: string, i: nat)
    requires TableOk(books.allocations) && i < |books.allocations|
    requires books.allocations[i].tenantId == m.tenantId && books.allocations[i].loanId == m.loanId
    ensures Deploy(books, pools, guard, m, allocationId)
         == (books, Allocated(books.allocations[i].id, books.allocations[i].poolId))
  {
    assert books.allocations[i] in books.allocations;
  }

  /** The loan's row, and the only row that changes. */
  predicate RowChanges(before: seq<Allocation>, after: seq<Allocation>, m: Movement, i: nat, next: Allocation)
  {
    i < |before| && before[i].tenantId == m.tenantId && before[i].loanId == m.loanId && after == before[i := next]
  }

  lemma RepaymentPosts(books: Books, m: Movement)
    requires Repay(books, m).1 == Applied
    ensures Posts(books.entries, Repay(books, m).0.entries, m, ADJUSTMENT, "capital:repayment:", CAPITAL_POOL_REPAID,
                  CAPITAL_POOL_DEPLOYED, m.amount)
  {
  }

  lemma RepaymentRow(books: Books, m: Movement) returns (i: nat)
    requires Repay(books, m).1 == Applied
    ensures i < |books.allocations|
    ensures var after, kobo, a := Repay(books, m).0, ToMinor(m.amount), books.allocations[i];
      RowChanges(books.allocations, after.allocations, m, i, a.(
        released := a.released + kobo,
        status := if (a.deployed - a.released - a.writtenOff) as real <= m.amount * 100.0 then RELEASED else DEPLOYED))
  {
    i := FindAllocation(books.allocations, m.tenantId, m.loanId).value;
    ColumnAddsKobo(books.allocations[i].released, m.amount);
  }

  /** A repayment adds its kobo to what is released, and releases the row if nothing is outstanding any more. */
  lemma RepaymentLeaves(books: Books, m: Movement) returns (i: nat)
    requires Repay(books, m).1 == Applied
    ensures i < |books.allocations|
    ensures var after, kobo, a := Repay(books, m).0, ToMinor(m.amount), books.allocations[i];
      && RowChanges(books.allocations, after.allocations, m, i, a.(
           released := a.released + kobo,
           status := if (a.deployed - a.released - a.writtenOff) as real <= m.amount * 100.0 then RELEASED
             else DEPLOYED))
      && AddsCapitalEntry(books.entries, after.entries, m, ADJUSTMENT, "capital:repayment:", CAPITAL_POOL_REPAID,
                          CAPITAL_POOL_DEPLOYED, kobo)
  {
    i := RepaymentRow(books, m);
    RepaymentPosts(books, m);
    PostsAdd(books.entries, Repay(books, m).0.entries, m, ADJUSTMENT, "capital:repayment:", CAPITAL_POOL_REPAID,
      CAPITAL_POOL_DEPLOYED, m.amount);
  }

  /** What is written off in naira: the amount, or what is outstanding if that is less. */
  function WrittenOffNow(a: Allocation, amount: real): real
  {
    var outstanding := (a.deployed - a.released - a.writtenOff) as real / 100.0;
    if amount < outstanding then amount else outstanding
  }

  lemma WriteOffTakes(a: Allocation, amount: real)
    requires a.deployed - a.released - a.writtenOff > 0
    ensures WriteOffAmount(a, amount) == WrittenOffNow(a, amount)
  {
  }

  lemma WriteOffPosts(books: Books, m: Movement, i: nat)
    requires WriteOff(books, m).1 == Applied
    requires FindAllocation(books.allocations, m.tenantId, m.loanId) == Some(i)
    ensures Posts(books.entries, WriteOff(books, m).0.entries, m, WRITE_OFF, "capital:writeoff:", CAPITAL_POOL_LOSSES,
                  CAPITAL_POOL_DEPLOYED, WrittenOffNow(books.allocations[i], m.amount))
  {
    WriteOffTakes(books.allocations[i], m.amount);
  }

  lemma WriteOffRow(books: Books, m: Movement) returns (i: nat)
    requires WriteOff(books, m).1 == Applied
    ensures FindAllocation(books.allocations, m.tenantId, m.loanId) == Some(i)
    ensures var after, a := WriteOff(books, m).0, books.allocations[i];
      RowChanges(books.allocations, after.allocations, m, i, a.(
        writtenOff := a.writtenOff + ToMinor(WrittenOffNow(a, m.amount)), status := WRITTEN_OFF))
  {
    i := FindAllocation(books.allocations, m.tenantId, m.loanId).value;
    var a := books.allocations[i];
    WriteOffTakes(a, m.amount);
    ColumnAddsKobo(a.writtenOff, WrittenOffNow(a, m.amount));
  }

  /** A write-off marks the row, whatever is still outstanding then. */
  lemma WriteOffLeaves(books: Books, m: Movement) returns (i: nat)
    requires WriteOff(books, m).1 == Applied
    ensures i < |books.allocations|
    ensures var after, a := WriteOff(books, m).0, books.allocations[i];
      var kobo := ToMinor(WrittenOffNow(a, m.amount));
      && RowChanges(books.allocations, after.allocations, m, i, a.(
           writtenOff := a.writtenOff + kobo, status := WRITTEN_OFF))
      && AddsCapitalEntry(books.entries, after.entries, m, WRITE_OFF, "capital:writeoff:", CAPITAL_POOL_LOSSES,
                          CAPITAL_POOL_DEPLOYED, kobo)
  {
    i := WriteOffRow(books, m);
    WriteOffPosts(books, m, i);
    PostsAdd(books.entries, WriteOff(books, m).0.entries, m, WRITE_OFF, "capital:writeoff:", CAPITAL_POOL_LOSSES,
      CAPITAL_POOL_DEPLOYED, WrittenOffNow(books.allocations[i], m.amount));
  }

  /** Some allocation is the tenant's for the loan. */
  predicate HasAllocation(allocations: seq<Allocation>, m: Movement)
  {
    exists i :: 0 <= i < |allocations| && allocations[i].tenantId == m.tenantId && allocations[i].loanId == m.loanId
  }

  /**
   A movement that does not go through changes neither table. A repayment is skipped if it is of nothing or
   there is no allocation; a write-off also if nothing is outstanding.
   */
  lemma MovementsThatDoNothing(
    books: Books, pools: seq<Pool>, guard: (string, real) -> bool, m: Movement, allocationId: string)
    ensures Deploy(books, pools, guard, m, allocationId).1 == Failed ==>
      Deploy(books, pools, guard, m, allocationId).0 == books
    ensures Repay(books, m).1 != Applied ==> Repay(books, m).0 == books
    ensures Repay(books, m).1 == Skipped <==> m.amount <= 0.0 || !HasAllocation(books.allocations, m)
    ensures WriteOff(books, m).1 != Applied ==> WriteOff(books, m).0 == books
    ensures TableOk(books.allocations) ==>
      (WriteOff(books, m).1 == Skipped
       <==> m.amount <= 0.0
            || forall a :: a in books.allocations && a.tenantId == m.tenantId && a.loanId == m.loanId ==>
                 a.deployed - a.released - a.writtenOff <= 0)
  {
    var found := FindAllocation(books.allocations, m.tenantId, m.loanId);
    if found.Some? {
      assert books.allocations[found.value] in books.allocations;
    }
  }

  /** Movements of different kinds never meet under one ledger key, whatever their idempotency keys. */
  lemma CapitalKeysDiffer(a: Movement, b: Movement)
    ensures DeployKey(a) != RepaymentKey(b) && DeployKey(a) != WriteOffKey(b) && RepaymentKey(a) != WriteOffKey(b)
  {
    assert DeployKey(a)[8] == 'd' && RepaymentKey(a)[8] == RepaymentKey(b)[8] == 'r' && WriteOffKey(b)[8] == 'w';
  }

  // --- the other two figures of the summaries

  function SummaryRepaid(allocations: seq<Allocation>): Pool -> real
  {
    (pool: Pool) => GetPoolSummary(allocations, pool).repaid
  }

  function SummaryLosses(allocations: seq<Allocation>): Pool -> real
  {
    (pool: Pool) => GetPoolSummary(allocations, pool).losses
  }

  function ReleasedBy(allocations: seq<Allocation>): Pool -> int
  {
    (pool: Pool) => SumInt(ReleasedIn(pool), allocations)
  }

  function WrittenOffBy(allocations: seq<Allocation>): Pool -> int
  {
    (pool: Pool) => SumInt(WrittenOffIn(pool), allocations)
  }

  lemma {:induction false} OneMoreRow(pools: seq<Pool>, allocations: seq<Allocation>, a: Allocation)
    requires forall i, j :: 0 <= i < j < |pools| ==> pools[i].id != pools[j].id
    ensures var counted := exists p :: p in pools && InPool(a, p);
      && SumInt(ReleasedBy(allocations + [a]), pools)
           == SumInt(ReleasedBy(allocations), pools) + (if counted then a.released else 0)
      && SumInt(WrittenOffBy(allocations + [a]), pools)
           == SumInt(WrittenOffBy(allocations), pools) + (if counted then a.writtenOff else 0)
  {
    if |pools| > 0 {
      var n := |pools| - 1;
      var p := pools[n];
      OneMoreRow(pools[..n], allocations, a);
      SumIntSnoc(ReleasedIn(p), allocations, a);
      SumIntSnoc(WrittenOffIn(p), allocations, a);
      assert forall q :: q in pools <==> q in pools[..n] || q == p;
    }
  }

  lemma {:induction false} NothingYet(pools: seq<Pool>)
    ensures SumInt(ReleasedBy([]), pools) == 0 && SumInt(WrittenOffBy([]), pools) == 0
  {
    if |pools| > 0 {
      NothingYet(pools[..|pools| - 1]);
    }
  }

  /** An allocation is in one of the tenant's pools exactly if it is the tenant's. */
  lemma CountedIfMine(pools: seq<Pool>, tenantId: string, allocations: seq<Allocation>, a: Allocation)
    requires CoversTenant(pools, tenantId, allocations) && a in allocations
    ensures (exists p :: p in pools && InPool(a, p)) <==> a.tenantId == tenantId
  {
    if a.tenantId == tenantId {
      var i :| 0 <= i < |pools| && pools[i].id == a.poolId;
      assert pools[i] in pools && InPool(a, pools[i]);
    }
  }

  lemma CoversFewer(pools: seq<Pool>, tenantId: string, allocations: seq<Allocation>)
    requires |allocations| > 0 && CoversTenant(pools, tenantId, allocations)
    ensures CoversTenant(pools, tenantId, allocations[..|allocations| - 1])
  {
  }

  lemma {:induction false} PoolRowsMakeTenant(pools: seq<Pool>, tenantId: string, allocations: seq<Allocation>)
    requires CoversTenant(pools, tenantId, allocations)
    ensures SumInt(ReleasedBy(allocations), pools) == SumInt(ReleasedOf(tenantId), allocations)
    ensures SumInt(WrittenOffBy(allocations), pools) == SumInt(WrittenOffOf(tenantId), allocations)
  {
    if |allocations| == 0 {
      NothingYet(pools);
    } else {
      var init, a := allocations[..|allocations| - 1], allocations[|allocations| - 1];
      CoversFewer(pools, tenantId, allocations);
      CountedIfMine(pools, tenantId, allocations, a);
      PoolRowsMakeTenant(pools, tenantId, init);
      OneMoreRow(pools, init, a);
      assert allocations == init + [a];
    }
  }

  lemma {:induction false} InNaira(pools: seq<Pool>, allocations: seq<Allocation>)
    ensures SumReal(SummaryRepaid(allocations), pools) * 100.0 == SumInt(ReleasedBy(allocations), pools) as real
    ensures SumReal(SummaryLosses(allocations), pools) * 100.0 == SumInt(WrittenOffBy(allocations), pools) as real
  {
    if |pools| > 0 {
      InNaira(pools[..|pools| - 1], allocations);
    }
  }

  /** Repaid and lost, unlike deployed, are not clamped: they always add up to the ledger's two accounts. */
  lemma RepaidAndLossesAddUpToLedger(calls: seq<Call>, tenantId: string, pools: seq<Pool>)
    requires DisciplinedRun(calls) && CoversTenant(pools, tenantId, Run(calls).allocations)
    ensures var books := Run(calls);
      && SumReal(SummaryRepaid(books.allocations), pools) * 100.0
           == Balance(tenantId, CAPITAL_POOL_REPAID, books.entries) as real
      && SumReal(SummaryLosses(books.allocations), pools) * 100.0
           == Balance(tenantId, CAPITAL_POOL_LOSSES, books.entries) as real
  {
    LedgerAgreesWithAllocations(calls, tenantId);
    PoolRowsMakeTenant(pools, tenantId, Run(calls).allocations);
    InNaira(pools, Run(calls).allocations);
  }
}
