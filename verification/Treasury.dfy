/**
 TreasuryService: capital deployed to loans, repaid and written off. A movement updates a row and posts an entry in
 one transaction. Allocation amounts are NUMERIC(18,2), here in kobo.
 */
module Treasury {
  import opened Wrappers
  import opened Reals
  import opened Sums
  import opened LedgerModel
  import opened TenantLedger

  datatype AllocationStatus = RESERVED | DEPLOYED | RELEASED | WRITTEN_OFF

  datatype Allocation = Allocation(
    id: string, tenantId: string, poolId: string, loanId: string, status: AllocationStatus,
    reserved: int, deployed: int, released: int, writtenOff: int)

  function OutstandingKobo(a: Allocation): int { a.deployed - a.released - a.writtenOff }

  datatype Pool = Pool(id: string, tenantId: string, active: bool, createdAt: int, initialCapital: Option<real>,
    maxDeployedAmount: Option<real>)

  /** The two tables a movement touches. */
  datatype Books = Books(entries: seq<Entry>, allocations: seq<Allocation>)

  datatype Outcome = Allocated(allocationId: string, poolId: string) | Applied | Skipped | Failed

  datatype Movement = Movement(
    tenantId: string, loanId: string, amount: real, currency: string, idempotencyKey: string, actorRole: Option<Role>,
    now: int, entryId: string)

  function Naira(kobo: int): real { kobo as real / 100.0 }

  // --- the allocation table

  function FindAllocation(allocations: seq<Allocation>, tenantId: string, loanId: string): (found: Option<nat>)
    ensures found.Some? ==> found.value < |allocations|
    ensures found.Some? ==> allocations[found.value].tenantId == tenantId && allocations[found.value].loanId == loanId
    ensures found.None? ==> forall a :: a in allocations ==> !(a.tenantId == tenantId && a.loanId == loanId)
  {
    if |allocations| == 0 then None
    else
      var last := |allocations| - 1;
      var earlier := FindAllocation(allocations[..last], tenantId, loanId);
      if earlier.Some? then earlier
      else if allocations[last].tenantId == tenantId && allocations[last].loanId == loanId then Some(last)
      else None
  }

  /** An allocation id and a loan id are each unique in the table, whatever the tenant. */
  predicate CanInsert(allocations: seq<Allocation>, id: string, loanId: string)
  {
    forall a :: a in allocations ==> a.id != id && a.loanId != loanId
  }

  // --- pool selection

  predicate InPool(a: Allocation, pool: Pool)
  {
    a.tenantId == pool.tenantId && a.poolId == pool.id
  }

  function DeployedIn(pool: Pool): Allocation -> int
  {
    (a: Allocation) => if InPool(a, pool) then a.deployed else 0
  }

  function ReleasedIn(pool: Pool): Allocation -> int
  {
    (a: Allocation) => if InPool(a, pool) then a.released else 0
  }

  function WrittenOffIn(pool: Pool): Allocation -> int
  {
    (a: Allocation) => if InPool(a, pool) then a.writtenOff else 0
  }

  datatype PoolSummary = PoolSummary(available: real, deployed: real, repaid: real, losses: real)

  function InitialCapital(pool: Pool): real
  {
    if pool.initialCapital.Some? then pool.initialCapital.value
    else if pool.maxDeployedAmount.Some? then pool.maxDeployedAmount.value
    else 0.0
  }

  function AvailableFromRules(initialCapital: real, deployedOutstanding: real, losses: real): real
  {
    if initialCapital <= 0.0 then 0.0 else Max(0.0, initialCapital - deployedOutstanding - losses)
  }

  function GetPoolSummary(allocations: seq<Allocation>, pool: Pool): PoolSummary
  {
    var repaid := Naira(SumInt(ReleasedIn(pool), allocations));
    var losses := Naira(SumInt(WrittenOffIn(pool), allocations));
    var outstanding := Max(0.0, Naira(SumInt(DeployedIn(pool), allocations)) - repaid - losses);
    PoolSummary(AvailableFromRules(InitialCapital(pool), outstanding, losses), outstanding, repaid, losses)
  }

  /** The order the candidates are sorted in: most available first, then oldest. */
  predicate Precedes(allocations: seq<Allocation>, a: Pool, b: Pool)
  {
    var x, y := GetPoolSummary(allocations, a).available, GetPoolSummary(allocations, b).available;
    x > y || (x == y && a.createdAt < b.createdAt)
  }

  predicate IsCandidate(pool: Pool, tenantId: string)
  {
    pool.tenantId == tenantId && pool.active
  }

  /** The tenant's active pools, in the order they are read. */
  function Candidates(pools: seq<Pool>, tenantId: string): (candidates: seq<Pool>)
    ensures forall p :: p in candidates <==> p in pools && IsCandidate(p, tenantId)
  {
    if |pools| == 0 then []
    else
      var last := pools[|pools| - 1];
      Candidates(pools[..|pools| - 1], tenantId) + if IsCandidate(last, tenantId) then [last] else []
  }

  /** Behind everything it does not precede. */
  function InsertSorted(allocations: seq<Allocation>, pool: Pool, sorted: seq<Pool>): (result: seq<Pool>)
    ensures multiset(result) == multiset(sorted) + multiset{pool}
  {
    if |sorted| == 0 then [pool]
    else if Precedes(allocations, pool, sorted[0]) then [pool] + sorted
    else
      assert sorted == [sorted[0]] + sorted[1..];
      [sorted[0]] + InsertSorted(allocations, pool, sorted[1..])
  }

  /** Array.prototype.sort: stable, by Precedes. */
  function SortByAvailable(allocations: seq<Allocation>, pools: seq<Pool>): (sorted: seq<Pool>)
    ensures multiset(sorted) == multiset(pools)
  {
    if |pools| == 0 then []
    else
      var n := |pools| - 1;
      assert pools == pools[..n] + [pools[n]];
      InsertSorted(allocations, pools[n], SortByAvailable(allocations, pools[..n]))
  }

  /** The first pool that no other precedes. */
  predicate IsFirst(allocations: seq<Allocation>, pools: seq<Pool>, i: nat)
    requires i < |pools|
  {
    && (forall j :: 0 <= j < i ==> Precedes(allocations, pools[i], pools[j]))
    && (forall j :: i < j < |pools| ==> !Precedes(allocations, pools[j], pools[i]))
  }

  /** The exposure guard may throw; a pool whose guard throws ends the whole resolution. */
  datatype Resolution = Funded(pool: Pool) | NoActivePool | GuardThrew(pool: Pool) | NoPoolPassed

  /** What the loop over the sorted candidates comes to. */
  function ResolveFundingPool(
    allocations: seq<Allocation>, pools: seq<Pool>, guard: (string, real) -> bool, tenantId: string, amount: real)
    : Resolution
  {
    var sorted := SortByAvailable(allocations, Candidates(pools, tenantId));
    if |sorted| == 0 then NoActivePool
    else if guard(sorted[0].id, amount) then Funded(sorted[0])
    else GuardThrew(sorted[0])
  }

  // --- movements

  function CapitalEntry(
    m: Movement, entryType: EntryType, key: string, debitCode: AccountCode, creditCode: AccountCode, amount: real)
    : EntryInput
  {
    EntryInput(m.tenantId, m.now, entryType, key, "LoanApplication", m.loanId, Some(m.currency), m.actorRole,
               [LineInput(debitCode, DEBIT, amount), LineInput(creditCode, CREDIT, amount)])
  }

  function DeployKey(m: Movement): string { "capital:deploy:" + m.idempotencyKey }

  function RepaymentKey(m: Movement): string { "capital:repayment:" + m.idempotencyKey }

  function WriteOffKey(m: Movement): string { "capital:writeoff:" + m.idempotencyKey }

  function DeployEntry(m: Movement): EntryInput
  {
    CapitalEntry(m, ADJUSTMENT, DeployKey(m), CAPITAL_POOL_DEPLOYED, CAPITAL_POOL_AVAILABLE, m.amount)
  }

  function RepaymentEntry(m: Movement): EntryInput
  {
    CapitalEntry(m, ADJUSTMENT, RepaymentKey(m), CAPITAL_POOL_REPAID, CAPITAL_POOL_DEPLOYED, m.amount)
  }

  function WriteOffEntry(m: Movement, amount: real): EntryInput
  {
    CapitalEntry(m, WRITE_OFF, WriteOffKey(m), CAPITAL_POOL_LOSSES, CAPITAL_POOL_DEPLOYED, amount)
  }

  function NewAllocation(m: Movement, allocationId: string, poolId: string): Allocation
  {
    Allocation(allocationId, m.tenantId, poolId, m.loanId, DEPLOYED, ToMinor(m.amount), ToMinor(m.amount), 0, 0)
  }

  function Deploy(books: Books, pools: seq<Pool>, guard: (string, real) -> bool, m: Movement, allocationId: string)
    : (Books, Outcome)
  {
    var found := FindAllocation(books.allocations, m.tenantId, m.loanId);
    if found.Some? then
      (books, Allocated(books.allocations[found.value].id, books.allocations[found.value].poolId))
    else
      var pool := ResolveFundingPool(books.allocations, pools, guard, m.tenantId, m.amount);
      if !pool.Funded? || !CanInsert(books.allocations, allocationId, m.loanId) then (books, Failed)
      else
        var (entries, posted) := Post(books.entries, DeployEntry(m), m.entryId);
        if posted.Rejected? then (books, Failed)
        else (Books(entries, books.allocations + [NewAllocation(m, allocationId, pool.pool.id)]),
              Allocated(allocationId, pool.pool.id))
  }

  /** Status is decided on the exact difference; the column then keeps the released amount in kobo. */
  function AfterRepayment(a: Allocation, principal: real): Allocation
  {
    var nextReleased := Naira(a.released) + principal;
    var outstanding := Naira(a.deployed) - nextReleased - Naira(a.writtenOff);
    a.(released := ToMinor(nextReleased), status := if outstanding <= 0.0 then RELEASED else DEPLOYED)
  }

  function Repay(books: Books, m: Movement): (Books, Outcome)
  {
    if m.amount <= 0.0 then (books, Skipped)
    else
      var found := FindAllocation(books.allocations, m.tenantId, m.loanId);
      if found.None? then (books, Skipped)
      else
        var (entries, posted) := Post(books.entries, RepaymentEntry(m), m.entryId);
        if posted.Rejected? then (books, Failed)
        else
          var next := AfterRepayment(books.allocations[found.value], m.amount);
          (Books(entries, books.allocations[found.value := next]), Applied)
  }

  function WriteOffAmount(a: Allocation, amount: real): real
  {
    Min(Max(0.0, Naira(a.deployed) - Naira(a.released) - Naira(a.writtenOff)), amount)
  }

  function AfterWriteOff(a: Allocation, amount: real): Allocation
  {
    a.(writtenOff := ToMinor(Naira(a.writtenOff) + WriteOffAmount(a, amount)), status := WRITTEN_OFF)
  }

  function WriteOff(books: Books, m: Movement): (Books, Outcome)
  {
    if m.amount <= 0.0 then (books, Skipped)
    else
      var found := FindAllocation(books.allocations, m.tenantId, m.loanId);
      if found.None? then (books, Skipped)
      else
        var a := books.allocations[found.value];
        if Naira(a.deployed) - Naira(a.released) - Naira(a.writtenOff) <= 0.0 then (books, Skipped)
        else
          var (entries, posted) := Post(books.entries, WriteOffEntry(m, WriteOffAmount(a, m.amount)), m.entryId);
          if posted.Rejected? then (books, Failed)
          else (Books(entries, books.allocations[found.value := AfterWriteOff(a, m.amount)]), Applied)
  }

  class TreasuryService {
    const ledger: TenantLedgerService
    var allocations: seq<Allocation>

    constructor (ledger: TenantLedgerService)
      ensures this.ledger == ledger && allocations == []
    {
      this.ledger := ledger;
      allocations := [];
    }

    function View(): Books
      reads this, ledger
    {
      Books(ledger.entries, allocations)
    }

    /** Sorts the candidates and loops over them; the loop body always leaves the loop. */
    method ResolveFundingPoolForLoan(pools: seq<Pool>, guard: (string, real) -> bool, tenantId: string, amount: real)
      returns (resolution: Resolution)
      ensures resolution == ResolveFundingPool(allocations, pools, guard, tenantId, amount)
    {
      var active := Candidates(pools, tenantId);
      var sorted := SortByAvailable(allocations, active);
      if |active| == 0 {
        return NoActivePool;
      }
      assert |multiset(sorted)| == |multiset(active)|;
      for i := 0 to |sorted|
        invariant i == 0
      {
        if !guard(sorted[i].id, amount) {
          return GuardThrew(sorted[i]);
        }
        return Funded(sorted[i]);
      }
      return NoPoolPassed;
    }

    method DeployToLoan(pools: seq<Pool>, guard: (string, real) -> bool, m: Movement, allocationId: string)
      returns (outcome: Outcome)
      modifies this`allocations, ledger
      ensures (View(), outcome) == Deploy(old(View()), pools, guard, m, allocationId)
    {
      var existing := FindAllocation(allocations, m.tenantId, m.loanId);
      if existing.Some? {
        return Allocated(allocations[existing.value].id, allocations[existing.value].poolId);
      }
      var pool := ResolveFundingPoolForLoan(pools, guard, m.tenantId, m.amount);
      if !pool.Funded? {
        return Failed;
      }
      if !CanInsert(allocations, allocationId, m.loanId) {
        return Failed;
      }
      var before := allocations;
      allocations := allocations + [NewAllocation(m, allocationId, pool.pool.id)];
      var posted := ledger.PostEntry(DeployEntry(m), m.entryId);
      if posted.Rejected? {
        allocations := before;
        return Failed;
      }
      return Allocated(allocationId, pool.pool.id);
    }

    method ApplyPrincipalRepayment(m: Movement) returns (outcome: Outcome)
      modifies this`allocations, ledger
      ensures (View(), outcome) == Repay(old(View()), m)
    {
      if m.amount <= 0.0 {
        return Skipped;
      }
      var found := FindAllocation(allocations, m.tenantId, m.loanId);
      if found.None? {
        return Skipped;
      }
      var before := allocations;
      var a := allocations[found.value];
      var nextReleased := Naira(a.released) + m.amount;
      var outstanding := Naira(a.deployed) - nextReleased - Naira(a.writtenOff);
      allocations := allocations[found.value :=
        a.(released := ToMinor(nextReleased), status := if outstanding <= 0.0 then RELEASED else DEPLOYED)];
      var posted := ledger.PostEntry(RepaymentEntry(m), m.entryId);
      if posted.Rejected? {
        allocations := before;
        return Failed;
      }
      return Applied;
    }

    method ApplyWriteOff(m: Movement) returns (outcome: Outcome)
      modifies this`allocations, ledger
      ensures (View(), outcome) == WriteOff(old(View()), m)
    {
      if m.amount <= 0.0 {
        return Skipped;
      }
      var found := FindAllocation(allocations, m.tenantId, m.loanId);
      if found.None? {
        return Skipped;
      }
      var before := allocations;
      var a := allocations[found.value];
      var outstanding := Max(0.0, Naira(a.deployed) - Naira(a.released) - Naira(a.writtenOff));
      if outstanding <= 0.0 {
        return Skipped;
      }
      var writeOffAmount := Min(outstanding, m.amount);
      var nextWrittenOff := Naira(a.writtenOff) + writeOffAmount;
      allocations := allocations[found.value := a.(writtenOff := ToMinor(nextWrittenOff), status := WRITTEN_OFF)];
      var posted := ledger.PostEntry(WriteOffEntry(m, writeOffAmount), m.entryId);
      if posted.Rejected? {
        allocations := before;
        return Failed;
      }
      return Applied;
    }
  }
}
