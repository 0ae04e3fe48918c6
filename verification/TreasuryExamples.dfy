/**
 Runs at which the treasury's bookkeeping goes wrong, one for each condition that is proved of it.

   - A key used twice: the allocation moves and the ledger does not.
   - A capital entry reversed: the ledger moves and the allocation does not.
   - A pool repaid more than it had deployed.
   - Fractions of a kobo that leave an empty row deployed.
   - A pool that would pass the guard and is not tried.
 */
module TreasuryExamples {
  import opened Wrappers
  import opened Sums
  import opened Text
  import opened LedgerModel
  import opened TenantLedger
  import opened LedgerProperties
  import opened LedgerReversals
  import opened Treasury
  import opened TreasuryProperties

  /** A movement without a role and with a positive amount always passes the posting checks. */
  lemma CapitalEntryIsValid(
    m: Movement, entryType: EntryType, key: string, debitCode: AccountCode, creditCode: AccountCode, amount: real)
    requires m.actorRole.None? && amount > 0.0
    requires |key| > 0 && !IsWhiteSpace(key[0])
    ensures ValidPost(CapitalEntry(m, entryType, key, debitCode, creditCode, amount))
  {
    var lines := CapitalEntry(m, entryType, key, debitCode, creditCode, amount).lines;
    assert !IsBlank(key);
    SumRealPrefix(DebitAmount, lines, 0);
    SumRealPrefix(DebitAmount, lines, 1);
    SumRealPrefix(CreditAmount, lines, 0);
    SumRealPrefix(CreditAmount, lines, 1);
    assert lines[..2] == lines;
  }

  lemma KeysAreNotBlank(m: Movement)
    ensures |DeployKey(m)| > 0 && !IsWhiteSpace(DeployKey(m)[0])
    ensures |RepaymentKey(m)| > 0 && !IsWhiteSpace(RepaymentKey(m)[0])
    ensures |WriteOffKey(m)| > 0 && !IsWhiteSpace(WriteOffKey(m)[0])
  {
    assert DeployKey(m)[0] == RepaymentKey(m)[0] == WriteOffKey(m)[0] == 'c';
  }

  /** The pool is the only one, and the guard lets the movement through. */
  predicate Funds(pool: Pool, guard: (string, real) -> bool, m: Movement)
  {
    pool.tenantId == m.tenantId && pool.active && guard(pool.id, m.amount)
  }

  lemma OnlyPoolFunds(allocations: seq<Allocation>, pool: Pool, guard: (string, real) -> bool, m: Movement)
    requires Funds(pool, guard, m)
    ensures ResolveFundingPool(allocations, [pool], guard, m.tenantId, m.amount) == Funded(pool)
  {
    assert [pool][..0] == [];
    assert Candidates([pool], m.tenantId) == [pool];
    var i := OnlyHeadCandidateIsTried(allocations, [pool], guard, m.tenantId, m.amount);
  }

  /** Deploying to a new loan goes through whenever the ledger takes or already has the entry. */
  lemma DeployGoes(books: Books, pool: Pool, guard: (string, real) -> bool, m: Movement, allocationId: string)
    requires m.actorRole.None? && m.amount > 0.0 && Funds(pool, guard, m)
    requires CanInsert(books.allocations, allocationId, m.loanId)
    requires FindKey(books.entries, m.tenantId, DeployKey(m)).Some? || !IdTaken(books.entries, m.entryId)
    ensures var after := Deploy(books, [pool], guard, m, allocationId).0;
      && after.allocations == books.allocations + [NewAllocation(m, allocationId, pool.id)]
      && (FindKey(books.entries, m.tenantId, DeployKey(m)).None? ==>
            after.entries == books.entries + [NewEntry(DeployEntry(m), m.entryId)])
  {
    KeysAreNotBlank(m);
    CapitalEntryIsValid(m, ADJUSTMENT, DeployKey(m), CAPITAL_POOL_DEPLOYED, CAPITAL_POOL_AVAILABLE, m.amount);
    OnlyPoolFunds(books.allocations, pool, guard, m);
    assert FindAllocation(books.allocations, m.tenantId, m.loanId).None?;
  }

  lemma RepayGoes(books: Books, m: Movement)
    requires m.actorRole.None? && m.amount > 0.0
    requires FindAllocation(books.allocations, m.tenantId, m.loanId).Some?
    requires FindKey(books.entries, m.tenantId, RepaymentKey(m)).Some? || !IdTaken(books.entries, m.entryId)
    ensures var (after, outcome) := Repay(books, m);
      var i := FindAllocation(books.allocations, m.tenantId, m.loanId).value;
      && outcome == Applied
      && after.allocations == books.allocations[i := AfterRepayment(books.allocations[i], m.amount)]
      && FindKey(after.entries, m.tenantId, RepaymentKey(m)).Some?
  {
    KeysAreNotBlank(m);
    CapitalEntryIsValid(m, ADJUSTMENT, RepaymentKey(m), CAPITAL_POOL_REPAID, CAPITAL_POOL_DEPLOYED, m.amount);
    KeyIsThere(books.entries, NewEntry(RepaymentEntry(m), m.entryId));
  }

  lemma WriteOffGoes(books: Books, m: Movement)
    requires m.actorRole.None? && m.amount > 0.0
    requires var found := FindAllocation(books.allocations, m.tenantId, m.loanId);
      found.Some? && OutstandingKobo(books.allocations[found.value]) > 0
    requires FindKey(books.entries, m.tenantId, WriteOffKey(m)).Some? || !IdTaken(books.entries, m.entryId)
    ensures var (after, outcome) := WriteOff(books, m);
      var i := FindAllocation(books.allocations, m.tenantId, m.loanId).value;
      && outcome == Applied
      && after.allocations == books.allocations[i := AfterWriteOff(books.allocations[i], m.amount)]
      && FindKey(after.entries, m.tenantId, WriteOffKey(m)).Some?
  {
    var a := books.allocations[FindAllocation(books.allocations, m.tenantId, m.loanId).value];
    KeysAreNotBlank(m);
    WriteOffWithinOutstanding(a, m.amount);
    CapitalEntryIsValid(
      m, WRITE_OFF, WriteOffKey(m), CAPITAL_POOL_LOSSES, CAPITAL_POOL_DEPLOYED, WriteOffAmount(a, m.amount));
    KeyIsThere(books.entries, NewEntry(WriteOffEntry(m, WriteOffAmount(a, m.amount)), m.entryId));
  }

  lemma KeyIsThere(entries: seq<Entry>, e: Entry)
    ensures FindKey(entries + [e], e.tenantId, e.idempotencyKey).Some?
  {
    assert e in entries + [e];
  }

  lemma OneAllocationFound(a: Allocation)
    ensures FindAllocation([a], a.tenantId, a.loanId) == Some(0)
  {
  }

  // --- one deployed loan

  /** The books after one deployment to an empty table. */
  function FirstBooks(pool: Pool, m: Movement, id: string): Books
  {
    Books([NewEntry(DeployEntry(m), m.entryId)], [NewAllocation(m, id, pool.id)])
  }

  lemma FirstDeployment(pool: Pool, guard: (string, real) -> bool, m: Movement, id: string)
    requires m.actorRole.None? && m.amount > 0.0 && Funds(pool, guard, m)
    ensures Deploy(Books([], []), [pool], guard, m, id).0 == FirstBooks(pool, m, id)
    ensures Agrees(FirstBooks(pool, m, id), m.tenantId)
  {
    DeployGoes(Books([], []), pool, guard, m, id);
    DeployMoves(Books([], []), [pool], guard, m, id, m.tenantId);
  }

  /** Books with one allocation that agree with the ledger, and a movement on it that is new to the ledger. */
  ghost predicate IsNew(books: Books, m: Movement, key: string)
  {
    && m.actorRole.None? && m.amount > 0.0
    && Agrees(books, m.tenantId)
    && |books.allocations| == 1 && FindAllocation(books.allocations, m.tenantId, m.loanId) == Some(0)
    && FindKey(books.entries, m.tenantId, key).None? && !IdTaken(books.entries, m.entryId)
  }

  /** Such are the books after one deployment, for another kind of movement on the same loan. */
  lemma SecondIsNew(
    pool: Pool, guard: (string, real) -> bool, first: Movement, id: string, second: Movement, key: string)
    requires first.actorRole.None? && first.amount > 0.0 && Funds(pool, guard, first)
    requires second.actorRole.None? && second.amount > 0.0
    requires second.tenantId == first.tenantId && second.loanId == first.loanId && second.entryId != first.entryId
    requires |key| > 8 && key[8] != 'd'
    ensures IsNew(FirstBooks(pool, first, id), second, key)
  {
    FirstDeployment(pool, guard, first, id);
    OneAllocationFound(NewAllocation(first, id, pool.id));
    DeployKeyIsOther(first, key);
    OneEntry(NewEntry(DeployEntry(first), first.entryId), second.tenantId, key, second.entryId);
  }

  lemma DeployKeyIsOther(m: Movement, key: string)
    requires |key| > 8 && key[8] != 'd'
    ensures DeployKey(m) != key
  {
    assert DeployKey(m)[8] == 'd';
  }

  lemma OneEntry(e: Entry, tenantId: string, key: string, id: string)
    requires e.idempotencyKey != key && e.id != id
    ensures FindKey([e], tenantId, key).None? && !IdTaken([e], id)
  {
  }

  // --- reused keys

  /** Deploying to a second loan under the first loan's key: two allocations, one ledger entry. */
  lemma ReusedDeployKeyBreaksAgreement(
    pool: Pool, guard: (string, real) -> bool, first: Movement, firstId: string, second: Movement, secondId: string)
    requires first.actorRole.None? && first.amount > 0.0 && Funds(pool, guard, first)
    requires second.actorRole.None? && second.amount >= 0.01 && Funds(pool, guard, second)
    requires second.idempotencyKey == first.idempotencyKey && second.loanId != first.loanId && secondId != firstId
    ensures var books := FirstBooks(pool, first, firstId);
      Agrees(books, first.tenantId) && !Agrees(Deploy(books, [pool], guard, second, secondId).0, first.tenantId)
  {
    var books := FirstBooks(pool, first, firstId);
    FirstDeployment(pool, guard, first, firstId);
    KeyIsThere([], NewEntry(DeployEntry(first), first.entryId));
    assert books.entries == [] + [NewEntry(DeployEntry(first), first.entryId)];
    DeployGoes(books, pool, guard, second, secondId);
    DeployMoves(books, [pool], guard, second, secondId, first.tenantId);
  }

  /** Books that agree stop agreeing when the repayment's key is in use. */
  lemma RepayAgain(books: Books, m: Movement)
    requires Agrees(books, m.tenantId) && m.actorRole.None? && m.amount >= 0.01
    requires FindAllocation(books.allocations, m.tenantId, m.loanId).Some?
    requires FindKey(books.entries, m.tenantId, RepaymentKey(m)).Some?
    ensures !Agrees(Repay(books, m).0, m.tenantId)
  {
    RepayGoes(books, m);
    RepayMoves(books, m, m.tenantId);
  }

  lemma RepayOnce(books: Books, m: Movement)
    requires IsNew(books, m, RepaymentKey(m))
    ensures Agrees(Repay(books, m).0, m.tenantId)
    ensures FindKey(Repay(books, m).0.entries, m.tenantId, RepaymentKey(m)).Some?
    ensures Repay(books, m).0.allocations == [AfterRepayment(books.allocations[0], m.amount)]
  {
    RepayGoes(books, m);
    RepayMoves(books, m, m.tenantId);
  }

  /** The same repayment twice: it comes off the allocation twice and is in the ledger once. */
  lemma ReusedRepaymentKeyBreaksAgreement(books: Books, repayment: Movement)
    requires IsNew(books, repayment, RepaymentKey(repayment)) && repayment.amount >= 0.01
    ensures var once := Repay(books, repayment).0;
      Agrees(once, repayment.tenantId) && !Agrees(Repay(once, repayment).0, repayment.tenantId)
  {
    RepayOnce(books, repayment);
    OneAllocationFound(AfterRepayment(books.allocations[0], repayment.amount));
    RepayAgain(Repay(books, repayment).0, repayment);
  }

  lemma WriteOffAgain(books: Books, m: Movement)
    requires Agrees(books, m.tenantId) && m.actorRole.None? && m.amount >= 0.01
    requires var found := FindAllocation(books.allocations, m.tenantId, m.loanId);
      found.Some? && OutstandingKobo(books.allocations[found.value]) > 0
      && ToMinor(WriteOffAmount(books.allocations[found.value], m.amount)) > 0
    requires FindKey(books.entries, m.tenantId, WriteOffKey(m)).Some?
    ensures !Agrees(WriteOff(books, m).0, m.tenantId)
  {
    WriteOffGoes(books, m);
    WriteOffMoves(books, m, m.tenantId);
  }

  lemma WriteOffOnce(books: Books, m: Movement)
    requires IsNew(books, m, WriteOffKey(m)) && m.amount >= 0.01
    requires var a := books.allocations[0];
      a.released == 0 && a.writtenOff == 0 && ToMinor(m.amount) < a.deployed
    ensures var after := WriteOff(books, m).0;
      && Agrees(after, m.tenantId) && FindKey(after.entries, m.tenantId, WriteOffKey(m)).Some?
      && |after.allocations| == 1 && FindAllocation(after.allocations, m.tenantId, m.loanId) == Some(0)
      && OutstandingKobo(after.allocations[0]) > 0 && ToMinor(WriteOffAmount(after.allocations[0], m.amount)) > 0
  {
    WriteOffGoes(books, m);
    WriteOffMoves(books, m, m.tenantId);
    SomethingLeft(books.allocations[0], m.amount);
    OneAllocationFound(AfterWriteOff(books.allocations[0], m.amount));
  }

  /** The same write-off twice: it comes off the allocation twice and is in the ledger once. */
  lemma ReusedWriteOffKeyBreaksAgreement(books: Books, loss: Movement)
    requires IsNew(books, loss, WriteOffKey(loss)) && loss.amount >= 0.01
    requires var a := books.allocations[0];
      a.released == 0 && a.writtenOff == 0 && ToMinor(loss.amount) < a.deployed
    ensures var once := WriteOff(books, loss).0;
      Agrees(once, loss.tenantId) && !Agrees(WriteOff(once, loss).0, loss.tenantId)
  {
    WriteOffOnce(books, loss);
    WriteOffAgain(WriteOff(books, loss).0, loss);
  }

  lemma SomethingLeft(a: Allocation, amount: real)
    requires a.released == 0 && a.writtenOff == 0 && amount >= 0.01 && ToMinor(amount) < a.deployed
    ensures var b := AfterWriteOff(a, amount);
      OutstandingKobo(b) > 0 && ToMinor(WriteOffAmount(b, amount)) > 0
  {
    ColumnAddsKobo(a.writtenOff, WriteOffAmount(a, amount));
    assert WriteOffAmount(a, amount) == amount;
  }

  // --- reversals of capital entries

  lemma CapitalEntryIsRepostable(
    m: Movement, entryType: EntryType, key: string, debitCode: AccountCode, creditCode: AccountCode, amount: real,
    id: string)
    requires amount >= 0.01
    ensures Repostable(NewEntry(CapitalEntry(m, entryType, key, debitCode, creditCode, amount), id).lines)
  {
    var lines := NewEntry(CapitalEntry(m, entryType, key, debitCode, creditCode, amount), id).lines;
    SumIntPrefix(SignedMinor, lines, 0);
    SumIntPrefix(SignedMinor, lines, 1);
    assert lines[..2] == lines;
  }

  lemma OtherBalanceDisagrees(
    before: seq<Entry>, after: seq<Entry>, allocations: seq<Allocation>, tenantId: string, code: AccountCode)
    requires Agrees(Books(before, allocations), tenantId) && IsCapital(code)
    requires Balance(tenantId, code, after) != Balance(tenantId, code, before)
    ensures !Agrees(Books(after, allocations), tenantId)
  {
  }

  lemma LedgerCallStep(books: Books, command: Command)
    ensures Step(books, LedgerCall(command)) == Books(Apply(books.entries, command), books.allocations)
  {
  }

  lemma ReversalMovesBalance(
    entries: seq<Entry>, entry: Entry, role: Option<Role>, now: int, newId: string, code: AccountCode)
    requires LedgerOk(entries) && entry in entries && RoleCanReverse(role) && Reversible(entries, entry, newId)
    requires Effect(code, entry.lines) != 0
    ensures var after := Apply(entries, ReverseCommand(entry.tenantId, entry.id, role, now, newId));
      Balance(entry.tenantId, code, after) != Balance(entry.tenantId, code, entries)
  {
    ReversalUndoesEntry(entries, entry, role, now, newId, code);
  }

  /** Books that agree stop agreeing when an entry with an effect on a capital account is reversed. */
  lemma ReversalBreaksAgreement(
    books: Books, entry: Entry, role: Option<Role>, now: int, newId: string, code: AccountCode)
    requires LedgerOk(books.entries) && entry in books.entries && Agrees(books, entry.tenantId)
    requires RoleCanReverse(role) && Reversible(books.entries, entry, newId)
    requires IsCapital(code) && Effect(code, entry.lines) != 0
    ensures !Agrees(Step(books, LedgerCall(ReverseCommand(entry.tenantId, entry.id, role, now, newId))), entry.tenantId)
  {
    var command := ReverseCommand(entry.tenantId, entry.id, role, now, newId);
    ReversalMovesBalance(books.entries, entry, role, now, newId, code);
    LedgerCallStep(books, command);
    OtherBalanceDisagrees(
      books.entries, Apply(books.entries, command), books.allocations, entry.tenantId, code);
  }

  /** Reversing the ledger entry of a deployment leaves the allocation as it is. */
  lemma ReversedDeploymentBreaksAgreement(
    pool: Pool, guard: (string, real) -> bool, m: Movement, id: string, role: Option<Role>, now: int, newId: string)
    requires m.actorRole.None? && m.amount >= 0.01 && Funds(pool, guard, m)
    requires RoleCanReverse(role) && newId != m.entryId
    ensures var books := FirstBooks(pool, m, id);
      var reversal := LedgerCall(ReverseCommand(m.tenantId, m.entryId, role, now, newId));
      Agrees(books, m.tenantId) && !Agrees(Step(books, reversal), m.tenantId)
  {
    var books := FirstBooks(pool, m, id);
    var entry := NewEntry(DeployEntry(m), m.entryId);
    FirstDeployment(pool, guard, m, id);
    KeysAreNotBlank(m);
    CapitalEntryIsValid(m, ADJUSTMENT, DeployKey(m), CAPITAL_POOL_DEPLOYED, CAPITAL_POOL_AVAILABLE, m.amount);
    NewEntryOk(DeployEntry(m), m.entryId);
    CapitalEntryIsRepostable(
      m, ADJUSTMENT, DeployKey(m), CAPITAL_POOL_DEPLOYED, CAPITAL_POOL_AVAILABLE, m.amount, m.entryId);
    CapitalEffect(
      m, ADJUSTMENT, DeployKey(m), CAPITAL_POOL_DEPLOYED, CAPITAL_POOL_AVAILABLE, m.amount, m.entryId,
      CAPITAL_POOL_DEPLOYED);
    assert DeployKey(m)[0] != ReversalKey(m.entryId)[0];
    OneEntry(entry, m.tenantId, ReversalKey(m.entryId), newId);
    ReversalBreaksAgreement(books, entry, role, now, newId, CAPITAL_POOL_DEPLOYED);
  }

  // --- an over-repaid pool

  /** More repaid than deployed: the ledger's deployed account is in debt, the summary shows nothing. */
  lemma OverRepaidPoolDoesNotAddUp(books: Books, pool: Pool, repayment: Movement)
    requires IsNew(books, repayment, RepaymentKey(repayment)) && InPool(books.allocations[0], pool)
    requires ToMinor(repayment.amount) > OutstandingKobo(books.allocations[0]) >= 0
    ensures var after := Repay(books, repayment).0;
      && Agrees(after, pool.tenantId) && CoversTenant([pool], pool.tenantId, after.allocations)
      && GetPoolSummary(after.allocations, pool).deployed == 0.0
      && Balance(pool.tenantId, CAPITAL_POOL_DEPLOYED, after.entries) < 0
  {
    var a := books.allocations[0];
    OneAllocationFound(a);
    RepayOnce(books, repayment);
    ColumnAddsKobo(a.released, repayment.amount);
    AgreementShowsDebt(Repay(books, repayment).0, pool, AfterRepayment(a, repayment.amount));
  }

  lemma AgreementShowsDebt(books: Books, pool: Pool, a: Allocation)
    requires Agrees(books, pool.tenantId) && books.allocations == [a] && InPool(a, pool) && OutstandingKobo(a) < 0
    ensures CoversTenant([pool], pool.tenantId, books.allocations)
    ensures GetPoolSummary(books.allocations, pool).deployed == 0.0
    ensures Balance(pool.tenantId, CAPITAL_POOL_DEPLOYED, books.entries) == OutstandingKobo(a)
  {
    OneAllocation(pool, a);
    assert [pool][0].id == a.poolId;
  }

  lemma OneAllocation(pool: Pool, a: Allocation)
    requires InPool(a, pool)
    ensures SumInt(OutstandingOf(pool.tenantId), [a]) == OutstandingKobo(a) == PoolOutstanding(pool, [a])
  {
    assert [a] == [] + [a];
    SumIntSnoc(OutstandingOf(pool.tenantId), [], a);
    SumIntSnoc(DeployedIn(pool), [], a);
    SumIntSnoc(ReleasedIn(pool), [], a);
    SumIntSnoc(WrittenOffIn(pool), [], a);
  }

  // --- empty DEPLOYED rows

  /** 0.996 repaid on 1.00 is not all of it, and is stored as all of it. */
  lemma FractionalRepaymentLeavesEmptyDeployed(a: Allocation)
    requires a.deployed == 100 && a.released == 0 && a.writtenOff == 0 && a.status == DEPLOYED
    ensures AfterRepayment(a, 0.996).status == DEPLOYED && OutstandingKobo(AfterRepayment(a, 0.996)) == 0
  {
    assert ToMinor(0.996) == 100;
    RepaymentLeavesEmptyDeployed(a, 0.996);
    ColumnAddsKobo(0, 0.996);
  }

  /** Deploying 0.004 stores an allocation of nothing, DEPLOYED. */
  lemma FractionalDeploymentIsEmptyDeployed(pool: Pool, guard: (string, real) -> bool, m: Movement, id: string)
    requires m.actorRole.None? && m.amount == 0.004 && Funds(pool, guard, m)
    ensures var allocations := Deploy(Books([], []), [pool], guard, m, id).0.allocations;
      |allocations| == 1 && allocations[0].status == DEPLOYED && OutstandingKobo(allocations[0]) == 0
  {
    FirstDeployment(pool, guard, m, id);
    assert ToMinor(0.004) == 0;
  }

  // --- the second pool is never tried

  lemma NothingAllocated(pool: Pool)
    requires InitialCapital(pool) > 0.0
    ensures GetPoolSummary([], pool).available == InitialCapital(pool)
  {
  }

  lemma TwoCandidates(a: Pool, b: Pool, tenantId: string)
    requires IsCandidate(a, tenantId) && IsCandidate(b, tenantId)
    ensures Candidates([a, b], tenantId) == [a, b]
  {
    assert [a, b][..1] == [a] && [a][..0] == [];
    assert Candidates([a], tenantId) == [a];
  }

  /** The guard would accept the poorer pool, but it throws on the richer one first. */
  lemma AcceptablePoolIsNotTried(rich: Pool, poor: Pool, tenantId: string, amount: real)
    requires IsCandidate(rich, tenantId) && IsCandidate(poor, tenantId) && rich.id != poor.id
    requires InitialCapital(rich) > InitialCapital(poor) > 0.0
    ensures var guard := (id: string, x: real) => id == poor.id;
      && Acceptable([rich, poor], tenantId, guard, amount)
      && ResolveFundingPool([], [rich, poor], guard, tenantId, amount) == GuardThrew(rich)
  {
    var guard := (id: string, x: real) => id == poor.id;
    var pools := [rich, poor];
    NothingAllocated(rich);
    NothingAllocated(poor);
    TwoCandidates(rich, poor, tenantId);
    assert poor == pools[1] && guard(poor.id, amount);
    var i := OnlyHeadCandidateIsTried([], pools, guard, tenantId, amount);
  }
}
