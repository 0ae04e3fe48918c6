/**
 The tenant ledger's data and its chart of accounts. Decimal amounts are exact reals; a stored line's amount is a
 NUMERIC(18,2), and `amountMinor` is the same value in kobo.
 */
module LedgerModel {
  import opened Wrappers
  import opened Rounding
  import opened Sums

  datatype Direction = DEBIT | CREDIT

  datatype AccountCode =
    | CASH_MAIN | CASH | LOANS_RECEIVABLE | LOAN_PRINCIPAL_RECEIVABLE | LOAN_CLEARING
    | INTEREST_RECEIVABLE | FEES_RECEIVABLE | CASH_ON_HAND | BANK_CLEARING | WALLET_CLEARING
    | INTEREST_INCOME | FEE_INCOME | PENALTY_INCOME | WRITE_OFF_EXPENSE | SUSPENSE
    | CAPITAL_POOL_AVAILABLE | CAPITAL_POOL_DEPLOYED | CAPITAL_POOL_REPAID | CAPITAL_POOL_LOSSES

  datatype AccountType = ASSET | LIABILITY | EQUITY | REVENUE | INCOME | EXPENSE

  datatype Account = Account(code: AccountCode, accountType: AccountType, normalBalance: Direction)

  const DEFAULT_ACCOUNTS: seq<Account> := [
    Account(CASH_MAIN, ASSET, DEBIT),
    Account(CASH, ASSET, DEBIT),
    Account(LOAN_PRINCIPAL_RECEIVABLE, ASSET, DEBIT),
    Account(LOANS_RECEIVABLE, ASSET, DEBIT),
    Account(LOAN_CLEARING, ASSET, DEBIT),
    Account(INTEREST_RECEIVABLE, ASSET, DEBIT),
    Account(INTEREST_INCOME, INCOME, CREDIT),
    Account(FEES_RECEIVABLE, ASSET, DEBIT),
    Account(FEE_INCOME, INCOME, CREDIT),
    Account(PENALTY_INCOME, INCOME, CREDIT),
    Account(CASH_ON_HAND, ASSET, DEBIT),
    Account(BANK_CLEARING, ASSET, DEBIT),
    Account(WALLET_CLEARING, ASSET, DEBIT),
    Account(SUSPENSE, LIABILITY, CREDIT),
    Account(WRITE_OFF_EXPENSE, EXPENSE, DEBIT),
    Account(CAPITAL_POOL_AVAILABLE, ASSET, DEBIT),
    Account(CAPITAL_POOL_DEPLOYED, ASSET, DEBIT),
    Account(CAPITAL_POOL_REPAID, ASSET, DEBIT),
    Account(CAPITAL_POOL_LOSSES, EXPENSE, DEBIT)
  ]

  /** Where an account stands in the chart. */
  function ChartIndex(code: AccountCode): (i: nat)
    ensures i < |DEFAULT_ACCOUNTS| && DEFAULT_ACCOUNTS[i].code == code
  {
    match code
    case CASH_MAIN => 0
    case CASH => 1
    case LOAN_PRINCIPAL_RECEIVABLE => 2
    case LOANS_RECEIVABLE => 3
    case LOAN_CLEARING => 4
    case INTEREST_RECEIVABLE => 5
    case INTEREST_INCOME => 6
    case FEES_RECEIVABLE => 7
    case FEE_INCOME => 8
    case PENALTY_INCOME => 9
    case CASH_ON_HAND => 10
    case BANK_CLEARING => 11
    case WALLET_CLEARING => 12
    case SUSPENSE => 13
    case WRITE_OFF_EXPENSE => 14
    case CAPITAL_POOL_AVAILABLE => 15
    case CAPITAL_POOL_DEPLOYED => 16
    case CAPITAL_POOL_REPAID => 17
    case CAPITAL_POOL_LOSSES => 18
  }

  /** The account a posting finds for a code. Every code has one, so the lookup never misses. */
  function AccountOf(code: AccountCode): (account: Account)
    ensures account in DEFAULT_ACCOUNTS && account.code == code
  {
    DEFAULT_ACCOUNTS[ChartIndex(code)]
  }

  const CHART_CODES: seq<AccountCode> :=
    seq(|DEFAULT_ACCOUNTS|, i requires 0 <= i < |DEFAULT_ACCOUNTS| => DEFAULT_ACCOUNTS[i].code)

  /** The chart lists every code exactly once. */
  lemma ChartListsEveryCodeOnce()
    ensures Distinct(CHART_CODES)
    ensures forall code: AccountCode :: code in CHART_CODES
  {
    forall i | 0 <= i < |DEFAULT_ACCOUNTS| ensures ChartIndex(DEFAULT_ACCOUNTS[i].code) == i { }
    forall code: AccountCode ensures code in CHART_CODES {
      assert CHART_CODES[ChartIndex(code)] == code;
    }
  }

  /** The codes in the order of the database's enumeration, which is the order they sort in. */
  const SORTED_CODES: seq<AccountCode> := [
    CASH_MAIN, CASH, LOANS_RECEIVABLE, LOAN_PRINCIPAL_RECEIVABLE, LOAN_CLEARING, INTEREST_RECEIVABLE, FEES_RECEIVABLE,
    CASH_ON_HAND, BANK_CLEARING, WALLET_CLEARING, INTEREST_INCOME, FEE_INCOME, PENALTY_INCOME, WRITE_OFF_EXPENSE,
    SUSPENSE, CAPITAL_POOL_AVAILABLE, CAPITAL_POOL_DEPLOYED, CAPITAL_POOL_REPAID, CAPITAL_POOL_LOSSES
  ]

  /** Where a code stands in that order. */
  function SortIndex(code: AccountCode): (i: nat)
    ensures i < |SORTED_CODES| && SORTED_CODES[i] == code
  {
    match code
    case CASH_MAIN => 0
    case CASH => 1
    case LOANS_RECEIVABLE => 2
    case LOAN_PRINCIPAL_RECEIVABLE => 3
    case LOAN_CLEARING => 4
    case INTEREST_RECEIVABLE => 5
    case FEES_RECEIVABLE => 6
    case CASH_ON_HAND => 7
    case BANK_CLEARING => 8
    case WALLET_CLEARING => 9
    case INTEREST_INCOME => 10
    case FEE_INCOME => 11
    case PENALTY_INCOME => 12
    case WRITE_OFF_EXPENSE => 13
    case SUSPENSE => 14
    case CAPITAL_POOL_AVAILABLE => 15
    case CAPITAL_POOL_DEPLOYED => 16
    case CAPITAL_POOL_REPAID => 17
    case CAPITAL_POOL_LOSSES => 18
  }

  lemma SortedCodesAreAll()
    ensures Distinct(SORTED_CODES)
    ensures forall code: AccountCode :: code in SORTED_CODES
  {
    forall i | 0 <= i < |SORTED_CODES| ensures SortIndex(SORTED_CODES[i]) == i { }
    forall code: AccountCode ensures code in SORTED_CODES {
      assert SORTED_CODES[SortIndex(code)] == code;
    }
  }

  /**
   Three accounts are income, two expense and one liability; all others are assets. Assets and expenses are
   debit-normal, liabilities and income credit-normal.
   */
  lemma ChartPairsTypeWithNormalBalance(account: Account)
    requires account in DEFAULT_ACCOUNTS
    ensures account.accountType == INCOME <==> account.code in {INTEREST_INCOME, FEE_INCOME, PENALTY_INCOME}
    ensures account.accountType == EXPENSE <==> account.code in {WRITE_OFF_EXPENSE, CAPITAL_POOL_LOSSES}
    ensures account.accountType == LIABILITY <==> account.code == SUSPENSE
    ensures account.accountType in {ASSET, LIABILITY, INCOME, EXPENSE}
    ensures account.normalBalance == DEBIT <==> account.accountType in {ASSET, EXPENSE}
  {
  }

  datatype EntryType = DISBURSEMENT | REPAYMENT | ACCRUAL | WRITE_OFF | ADJUSTMENT

  datatype Role = CREDIT_OFFICER | RISK_MANAGER | OPS | COLLECTIONS | SYSTEM | SUPER_ADMIN | TENANT_ADMIN

  datatype LineInput = LineInput(accountCode: AccountCode, direction: Direction, amount: real)

  datatype EntryInput = EntryInput(
    tenantId: string,
    occurredAt: int,
    entryType: EntryType,
    idempotencyKey: string,
    referenceType: string,
    referenceId: string,
    currency: Option<string>,
    actorRole: Option<Role>,
    lines: seq<LineInput>)

  datatype Line = Line(accountCode: AccountCode, direction: Direction, amount: real, amountMinor: int, currency: string)

  datatype Entry = Entry(
    id: string,
    tenantId: string,
    occurredAt: int,
    entryType: EntryType,
    idempotencyKey: string,
    referenceType: string,
    referenceId: string,
    lines: seq<Line>)

  /** Kobo of a decimal amount. Every caller has already checked that the amount is positive. */
  function ToMinor(amount: real): (minor: int)
    ensures minor as real - 0.5 <= amount * 100.0 < minor as real + 0.5
  {
    RoundHalfUp(amount * 100.0)
  }

  function Stored(line: LineInput, currency: string): (stored: Line)
    ensures stored.amount * 100.0 == stored.amountMinor as real
  {
    var minor := ToMinor(line.amount);
    Line(line.accountCode, line.direction, minor as real / 100.0, minor, currency)
  }

  function StoredLines(lines: seq<LineInput>, currency: string): (stored: seq<Line>)
    ensures |stored| == |lines|
    ensures forall i :: 0 <= i < |lines| ==> stored[i] == Stored(lines[i], currency)
  {
    seq(|lines|, i requires 0 <= i < |lines| => Stored(lines[i], currency))
  }

  // --- measures of a line, in kobo

  function DebitMinor(line: Line): int { if line.direction == DEBIT then line.amountMinor else 0 }

  function CreditMinor(line: Line): int { if line.direction == CREDIT then line.amountMinor else 0 }

  function SignedMinor(line: Line): int { if line.direction == DEBIT then line.amountMinor else -line.amountMinor }

  function SignedOn(code: AccountCode): Line -> int
  {
    (line: Line) => if line.accountCode == code then SignedMinor(line) else 0
  }

  /** Debits minus credits of a set of lines, in kobo. */
  function Imbalance(lines: seq<Line>): int { SumInt(SignedMinor, lines) }

  /** What a set of lines adds to the debit side of one account, in kobo. */
  function Effect(code: AccountCode, lines: seq<Line>): int { SumInt(SignedOn(code), lines) }

  function LinesOf(tenantId: string, entries: seq<Entry>): (lines: seq<Line>)
  {
    if |entries| == 0 then []
    else
      var last := entries[|entries| - 1];
      LinesOf(tenantId, entries[..|entries| - 1]) + if last.tenantId == tenantId then last.lines else []
  }

  lemma LinesOfSnoc(tenantId: string, entries: seq<Entry>, e: Entry)
    ensures LinesOf(tenantId, entries + [e])
         == LinesOf(tenantId, entries) + if e.tenantId == tenantId then e.lines else []
  {
  }

  /** Debit balance of one account of one tenant, in kobo. */
  function Balance(tenantId: string, code: AccountCode, entries: seq<Entry>): int
  {
    Effect(code, LinesOf(tenantId, entries))
  }

  lemma BalanceSnoc(tenantId: string, code: AccountCode, entries: seq<Entry>, e: Entry)
    ensures Balance(tenantId, code, entries + [e])
         == Balance(tenantId, code, entries) + if e.tenantId == tenantId then Effect(code, e.lines) else 0
  {
    LinesOfSnoc(tenantId, entries, e);
    SumIntAppend(SignedOn(code), LinesOf(tenantId, entries), if e.tenantId == tenantId then e.lines else []);
  }
}
