/**
 OfferCalculatorService: interest, fees and a repayment schedule for a requested amount.

   - Amounts are kobo, times are milliseconds, and rates are basis points per month of 30 days.
   - The lender's settings give the policy, number by number, and the caller may override it.
   - A schedule is one bullet payment, or equal installments a week or 30 days apart.
   - Arithmetic is exact.
 */
module OfferCalculator {
  import opened Wrappers
  import opened Sums
  import opened Reals
  import opened Rounding

  datatype ScheduleType = Bullet | WeeklyEqual | MonthlyEqual

  datatype Pricing = Pricing(
    interestRateBpsMonthly: int, originationFeeKoboFlat: int, originationFeeBps: int,
    scheduleType: ScheduleType, offerExpiryHours: int)

  const DEFAULTS := Pricing(500, 0, 0, Bullet, 168)

  // --- lender settings

  /** A member of the lender's policy object. */
  datatype Setting = Missing | Num(n: real) | Text(s: string) | Other

  datatype PolicySettings = PolicySettings(
    interestRateBpsMonthly: Setting, originationFeeKoboFlat: Setting, originationFeeBps: Setting,
    scheduleType: Setting, offerExpiryHours: Setting)

  predicate IsWhole(x: real) { x == x.Floor as real }

  /** The setting itself if it is a whole number from least on, and otherwise the default. */
  predicate TakenFrom(value: Setting, least: int, fallback: int, n: int)
  {
    if value.Num? && IsWhole(value.n) && value.n >= least as real then value.n == n as real else n == fallback
  }

  function AsNonNegativeInt(value: Setting, fallback: nat): (n: nat)
    ensures TakenFrom(value, 0, fallback, n)
  {
    if value.Num? && IsWhole(value.n) && value.n >= 0.0 then value.n.Floor else fallback
  }

  function AsPositiveInt(value: Setting, fallback: nat): (n: nat)
    requires fallback > 0
    ensures n > 0 && TakenFrom(value, 1, fallback, n)
  {
    if value.Num? && IsWhole(value.n) && value.n > 0.0 then value.n.Floor else fallback
  }

  function AsScheduleType(value: Setting, fallback: ScheduleType): ScheduleType
  {
    if value == Text("BULLET") then Bullet
    else if value == Text("WEEKLY_EQUAL") then WeeklyEqual
    else if value == Text("MONTHLY_EQUAL") then MonthlyEqual
    else fallback
  }

  function GetPolicy(settings: Option<PolicySettings>): (p: Pricing)
    ensures p.interestRateBpsMonthly >= 0 && p.originationFeeKoboFlat >= 0 && p.originationFeeBps >= 0
    ensures p.offerExpiryHours > 0
    ensures settings.None? ==> p == Pricing(500, 0, 0, Bullet, 168)
    ensures settings.Some? ==>
      var s := settings.value;
      && TakenFrom(s.interestRateBpsMonthly, 0, 500, p.interestRateBpsMonthly)
      && TakenFrom(s.originationFeeKoboFlat, 0, 0, p.originationFeeKoboFlat)
      && TakenFrom(s.originationFeeBps, 0, 0, p.originationFeeBps)
      && TakenFrom(s.offerExpiryHours, 1, 168, p.offerExpiryHours)
      && (p.scheduleType == WeeklyEqual <==> s.scheduleType == Text("WEEKLY_EQUAL"))
      && (p.scheduleType == MonthlyEqual <==> s.scheduleType == Text("MONTHLY_EQUAL"))
  {
    if settings.None? then DEFAULTS
    else
      var s := settings.value;
      Pricing(
        AsNonNegativeInt(s.interestRateBpsMonthly, 500), AsNonNegativeInt(s.originationFeeKoboFlat, 0),
        AsNonNegativeInt(s.originationFeeBps, 0), AsScheduleType(s.scheduleType, Bullet),
        AsPositiveInt(s.offerExpiryHours, 168))
  }

  datatype PricingOverride = PricingOverride(
    interestRateBpsMonthly: Option<int>, originationFeeKoboFlat: Option<int>, originationFeeBps: Option<int>,
    scheduleType: Option<ScheduleType>, offerExpiryHours: Option<int>)

  function GetOr<T>(value: Option<T>, fallback: T): T
  {
    if value.Some? then value.value else fallback
  }

  function Overridden(p: Pricing, o: PricingOverride): Pricing
  {
    Pricing(
      GetOr(o.interestRateBpsMonthly, p.interestRateBpsMonthly),
      GetOr(o.originationFeeKoboFlat, p.originationFeeKoboFlat),
      GetOr(o.originationFeeBps, p.originationFeeBps),
      GetOr(o.scheduleType, p.scheduleType),
      GetOr(o.offerExpiryHours, p.offerExpiryHours))
  }

  /** What the caller overrides counts, and the lender's policy for the rest. */
  lemma OverrideWins(p: Pricing, o: PricingOverride)
    ensures var q := Overridden(p, o);
      && (o.interestRateBpsMonthly.Some? ==> q.interestRateBpsMonthly == o.interestRateBpsMonthly.value)
      && (o.interestRateBpsMonthly.None? ==> q.interestRateBpsMonthly == p.interestRateBpsMonthly)
      && (o.originationFeeKoboFlat.Some? ==> q.originationFeeKoboFlat == o.originationFeeKoboFlat.value)
      && (o.originationFeeKoboFlat.None? ==> q.originationFeeKoboFlat == p.originationFeeKoboFlat)
      && (o.originationFeeBps.Some? ==> q.originationFeeBps == o.originationFeeBps.value)
      && (o.originationFeeBps.None? ==> q.originationFeeBps == p.originationFeeBps)
      && (o.scheduleType.Some? ==> q.scheduleType == o.scheduleType.value)
      && (o.scheduleType.None? ==> q.scheduleType == p.scheduleType)
      && (o.offerExpiryHours.Some? ==> q.offerExpiryHours == o.offerExpiryHours.value)
      && (o.offerExpiryHours.None? ==> q.offerExpiryHours == p.offerExpiryHours)
  {
  }

  // --- amounts

  /** The daily rate is taken first, as in the program. */
  function Interest(principal: int, rateBps: int, tenorDays: int): (kobo: int)
  {
    var dailyRate := rateBps as real / 10000.0 / 30.0;
    RoundHalfUp(Product(Product(principal as real, dailyRate), tenorDays as real))
  }

  function BpsFee(principal: int, feeBps: int): (kobo: int)
  {
    RoundHalfUp(Product(principal as real, feeBps as real) / 10000.0)
  }

  /** Interest is the nearest kobo to principal * rate * days / 300000, and half a kobo goes up. */
  lemma InterestIsNearest(principal: int, rateBps: int, tenorDays: int)
    ensures var exact := (principal * rateBps * tenorDays) as real / 300000.0;
      var kobo := Interest(principal, rateBps, tenorDays);
      kobo as real - 0.5 <= exact < kobo as real + 0.5
  {
  }

  /** The fee is the nearest kobo to its share of the principal, and half a kobo goes up. */
  lemma FeeIsNearest(principal: int, feeBps: int)
    ensures var exact, kobo := (principal * feeBps) as real / 10000.0, BpsFee(principal, feeBps);
      kobo as real - 0.5 <= exact < kobo as real + 0.5
  {
  }

  /** More principal, a higher rate or a longer tenor never make the interest smaller. */
  lemma InterestIsMonotone(p: int, r: int, t: int, p': int, r': int, t': int)
    requires 0 <= p <= p' && 0 <= r <= r' && 0 <= t <= t'
    ensures 0 <= Interest(p, r, t) <= Interest(p', r', t')
  {
    var daily, daily' := r as real / 10000.0 / 30.0, r' as real / 10000.0 / 30.0;
    var principal, principal', tenor, tenor' := p as real, p' as real, t as real, t' as real;
    Scale(daily, principal, principal');
    Scale(principal', daily, daily');
    Scale(tenor, Product(principal, daily), Product(principal', daily'));
    NonNegativeProduct(principal, daily);
    NonNegativeProduct(principal', daily');
    Scale(Product(principal', daily'), tenor, tenor');
    NonNegativeProduct(Product(principal, daily), tenor);
    RoundMonotone(Product(Product(principal, daily), tenor), Product(Product(principal', daily'), tenor'));
  }

  // --- schedule

  const DAY_MS := 86400000

  datatype Installment = Installment(dueAt: int, amount: int)

  function ChunkDays(scheduleType: ScheduleType): (days: int)
    ensures days == 7 || days == 30
  {
    if scheduleType == WeeklyEqual then 7 else 30
  }

  function Ceiling(n: int, d: int): (q: int)
    requires d > 0
    ensures (q - 1) * d < n <= q * d
  {
    (n + d - 1) / d
  }

  function InstallmentCount(scheduleType: ScheduleType, tenorDays: int): (count: nat)
    ensures count >= 1
  {
    var count := Ceiling(tenorDays, ChunkDays(scheduleType));
    if count > 1 then count else 1
  }

  /** The number of days after which the last installment is due. */
  function LastDueDay(scheduleType: ScheduleType, tenorDays: int): int
  {
    if scheduleType == Bullet then tenorDays
    else InstallmentCount(scheduleType, tenorDays) * ChunkDays(scheduleType)
  }

  function Amount(i: Installment): int { i.amount }

  predicate Follows(items: seq<Installment>, i: nat, days: int)
    requires i + 1 < |items|
  {
    items[i + 1].dueAt == items[i].dueAt + days * 86400000
  }

  /** The days between two installments, and until the first. */
  function Period(scheduleType: ScheduleType, tenorDays: int): (days: int)
  {
    match scheduleType
    case Bullet => tenorDays
    case WeeklyEqual => 7
    case MonthlyEqual => 30
  }

  /** One bullet payment, or the fewest installments that cover the tenor, and at least one. */
  predicate IsCount(scheduleType: ScheduleType, tenorDays: int, count: int)
  {
    count == 1
    || (&& count > 1 && scheduleType != Bullet
        && (count - 1) * Period(scheduleType, tenorDays) < tenorDays)
  }

  /** What a schedule promises the borrower and the lender. */
  ghost predicate ScheduleOk(items: seq<Installment>, scheduleType: ScheduleType, from: int, tenorDays: int, total: int)
  {
    && IsCount(scheduleType, tenorDays, |items|)
    && tenorDays <= |items| * Period(scheduleType, tenorDays)
    && SumInt(Amount, items) == total
    && (forall i, j :: 0 <= i < j < |items| - 1 ==> items[i].amount == items[j].amount)
    && (forall i :: 0 <= i < |items| - 1 ==> 0 <= items[|items| - 1].amount - items[i].amount < |items|)
    && (forall i :: 0 <= i < |items| - 1 ==> Follows(items, i, Period(scheduleType, tenorDays)))
    && items[0].dueAt == from + Period(scheduleType, tenorDays) * 86400000
  }

  function Times(n: int, x: int): int { n * x }

  lemma TimesNext(n: int, x: int)
    ensures Times(n, x) == Times(n - 1, x) + x
    ensures Times(0, x) == 0
  {
  }

  /** The remainder goes to the last installment. */
  method SpreadInstallments(from: int, chunkDays: int, count: nat, base: int, remainder: int)
    returns (items: seq<Installment>)
    requires count >= 1
    ensures |items| == count
    ensures forall k :: 0 <= k < count ==> items[k].amount == if k == count - 1 then base + remainder else base
    ensures forall k :: 0 <= k < count - 1 ==> Follows(items, k, chunkDays)
    ensures items[0].dueAt == from + chunkDays * 86400000
    ensures SumInt(Amount, items) == Times(count, base) + remainder
  {
    items := [];
    var i := 1;
    while i <= count
      invariant 1 <= i <= count + 1 && |items| == i - 1
      invariant forall k :: 0 <= k < |items| ==> items[k].amount == if k == count - 1 then base + remainder else base
      invariant forall k :: 0 <= k < |items| - 1 ==> Follows(items, k, chunkDays)
      invariant i > 1 ==> items[i - 2].dueAt == from + Times(i - 1, chunkDays) * DAY_MS
      invariant i > 1 ==> items[0].dueAt == from + chunkDays * DAY_MS
      invariant SumInt(Amount, items) == Times(i - 1, base) + if i > count then remainder else 0
    {
      var amount := if i == count then base + remainder else base;
      var item := Installment(from + Times(i, chunkDays) * DAY_MS, amount);
      SumIntSnoc(Amount, items, item);
      TimesNext(i, base);
      TimesNext(i, chunkDays);
      ghost var before := items;
      items := items + [item];
      forall k | 0 <= k < |items| - 1 ensures Follows(items, k, chunkDays) {
        if k < |before| - 1 {
          assert Follows(before, k, chunkDays);
        }
      }
      i := i + 1;
    }
  }

  lemma RemainderIsSmall(total: int, count: nat)
    requires count > 0
    ensures 0 <= total - Times(count, total / count) < count
  {
  }

  method BuildSchedule(scheduleType: ScheduleType, from: int, tenorDays: int, totalRepayable: int)
    returns (items: seq<Installment>)
    ensures ScheduleOk(items, scheduleType, from, tenorDays, totalRepayable)
  {
    if scheduleType == Bullet {
      items := [Installment(from + tenorDays * DAY_MS, totalRepayable)];
    } else {
      var count := InstallmentCount(scheduleType, tenorDays);
      var base := totalRepayable / count;
      var remainder := totalRepayable - Times(count, base);
      RemainderIsSmall(totalRepayable, count);
      items := SpreadInstallments(from, ChunkDays(scheduleType), count, base, remainder);
    }
  }

  /** Due dates strictly increase, and the last is the last due day. */
  lemma {:induction false} DueDatesIncrease(
    items: seq<Installment>, scheduleType: ScheduleType, from: int, tenorDays: int, total: int, i: nat, j: nat)
    requires ScheduleOk(items, scheduleType, from, tenorDays, total)
    requires i < j < |items|
    ensures items[i].dueAt < items[j].dueAt
  {
    if i + 1 < j {
      DueDatesIncrease(items, scheduleType, from, tenorDays, total, i, j - 1);
    }
    assert Follows(items, j - 1, Period(scheduleType, tenorDays));
  }

  lemma {:induction false} DueAt(
    items: seq<Installment>, scheduleType: ScheduleType, from: int, tenorDays: int, total: int, k: nat)
    requires ScheduleOk(items, scheduleType, from, tenorDays, total) && k < |items|
    ensures items[k].dueAt == from + (k + 1) * Period(scheduleType, tenorDays) * 86400000
  {
    if k > 0 {
      DueAt(items, scheduleType, from, tenorDays, total, k - 1);
      assert Follows(items, k - 1, Period(scheduleType, tenorDays));
    }
  }

  lemma LastIsDueOnLastDay(items: seq<Installment>, scheduleType: ScheduleType, from: int, tenorDays: int, total: int)
    requires ScheduleOk(items, scheduleType, from, tenorDays, total)
    ensures items[|items| - 1].dueAt == from + LastDueDay(scheduleType, tenorDays) * 86400000
  {
    DueAt(items, scheduleType, from, tenorDays, total, |items| - 1);
    CountIsUnique(scheduleType, tenorDays, |items|);
  }

  /** There is only one such count, and it is the program's. */
  lemma CountIsUnique(scheduleType: ScheduleType, tenorDays: int, count: int)
    requires IsCount(scheduleType, tenorDays, count) && tenorDays <= count * Period(scheduleType, tenorDays)
    ensures count == if scheduleType == Bullet then 1 else InstallmentCount(scheduleType, tenorDays)
  {
  }

  /** The schedule covers the tenor and stops within one chunk of it, exactly when the tenor is positive. */
  lemma ScheduleCoversTenor(scheduleType: ScheduleType, tenorDays: int)
    requires scheduleType != Bullet
    ensures tenorDays <= LastDueDay(scheduleType, tenorDays)
    ensures LastDueDay(scheduleType, tenorDays) < tenorDays + ChunkDays(scheduleType) <==> tenorDays > 0
  {
  }

  // --- the offer

  datatype Offer = Offer(
    principalAmount: int, interestAmount: int, feeAmount: int, totalRepayable: int, expiresAt: int,
    schedule: seq<Installment>, pricing: Pricing)

  const HOUR_MS := 3600000

  /** The installments pay back exactly principal, interest and fees. */
  method Calculate(amountRequested: int, tenorDays: int, settings: Option<PolicySettings>, o: PricingOverride, now: int)
    returns (offer: Offer)
    ensures offer.pricing == Overridden(GetPolicy(settings), o)
    ensures offer.principalAmount == amountRequested
    ensures offer.interestAmount == Interest(amountRequested, offer.pricing.interestRateBpsMonthly, tenorDays)
    ensures offer.feeAmount
         == offer.pricing.originationFeeKoboFlat + BpsFee(amountRequested, offer.pricing.originationFeeBps)
    ensures SumInt(Amount, offer.schedule) == offer.totalRepayable
         == offer.principalAmount + offer.interestAmount + offer.feeAmount
    ensures ScheduleOk(offer.schedule, offer.pricing.scheduleType, now, tenorDays, offer.totalRepayable)
    ensures offer.expiresAt == now + offer.pricing.offerExpiryHours * 3600000
  {
    var pricing := Overridden(GetPolicy(settings), o);
    var interest := Interest(amountRequested, pricing.interestRateBpsMonthly, tenorDays);
    var fee := pricing.originationFeeKoboFlat + BpsFee(amountRequested, pricing.originationFeeBps);
    var total := amountRequested + interest + fee;
    var schedule := BuildSchedule(pricing.scheduleType, now, tenorDays, total);
    offer := Offer(amountRequested, interest, fee, total, now + pricing.offerExpiryHours * HOUR_MS, schedule, pricing);
  }
}
