/**
 computeRiskFromInput: a score from weighted factors and rules, and a decision from score and rules.

   - Values are JavaScript values; numbers are exact, with infinities and NaN.
   - A rule compares one field of the snapshot, found by its path, with an expected value.
   - Hard rules decline; soft rules raise a flag and may change the score.
   - What `Number` makes of texts, lists and objects is a parameter.
 */
module RiskScore {
  import opened Wrappers
  import opened Sums
  import opened Rounding

  // --- values and rules

  /** A JavaScript number, with exact finite values. */
  datatype Number = NotANumber | NegInfinity | Finite(r: real) | PosInfinity

  /** A value of the snapshot or of a rule. */
  datatype Value =
    | Undefined
    | Null
    | Bool(b: bool)
    | Num(n: Number)
    | Text(s: string)
    | List(items: seq<Value>)
    | Object(fields: map<string, Value>)

  predicate Less(a: Number, b: Number)
  {
    match (a, b)
    case (Finite(x), Finite(y)) => x < y
    case (NegInfinity, Finite(_)) => true
    case (NegInfinity, PosInfinity) => true
    case (Finite(_), PosInfinity) => true
    case (_, _) => false
  }

  predicate AtMost(a: Number, b: Number)
  {
    Less(a, b) || (a == b && !a.NotANumber?)
  }

  /** Number(value); what it makes of strings, lists and objects is left to the parameter. */
  function ToNumber(convert: Value -> Number, v: Value): Number
  {
    match v
    case Undefined => NotANumber
    case Null => Finite(0.0)
    case Bool(b) => Finite(if b then 1.0 else 0.0)
    case Num(n) => n
    case _ => convert(v)
  }

  predicate IsReference(v: Value) { v.List? || v.Object? }

  /** v === w for values of different origin: lists and objects are never the same one, and NaN is not itself. */
  predicate StrictlyEqual(v: Value, w: Value)
  {
    v == w && !IsReference(v) && v != Num(NotANumber)
  }

  /** items.includes(v), which does find NaN. */
  predicate Includes(items: seq<Value>, v: Value)
  {
    exists i :: 0 <= i < |items| && items[i] == v && !IsReference(v)
  }

  predicate Truthy(v: Value)
  {
    match v
    case Undefined => false
    case Null => false
    case Bool(b) => b
    case Num(n) => n != NotANumber && n != Finite(0.0)
    case Text(s) => s != ""
    case _ => true
  }

  predicate IsNullish(v: Value) { v.Undefined? || v.Null? }

  datatype Operator = Eq | Ne | In | Nin | Gt | Gte | Lt | Lte | Exists | Unknown

  predicate IsRuleMatch(convert: Value -> Number, v: Value, operator: Operator, expected: Value)
  {
    var x, y := ToNumber(convert, v), ToNumber(convert, expected);
    match operator
    case Eq => StrictlyEqual(v, expected)
    case Ne => !StrictlyEqual(v, expected)
    case In => expected.List? && Includes(expected.items, v)
    case Nin => !expected.List? || !Includes(expected.items, v)
    case Gt => Less(y, x)
    case Gte => AtMost(y, x)
    case Lt => Less(x, y)
    case Lte => AtMost(x, y)
    case Exists => if Truthy(expected) then !IsNullish(v) else IsNullish(v)
    case Unknown => false
  }

  /** The path is the rule's field, split at the dots. */
  function GetPathValue(v: Value, path: seq<string>): Value
    decreases |path|
  {
    if |path| == 0 then v
    else GetPathValue(if v.Object? && path[0] in v.fields then v.fields[path[0]] else Undefined, path[1..])
  }

  datatype Rule = Rule(code: string, field: seq<string>, operator: Operator, value: Value, delta: Option<int>)

  predicate Matches(convert: Value -> Number, snapshot: Value, rule: Rule)
  {
    IsRuleMatch(convert, GetPathValue(snapshot, rule.field), rule.operator, rule.value)
  }

  // --- the snapshot and the policy

  datatype Snapshot = Snapshot(
    employmentStatus: Option<string>, incomeBand: Option<string>, kycLevel: Option<string>, hasActiveDefault: bool,
    requestedAmount: real, tenorDays: real, onTimeRate: real, defaultsCount: real, isEmulator: Option<bool>)

  function TextOrNull(s: Option<string>): Value
  {
    if s.Some? then Text(s.value) else Null
  }

  function Real(x: real): Value { Num(Finite(x)) }

  /** The snapshot as the rules see it. */
  function AsValue(s: Snapshot): Value
  {
    Object(map[
      "borrower" := Object(map[
        "employmentStatus" := TextOrNull(s.employmentStatus), "incomeBand" := TextOrNull(s.incomeBand),
        "kycLevel" := TextOrNull(s.kycLevel), "hasActiveDefault" := Bool(s.hasActiveDefault)]),
      "application" := Object(map["requestedAmount" := Real(s.requestedAmount), "tenorDays" := Real(s.tenorDays)]),
      "repaymentStats" := Object(map["onTimeRate" := Real(s.onTimeRate), "defaultsCount" := Real(s.defaultsCount)]),
      "derived" := Object(map["hasActiveDefault" := Bool(s.hasActiveDefault)]),
      "deviceRisk" := Object(map["isEmulator" := if s.isEmulator.Some? then Bool(s.isEmulator.value) else Null])])
  }

  datatype Weights = Weights(employment: int, income: int, repayment: int, kyc: int, device: Option<int>)

  datatype Config = Config(
    weights: Weights, approveMinScore: int, reviewMinScore: int, hardDeclines: seq<Rule>, softFlags: seq<Rule>)

  // --- the score

  datatype Contribution = Contribution(key: string, delta: int)

  function Delta(c: Contribution): int { c.delta }

  function EmploymentFactor(s: Snapshot): real
  {
    if s.employmentStatus == Some("EMPLOYED") then 1.0 else 0.0
  }

  function IncomeFactor(s: Snapshot): real
  {
    if s.incomeBand == Some("HIGH") then 1.0
    else if s.incomeBand == Some("MEDIUM") then 0.5
    else if s.incomeBand == Some("LOW") then -0.5
    else 0.0
  }

  function RepaymentFactor(s: Snapshot): (f: real)
    ensures 0.0 <= f <= 1.0
  {
    if s.onTimeRate < 0.0 then 0.0 else if s.onTimeRate > 1.0 then 1.0 else s.onTimeRate
  }

  function KycFactor(s: Snapshot): real
  {
    if s.kycLevel == Some("FULL") then 1.0 else if s.kycLevel == Some("PARTIAL") then 0.2 else -0.8
  }

  function Weighted(factor: real, weight: int): int
  {
    RoundHalfUp(factor * weight as real * 5.0)
  }

  const DEVICE_FLAG := "DEVICE_EMULATOR"

  /** The contributions of the weighted factors, in the order they are recorded. */
  function FactorContributions(s: Snapshot, w: Weights): seq<Contribution>
  {
    [Contribution("employmentStatus", Weighted(EmploymentFactor(s), w.employment)),
     Contribution("incomeBand", Weighted(IncomeFactor(s), w.income)),
     Contribution("repaymentHistory", Weighted((RepaymentFactor(s) - 0.5) * 2.0, w.repayment)),
     Contribution("kycLevel", Weighted(KycFactor(s), w.kyc))]
    + if s.isEmulator == Some(true)
      then [Contribution("deviceTrust", -5 * if w.device.Some? then w.device.value else 10)]
      else []
  }

  /** The codes of the rules that match, in order. */
  function MatchingCodes(convert: Value -> Number, snapshot: Value, rules: seq<Rule>): (codes: seq<string>)
  {
    if |rules| == 0 then []
    else
      var last := rules[|rules| - 1];
      MatchingCodes(convert, snapshot, rules[..|rules| - 1])
      + if Matches(convert, snapshot, last) then [last.code] else []
  }

  function SoftContributions(
    convert: Value -> Number, snapshot: Value, rules: seq<Rule>)
    : (contributions: seq<Contribution>)
  {
    if |rules| == 0 then []
    else
      var last := rules[|rules| - 1];
      SoftContributions(convert, snapshot, rules[..|rules| - 1])
      + if Matches(convert, snapshot, last) && last.delta.Some?
        then [Contribution("soft:" + last.code, last.delta.value)]
        else []
  }

  const BASELINE := 500
  const DECLINE_CAP := 400

  function ClampScore(value: real): (score: int)
    ensures 0 <= score <= 1000
  {
    var rounded := RoundHalfUp(value);
    if rounded < 0 then 0 else if rounded > 1000 then 1000 else rounded
  }

  datatype Decision = Approve | Review | Decline

  /** The decision of a score when no hard rule matches. */
  function DecisionFor(config: Config, score: int): Decision
  {
    if score >= config.approveMinScore then Approve
    else if score >= config.reviewMinScore then Review
    else Decline
  }

  datatype Assessment = Assessment(
    score: int, decision: Decision, contributions: seq<Contribution>, hardDeclines: seq<string>, softFlags: seq<string>)

  method ScoreFactors(
    s: Snapshot, w: Weights)
    returns (score: int, contributions: seq<Contribution>, softFlags: seq<string>)
    ensures contributions == FactorContributions(s, w)
    ensures softFlags == if s.isEmulator == Some(true) then [DEVICE_FLAG] else []
    ensures score == BASELINE + SumInt(Delta, contributions)
  {
    var employmentDelta := Weighted(EmploymentFactor(s), w.employment);
    var incomeDelta := Weighted(IncomeFactor(s), w.income);
    var repaymentDelta := Weighted((RepaymentFactor(s) - 0.5) * 2.0, w.repayment);
    var kycDelta := Weighted(KycFactor(s), w.kyc);
    score := BASELINE + employmentDelta + incomeDelta + repaymentDelta + kycDelta;
    contributions := [Contribution("employmentStatus", employmentDelta), Contribution("incomeBand", incomeDelta),
                      Contribution("repaymentHistory", repaymentDelta), Contribution("kycLevel", kycDelta)];
    SumOfFour(contributions);
    softFlags := [];
    if s.isEmulator == Some(true) {
      var device := Contribution("deviceTrust", -5 * if w.device.Some? then w.device.value else 10);
      SumIntSnoc(Delta, contributions, device);
      score := score + device.delta;
      contributions := contributions + [device];
      softFlags := [DEVICE_FLAG];
    }
  }

  method CheckHardDeclines(
    convert: Value -> Number, snapshot: Value, rules: seq<Rule>)
    returns (hardDeclines: seq<string>)
    ensures hardDeclines == MatchingCodes(convert, snapshot, rules)
  {
    hardDeclines := [];
    var i := 0;
    while i < |rules|
      invariant 0 <= i <= |rules|
      invariant hardDeclines == MatchingCodes(convert, snapshot, rules[..i])
    {
      assert rules[..i + 1][..i] == rules[..i];
      if Matches(convert, snapshot, rules[i]) {
        hardDeclines := hardDeclines + [rules[i].code];
      }
      i := i + 1;
    }
    assert rules[..i] == rules;
  }

  method ScoreSoftFlags(convert: Value -> Number, snapshot: Value, rules: seq<Rule>)
    returns (total: int, contributions: seq<Contribution>, softFlags: seq<string>)
    ensures contributions == SoftContributions(convert, snapshot, rules)
    ensures softFlags == MatchingCodes(convert, snapshot, rules)
    ensures total == SumInt(Delta, contributions)
  {
    total, contributions, softFlags := 0, [], [];
    var i := 0;
    while i < |rules|
      invariant 0 <= i <= |rules|
      invariant contributions == SoftContributions(convert, snapshot, rules[..i])
      invariant softFlags == MatchingCodes(convert, snapshot, rules[..i])
      invariant total == SumInt(Delta, contributions)
    {
      var rule := rules[i];
      assert rules[..i + 1][..i] == rules[..i];
      if Matches(convert, snapshot, rule) {
        softFlags := softFlags + [rule.code];
        if rule.delta.Some? {
          var soft := Contribution("soft:" + rule.code, rule.delta.value);
          SumIntSnoc(Delta, contributions, soft);
          total := total + rule.delta.value;
          contributions := contributions + [soft];
        }
      }
      i := i + 1;
    }
    assert rules[..i] == rules;
  }

  method ComputeRisk(convert: Value -> Number, s: Snapshot, config: Config) returns (a: Assessment)
    ensures a.contributions
         == FactorContributions(s, config.weights) + SoftContributions(convert, AsValue(s), config.softFlags)
    ensures a.hardDeclines == MatchingCodes(convert, AsValue(s), config.hardDeclines)
    ensures a.softFlags
         == (if s.isEmulator == Some(true) then [DEVICE_FLAG] else [])
            + MatchingCodes(convert, AsValue(s), config.softFlags)
    ensures var normalized := ClampScore((BASELINE + SumInt(Delta, a.contributions)) as real);
      && a.score == (if a.hardDeclines != [] && normalized > DECLINE_CAP then DECLINE_CAP else normalized)
      && a.decision == (if a.hardDeclines != [] then Decline else DecisionFor(config, normalized))
    ensures 0 <= a.score <= 1000
  {
    var score, factors, deviceFlags := ScoreFactors(s, config.weights);
    var snapshot := AsValue(s);
    var hardDeclines := CheckHardDeclines(convert, snapshot, config.hardDeclines);
    var total, soft, softFlags := ScoreSoftFlags(convert, snapshot, config.softFlags);
    SumIntAppend(Delta, factors, soft);
    var normalized := ClampScore((score + total) as real);
    a := Assessment(
      if |hardDeclines| > 0 && normalized > DECLINE_CAP then DECLINE_CAP else normalized,
      if |hardDeclines| > 0 then Decline else DecisionFor(config, normalized),
      factors + soft, hardDeclines, deviceFlags + softFlags);
  }

  lemma SumOfFour(c: seq<Contribution>)
    requires |c| == 4
    ensures SumInt(Delta, c) == c[0].delta + c[1].delta + c[2].delta + c[3].delta
  {
    SumIntSnoc(Delta, [], c[0]);
    SumIntSnoc(Delta, [c[0]], c[1]);
    SumIntSnoc(Delta, [c[0], c[1]], c[2]);
    SumIntSnoc(Delta, [c[0], c[1], c[2]], c[3]);
    assert [] + [c[0]] == [c[0]] && [c[0]] + [c[1]] == [c[0], c[1]] && [c[0], c[1]] + [c[2]] == [c[0], c[1], c[2]];
    assert [c[0], c[1], c[2]] + [c[3]] == c;
  }
}
