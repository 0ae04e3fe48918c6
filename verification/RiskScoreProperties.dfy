/**
 What the score and the decision depend on, over any rules.

   - Which operators are opposites, and what each compares.
   - Which fields a rule can see, and what each factor adds.
   - Which codes and deltas are recorded, rule by rule.
   - Score and decision as a function of all that, whatever the order of the rules,
     and that a higher score is never worse.
 */
module RiskScoreProperties {
  import opened Wrappers
  import opened Sums
  import opened Rounding
  import opened RiskScore

  // --- operators

  /** Opposite operators: exactly one of each pair matches, but for the orders it takes two numbers. */
  lemma OppositeOperators(convert: Value -> Number, v: Value, expected: Value)
    ensures IsRuleMatch(convert, v, Eq, expected) <==> !IsRuleMatch(convert, v, Ne, expected)
    ensures IsRuleMatch(convert, v, In, expected) <==> !IsRuleMatch(convert, v, Nin, expected)
    ensures var ordered := !ToNumber(convert, v).NotANumber? && !ToNumber(convert, expected).NotANumber?;
      && (ordered <==> (IsRuleMatch(convert, v, Gt, expected) <==> !IsRuleMatch(convert, v, Lte, expected)))
      && (ordered <==> (IsRuleMatch(convert, v, Lt, expected) <==> !IsRuleMatch(convert, v, Gte, expected)))
  {
  }

  /** Between numbers the four orders are what they say; null counts as zero, false and true as zero and one. */
  lemma OrdersCompareNumbers(convert: Value -> Number, x: real, y: real)
    ensures IsRuleMatch(convert, Num(Finite(x)), Gt, Num(Finite(y))) <==> x > y
    ensures IsRuleMatch(convert, Num(Finite(x)), Gte, Num(Finite(y))) <==> x >= y
    ensures IsRuleMatch(convert, Num(Finite(x)), Lt, Num(Finite(y))) <==> x < y
    ensures IsRuleMatch(convert, Num(Finite(x)), Lte, Num(Finite(y))) <==> x <= y
    ensures IsRuleMatch(convert, Null, Lt, Num(Finite(y))) <==> 0.0 < y
    ensures IsRuleMatch(convert, Bool(true), Gte, Num(Finite(y))) <==> 1.0 >= y
    ensures IsRuleMatch(convert, Bool(false), Gte, Num(Finite(y))) <==> 0.0 >= y
    ensures !IsRuleMatch(convert, Undefined, Gte, Num(Finite(y)))
    ensures !IsRuleMatch(convert, Undefined, Lte, Num(Finite(y)))
  {
  }

  /** Equality and membership take plain values only; a list is met by what it lists, and without a list none is. */
  lemma EqualityAndMembership(convert: Value -> Number, v: Value, w: Value, items: seq<Value>)
    requires !v.List? && !v.Object? && v != Num(NotANumber)
    ensures IsRuleMatch(convert, v, Eq, w) <==> v == w
    ensures IsRuleMatch(convert, v, In, List(items)) <==> v in items
    ensures !w.List? ==> !IsRuleMatch(convert, v, In, w) && IsRuleMatch(convert, v, Nin, w)
    ensures !IsRuleMatch(convert, v, Unknown, w)
  {
  }

  /** Lists and objects equal nothing and are in no list; NaN is in a list that has it, but equals nothing. */
  lemma ReferencesAndNaN(convert: Value -> Number, v: Value, w: Value, items: seq<Value>)
    ensures v.List? || v.Object? ==> !IsRuleMatch(convert, v, Eq, w) && !IsRuleMatch(convert, v, In, List(items))
    ensures !IsRuleMatch(convert, Num(NotANumber), Eq, w)
    ensures IsRuleMatch(convert, Num(NotANumber), In, List(items)) <==> Num(NotANumber) in items
  {
  }

  /**
   `exists` asks for a value that is neither missing nor null; for the opposite if what is expected is false,
   missing, null, zero, NaN or an empty text.
   */
  lemma ExistenceIs(convert: Value -> Number, v: Value, expected: Value)
    ensures var falsy := expected in {Bool(false), Undefined, Null, Num(Finite(0.0)), Num(NotANumber), Text("")};
      IsRuleMatch(convert, v, Exists, expected) <==> ((v == Undefined || v == Null) <==> falsy)
  {
  }

  lemma TwoSteps(v: Value, a: string, b: string)
    requires v.Object? && a in v.fields && v.fields[a].Object? && b in v.fields[a].fields
    ensures GetPathValue(v, [a, b]) == v.fields[a].fields[b]
  {
    var rest := [a, b][1..];
    assert rest == [b] && rest[1..] == [];
    assert GetPathValue(v.fields[a], rest) == GetPathValue(v.fields[a].fields[b], []);
  }

  lemma MissingStep(v: Value, a: string)
    requires v.Object? && a !in v.fields
    ensures GetPathValue(v, [a]) == Undefined
  {
    assert [a][1..] == [];
  }

  /** The fields a rule can ask for. */
  lemma RulesSee(s: Snapshot)
    ensures var v := AsValue(s);
      && GetPathValue(v, ["borrower", "employmentStatus"]) == NullOr(s.employmentStatus)
      && GetPathValue(v, ["borrower", "incomeBand"]) == NullOr(s.incomeBand)
      && GetPathValue(v, ["borrower", "kycLevel"]) == NullOr(s.kycLevel)
      && GetPathValue(v, ["borrower", "hasActiveDefault"]) == Bool(s.hasActiveDefault)
      && GetPathValue(v, ["application", "requestedAmount"]) == Num(Finite(s.requestedAmount))
      && GetPathValue(v, ["application", "tenorDays"]) == Num(Finite(s.tenorDays))
      && GetPathValue(v, ["repaymentStats", "onTimeRate"]) == Num(Finite(s.onTimeRate))
      && GetPathValue(v, ["repaymentStats", "defaultsCount"]) == Num(Finite(s.defaultsCount))
      && GetPathValue(v, ["derived", "hasActiveDefault"]) == Bool(s.hasActiveDefault)
      && GetPathValue(v, ["deviceRisk", "isEmulator"])
           == (if s.isEmulator.Some? then Bool(s.isEmulator.value) else Null)
      && GetPathValue(v, ["metadata"]) == Undefined
  {
    var v := AsValue(s);
    TwoSteps(v, "borrower", "employmentStatus");
    TwoSteps(v, "borrower", "incomeBand");
    TwoSteps(v, "borrower", "kycLevel");
    TwoSteps(v, "borrower", "hasActiveDefault");
    TwoSteps(v, "application", "requestedAmount");
    TwoSteps(v, "application", "tenorDays");
    TwoSteps(v, "repaymentStats", "onTimeRate");
    TwoSteps(v, "repaymentStats", "defaultsCount");
    TwoSteps(v, "derived", "hasActiveDefault");
    TwoSteps(v, "deviceRisk", "isEmulator");
    MissingStep(v, "metadata");
  }

  function NullOr(s: Option<string>): Value { if s.Some? then Text(s.value) else Null }

  // --- the factors

  /** The nearest whole number, halves going up. */
  predicate IsNearest(n: int, x: real) { n as real - 0.5 <= x < n as real + 0.5 }

  /** What each factor adds, in points: the more the better the borrower stands, if the weights are not negative. */
  lemma FactorsAdd(s: Snapshot, w: Weights)
    ensures DEVICE_FLAG == "DEVICE_EMULATOR"
    ensures var c := FactorContributions(s, w);
      && |c| == (if s.isEmulator == Some(true) then 5 else 4)
      && c[0] == Contribution(
           "employmentStatus", if s.employmentStatus == Some("EMPLOYED") then 5 * w.employment else 0)
      && c[1].key == "incomeBand"
      && (s.incomeBand == Some("HIGH") ==> c[1].delta == 5 * w.income)
      && (s.incomeBand == Some("MEDIUM") ==> IsNearest(c[1].delta, 2.5 * w.income as real))
      && (s.incomeBand == Some("LOW") ==> IsNearest(c[1].delta, -2.5 * w.income as real))
      && (s.incomeBand !in {Some("HIGH"), Some("MEDIUM"), Some("LOW")} ==> c[1].delta == 0)
      && c[2].key == "repaymentHistory"
      && (s.onTimeRate >= 1.0 ==> c[2].delta == 5 * w.repayment)
      && (s.onTimeRate <= 0.0 ==> c[2].delta == -5 * w.repayment)
      && (0.0 <= s.onTimeRate <= 1.0 ==> IsNearest(c[2].delta, (10.0 * s.onTimeRate - 5.0) * w.repayment as real))
      && c[3] == Contribution("kycLevel",
           if s.kycLevel == Some("FULL") then 5 * w.kyc
           else if s.kycLevel == Some("PARTIAL") then w.kyc
           else -4 * w.kyc)
      && (s.isEmulator == Some(true) ==>
            c[4] == Contribution("deviceTrust", if w.device.Some? then -5 * w.device.value else -50))
  {
    RoundWhole(5 * w.employment);
    RoundWhole(0);
    RoundWhole(5 * w.income);
    RoundWhole(5 * w.repayment);
    RoundWhole(-5 * w.repayment);
    RoundWhole(5 * w.kyc);
    RoundWhole(w.kyc);
    RoundWhole(-4 * w.kyc);
  }

  // --- rules as a whole

  function RuleDelta(convert: Value -> Number, snapshot: Value): Rule -> int
  {
    rule => if Matches(convert, snapshot, rule) && rule.delta.Some? then rule.delta.value else 0
  }

  /** The soft contributions sum to the deltas of the matching soft rules. */
  lemma {:induction false} SoftSum(convert: Value -> Number, snapshot: Value, rules: seq<Rule>)
    ensures SumInt(Delta, SoftContributions(convert, snapshot, rules)) == SumInt(RuleDelta(convert, snapshot), rules)
  {
    if |rules| > 0 {
      var init, last := rules[..|rules| - 1], rules[|rules| - 1];
      SoftSum(convert, snapshot, init);
      assert rules == init + [last];
      SumIntSnoc(RuleDelta(convert, snapshot), init, last);
      var soft := SoftContributions(convert, snapshot, init);
      if Matches(convert, snapshot, last) && last.delta.Some? {
        SumIntSnoc(Delta, soft, Contribution("soft:" + last.code, last.delta.value));
      } else {
        assert soft + [] == soft;
      }
    }
  }

  lemma {:induction false} AnyMatch(convert: Value -> Number, snapshot: Value, rules: seq<Rule>)
    ensures MatchingCodes(convert, snapshot, rules) != []
       <==> exists i :: 0 <= i < |rules| && Matches(convert, snapshot, rules[i])
  {
    if |rules| > 0 {
      var n := |rules| - 1;
      AnyMatch(convert, snapshot, rules[..n]);
      if i :| 0 <= i < |rules| && Matches(convert, snapshot, rules[i]) {
        if i < n {
          assert Matches(convert, snapshot, rules[..n][i]);
        }
      }
      if i :| 0 <= i < n && Matches(convert, snapshot, rules[..n][i]) {
        assert Matches(convert, snapshot, rules[i]);
      }
    }
  }

  lemma OneRule(convert: Value -> Number, snapshot: Value, rule: Rule)
    ensures MatchingCodes(convert, snapshot, [rule]) == if Matches(convert, snapshot, rule) then [rule.code] else []
    ensures SoftContributions(convert, snapshot, [rule])
         == if Matches(convert, snapshot, rule) && rule.delta.Some?
            then [Contribution("soft:" + rule.code, rule.delta.value)] else []
  {
    assert [rule][..0] == [];
  }

  lemma RulesSnoc(convert: Value -> Number, snapshot: Value, rules: seq<Rule>, rule: Rule)
    ensures MatchingCodes(convert, snapshot, rules + [rule])
         == MatchingCodes(convert, snapshot, rules) + MatchingCodes(convert, snapshot, [rule])
    ensures SoftContributions(convert, snapshot, rules + [rule])
         == SoftContributions(convert, snapshot, rules) + SoftContributions(convert, snapshot, [rule])
  {
    assert (rules + [rule])[..|rules|] == rules && [rule][..0] == [];
  }

  lemma Regroup<T>(a: seq<T>, b: seq<T>, c: seq<T>)
    ensures a + b + c == a + (b + c)
  {
  }

  lemma {:induction false} RulesAppend(convert: Value -> Number, snapshot: Value, a: seq<Rule>, b: seq<Rule>)
    ensures MatchingCodes(convert, snapshot, a + b)
         == MatchingCodes(convert, snapshot, a) + MatchingCodes(convert, snapshot, b)
    ensures SoftContributions(convert, snapshot, a + b)
         == SoftContributions(convert, snapshot, a) + SoftContributions(convert, snapshot, b)
    decreases |b|
  {
    if |b| == 0 {
      assert a + b == a;
    } else {
      var init, last := b[..|b| - 1], b[|b| - 1];
      assert b == init + [last];
      RulesAppend(convert, snapshot, a, init);
      RulesSnoc(convert, snapshot, a + init, last);
      RulesSnoc(convert, snapshot, init, last);
      Regroup(a, init, [last]);
      Regroup(MatchingCodes(convert, snapshot, a), MatchingCodes(convert, snapshot, init),
        MatchingCodes(convert, snapshot, [last]));
      Regroup(SoftContributions(convert, snapshot, a), SoftContributions(convert, snapshot, init),
        SoftContributions(convert, snapshot, [last]));
    }
  }

  /**
   What is recorded of a list of rules is what is recorded of each rule, one after the other: the code of a rule
   that matches, and its delta, if it has one, under its code.
   */
  lemma RecordedRuleByRule(
    convert: Value -> Number, snapshot: Value, rules: seq<Rule>, more: seq<Rule>, rule: Rule)
    ensures MatchingCodes(convert, snapshot, rules + more)
         == MatchingCodes(convert, snapshot, rules) + MatchingCodes(convert, snapshot, more)
    ensures SoftContributions(convert, snapshot, rules + more)
         == SoftContributions(convert, snapshot, rules) + SoftContributions(convert, snapshot, more)
    ensures MatchingCodes(convert, snapshot, [rule]) == if Matches(convert, snapshot, rule) then [rule.code] else []
    ensures SoftContributions(convert, snapshot, [rule])
         == if Matches(convert, snapshot, rule) && rule.delta.Some?
            then [Contribution("soft:" + rule.code, rule.delta.value)] else []
  {
    OneRule(convert, snapshot, rule);
    RulesAppend(convert, snapshot, rules, more);
  }

  // --- score and decision

  ghost function RawScore(convert: Value -> Number, s: Snapshot, config: Config): int
  {
    500 + SumInt(Delta, FactorContributions(s, config.weights))
    + SumInt(RuleDelta(convert, AsValue(s)), config.softFlags)
  }

  ghost predicate HardMatch(convert: Value -> Number, s: Snapshot, config: Config)
  {
    exists i :: 0 <= i < |config.hardDeclines| && Matches(convert, AsValue(s), config.hardDeclines[i])
  }

  ghost function FinalScore(convert: Value -> Number, s: Snapshot, config: Config): int
  {
    var raw := RawScore(convert, s, config);
    var clamped := if raw < 0 then 0 else if raw > 1000 then 1000 else raw;
    if HardMatch(convert, s, config) && clamped > 400 then 400 else clamped
  }

  ghost function FinalDecision(convert: Value -> Number, s: Snapshot, config: Config): Decision
  {
    if HardMatch(convert, s, config) then Decline
    else if FinalScore(convert, s, config) >= config.approveMinScore then Approve
    else if FinalScore(convert, s, config) >= config.reviewMinScore then Review
    else Decline
  }

  /**
   Accounting: the assessment's score is 500 plus the factors and the deltas of the matching soft rules,
   kept within 0..1000, and at most 400 if any hard rule matches, which also declines.
   */
  lemma AssessmentIs(convert: Value -> Number, s: Snapshot, config: Config)
    ensures var contributions :=
      FactorContributions(s, config.weights) + SoftContributions(convert, AsValue(s), config.softFlags);
      var normalized := ClampScore((BASELINE + SumInt(Delta, contributions)) as real);
      var hard := MatchingCodes(convert, AsValue(s), config.hardDeclines);
      && (hard != [] <==> HardMatch(convert, s, config))
      && FinalScore(convert, s, config) == (if hard != [] && normalized > DECLINE_CAP then DECLINE_CAP else normalized)
      && FinalDecision(convert, s, config) == (if hard != [] then Decline else DecisionFor(config, normalized))
  {
    var factors := FactorContributions(s, config.weights);
    var soft := SoftContributions(convert, AsValue(s), config.softFlags);
    SumIntAppend(Delta, factors, soft);
    SoftSum(convert, AsValue(s), config.softFlags);
    RoundWhole(RawScore(convert, s, config));
    AnyMatch(convert, AsValue(s), config.hardDeclines);
  }

  /** The order of the rules does not matter. */
  lemma RuleOrderIsIrrelevant(convert: Value -> Number, s: Snapshot, a: Config, b: Config)
    requires a.weights == b.weights && a.approveMinScore == b.approveMinScore && a.reviewMinScore == b.reviewMinScore
    requires multiset(a.softFlags) == multiset(b.softFlags) && multiset(a.hardDeclines) == multiset(b.hardDeclines)
    ensures FinalScore(convert, s, a) == FinalScore(convert, s, b)
    ensures FinalDecision(convert, s, a) == FinalDecision(convert, s, b)
  {
    SumIntPermutation(RuleDelta(convert, AsValue(s)), a.softFlags, b.softFlags);
    if HardMatch(convert, s, a) {
      HardMatchMoves(convert, s, a, b);
    }
    if HardMatch(convert, s, b) {
      HardMatchMoves(convert, s, b, a);
    }
  }

  lemma HardMatchMoves(convert: Value -> Number, s: Snapshot, a: Config, b: Config)
    requires multiset(a.hardDeclines) == multiset(b.hardDeclines) && HardMatch(convert, s, a)
    ensures HardMatch(convert, s, b)
  {
    var i :| 0 <= i < |a.hardDeclines| && Matches(convert, AsValue(s), a.hardDeclines[i]);
    assert a.hardDeclines[i] in multiset(b.hardDeclines);
    var j :| 0 <= j < |b.hardDeclines| && b.hardDeclines[j] == a.hardDeclines[i];
  }

  function Rank(d: Decision): int
  {
    match d
    case Decline => 0
    case Review => 1
    case Approve => 2
  }

  /** Without a matching hard rule a higher score never gives a worse decision, whatever the thresholds. */
  lemma HigherScoreIsNoWorse(convert: Value -> Number, s: Snapshot, t: Snapshot, config: Config)
    requires !HardMatch(convert, s, config) && !HardMatch(convert, t, config)
    requires FinalScore(convert, s, config) <= FinalScore(convert, t, config)
    ensures Rank(FinalDecision(convert, s, config)) <= Rank(FinalDecision(convert, t, config))
  {
  }

  /** With the default policy a borrower in default is declined, whatever else the snapshot says. */
  lemma DefaulterIsDeclined(convert: Value -> Number, s: Snapshot, config: Config, i: nat)
    requires i < |config.hardDeclines| && s.hasActiveDefault
    requires var rule := config.hardDeclines[i];
      rule.field == ["borrower", "hasActiveDefault"] && rule.operator == Eq && rule.value == Bool(true)
    ensures FinalDecision(convert, s, config) == Decline && FinalScore(convert, s, config) <= 400
  {
    var rule := config.hardDeclines[i];
    assert GetPathValue(AsValue(s), rule.field) == Bool(true) by {
      var borrower := AsValue(s).fields["borrower"];
      assert rule.field[1..] == ["hasActiveDefault"] && rule.field[1..][1..] == [];
      assert GetPathValue(borrower, ["hasActiveDefault"]) == GetPathValue(borrower.fields["hasActiveDefault"], []);
    }
    assert Matches(convert, AsValue(s), rule);
  }
}
