/** Answer evaluation and run scoring (lib/scoring.ts). */
module Scoring {
  import opened Wrappers
  import opened Text
  import opened JsNumber
  import opened Types

  /** The boolean reading of an answer: "yes" or "true" occurs in it,
      ignoring case. */
  predicate SaysYes(answer: string) {
    Contains(ToLower(answer), "yes") || Contains(ToLower(answer), "true")
  }

  /** The comparison a number question asks for. */
  predicate Compare(c: Comparator, x: Num, threshold: Num) {
    match c
    case Ge => NumLe(threshold, x)
    case Le => NumLe(x, threshold)
    case Gt => !NumLe(x, threshold)
    case Lt => !NumLe(threshold, x)
    case Eq => NumLe(x, threshold) && NumLe(threshold, x)
  }

  /** `evaluateAnswer`: whether `answer` passes question `q`. */
  predicate EvaluateAnswer(q: Question, answer: string) {
    match q.qtype
    case BooleanType =>
      q.expectedBoolean.Some? && SaysYes(answer) == q.expectedBoolean.value
    case NumberType =>
      (match ParseFloat(answer)
       case None => false
       case Some(x) => q.threshold.Some? && q.comparator.Some? && Compare(q.comparator.value, x, q.threshold.value))
    case EnumType =>
      q.expectedEnum.Some? && q.expectedEnum.value != "" && Contains(ToLower(answer), ToLower(q.expectedEnum.value))
    case LookupType => true
    case OtherType(_) => false
  }

  /** A boolean question passes iff its expected value is set and equals
      whether "yes" or "true" occurs somewhere in the lower-cased answer. */
  lemma EvaluateBoolean(q: Question, answer: string)
    requires q.qtype == BooleanType
    ensures EvaluateAnswer(q, answer) <==>
      q.expectedBoolean.Some? &&
      ((exists i :: OccursAt(ToLower(answer), "yes", i)) || (exists i :: OccursAt(ToLower(answer), "true", i)))
        == q.expectedBoolean.value
  {
  }

  /** An enum question passes iff its expected value is non-empty and occurs,
      lower-cased, somewhere in the lower-cased answer. */
  lemma EvaluateEnum(q: Question, answer: string)
    requires q.qtype == EnumType
    ensures EvaluateAnswer(q, answer) <==>
      q.expectedEnum.Some? && q.expectedEnum.value != "" &&
      exists i :: OccursAt(ToLower(answer), ToLower(q.expectedEnum.value), i)
  {
  }

  /** Lookup questions always pass; questions of any other tag never do. */
  lemma EvaluateLookupAndOther(q: Question, answer: string)
    ensures q.qtype == LookupType ==> EvaluateAnswer(q, answer)
    ensures q.qtype.OtherType? ==> !EvaluateAnswer(q, answer)
  {
  }

  /** A number question fails whenever the answer does not parse or the
      threshold or comparator is missing. */
  lemma EvaluateNumberNeedsAll(q: Question, answer: string)
    requires q.qtype == NumberType
    requires ParseFloat(answer).None? || q.threshold.None? || q.comparator.None?
    ensures !EvaluateAnswer(q, answer)
  {
  }

  /** On the digit strings the number extraction produces, a number question
      compares the integer the digits spell with its threshold. */
  lemma EvaluateNumberDigits(q: Question, answer: string)
    requires q.qtype == NumberType
    requires |answer| > 0 && AllDigits(answer)
    requires q.threshold.Some? && q.comparator.Some?
    ensures EvaluateAnswer(q, answer) <==>
      Compare(q.comparator.value, Finite(Decimal(DigitsValue(answer), 0)), q.threshold.value)
  {
    ParseFloatDigits(answer);
  }

  /** With a finite threshold, the comparison is the one on the real values. */
  lemma CompareFinite(c: Comparator, x: Decimal, t: Decimal)
    ensures Compare(c, Finite(x), Finite(t)) <==>
      match c
      case Ge => x.Value() >= t.Value()
      case Le => x.Value() <= t.Value()
      case Gt => x.Value() > t.Value()
      case Lt => x.Value() < t.Value()
      case Eq => x.Value() == t.Value()
  {
  }

  // ---------------------------------------------------------------------------
  // calculateScore

  datatype Verdict = FailCritical | Bid | Pass | NoQuestions {
    /** The verdict string the source produces. */
    function Label(): string {
      match this
      case FailCritical => "Fail (critical)"
      case Bid => "Bid"
      case Pass => "Pass"
      case NoQuestions => "No questions"
    }
  }

  datatype ScoreSummary = ScoreSummary(
    finalScore: int,
    baseScore: int,
    hasCriticalFail: bool,
    verdict: Verdict)

  /** `results.some(r => r.critical && !r.passed)`. */
  predicate HasCriticalFail(results: seq<TestResult>)
    ensures HasCriticalFail(results) <==>
      exists i :: 0 <= i < |results| && results[i].critical && !results[i].passed
  {
    if results == [] then false
    else (results[0].critical && !results[0].passed) || HasCriticalFail(results[1..])
  }

  /** Sum of all weights. */
  function TotalWeight(results: seq<TestResult>): int {
    if results == [] then 0 else results[0].weight + TotalWeight(results[1..])
  }

  /** Sum of the weights of passed results. */
  function EarnedWeight(results: seq<TestResult>): int {
    if results == [] then 0
    else (if results[0].passed then results[0].weight else 0) + EarnedWeight(results[1..])
  }

  /** With non-negative weights, what is earned lies between 0 and the total. */
  lemma {:induction false} EarnedWithinTotal(results: seq<TestResult>)
    requires forall i :: 0 <= i < |results| ==> results[i].weight >= 0
    ensures 0 <= EarnedWeight(results) <= TotalWeight(results)
  {
    if results != [] {
      EarnedWithinTotal(results[1..]);
    }
  }

  /** `Math.round(earned / total * 100)` on exact rationals: the nearest
      integer to `100 * earned / total`, halves rounded up. */
  function RoundedPercent(earned: int, total: int): (r: int)
    requires total > 0
    ensures total * (2 * r - 1) <= 200 * earned < total * (2 * r + 1)
  {
    var q := (200 * earned + total) / (2 * total);
    assert 2 * total * q <= 200 * earned + total < 2 * total * q + 2 * total;
    q
  }

  /** A percentage of a part of a non-negative total lies in 0..100. */
  lemma RoundedPercentBounds(earned: int, total: int)
    requires 0 <= earned <= total && total > 0
    ensures 0 <= RoundedPercent(earned, total) <= 100
  {
    var r := RoundedPercent(earned, total);
    MulPosCancel(total, 2 * r + 1, 0);
    MulPosCancel(total, 2 * r - 1, 200);
  }

  /** Multiplying by a positive factor keeps the order. */
  lemma MulPosCancel(a: int, b: int, c: int)
    requires a > 0
    ensures a * b <= a * c <==> b <= c
  {
    assert a * c - a * b == a * (c - b);
  }

  /** Earning the whole total rounds to exactly 100. */
  lemma RoundedPercentFull(total: int)
    requires total > 0
    ensures RoundedPercent(total, total) == 100
  {
    var r := RoundedPercent(total, total);
    assert total * (2 * r - 1) <= total * 200 < total * (2 * r + 1);
  }

  /** `calculateScore`. */
  function CalculateScore(results: seq<TestResult>): (s: ScoreSummary)
    ensures results == [] ==> s == ScoreSummary(0, 0, false, NoQuestions)
    ensures results != [] ==> s.verdict != NoQuestions
    ensures s.hasCriticalFail <==> exists i :: 0 <= i < |results| && results[i].critical && !results[i].passed
    ensures s.hasCriticalFail ==> s.finalScore == 0 && s.verdict == FailCritical
    ensures !s.hasCriticalFail ==> s.finalScore == s.baseScore
    ensures results != [] && !s.hasCriticalFail ==> (s.verdict == Bid <==> s.baseScore >= 70)
    ensures results != [] && !s.hasCriticalFail ==> (s.verdict == Pass <==> s.baseScore < 70)
    ensures TotalWeight(results) <= 0 ==> s.baseScore == 0
    ensures TotalWeight(results) > 0 ==> s.baseScore == RoundedPercent(EarnedWeight(results), TotalWeight(results))
  {
    if results == [] then ScoreSummary(0, 0, false, NoQuestions)
    else
      var crit := HasCriticalFail(results);
      var total := TotalWeight(results);
      var earned := EarnedWeight(results);
      var base := if total > 0 then RoundedPercent(earned, total) else 0;
      var final := if crit then 0 else base;
      var verdict := if crit then FailCritical else if base >= 70 then Bid else Pass;
      ScoreSummary(final, base, crit, verdict)
  }

  /** With the 0..10 weights the pack editor allows, both scores lie in
      0..100 and the critical override can only lower the score. */
  lemma ScoreBounds(results: seq<TestResult>)
    requires forall i :: 0 <= i < |results| ==> results[i].weight >= 0
    ensures var s := CalculateScore(results);
      0 <= s.finalScore <= s.baseScore <= 100
  {
    EarnedWithinTotal(results);
    if TotalWeight(results) > 0 {
      RoundedPercentBounds(EarnedWeight(results), TotalWeight(results));
    }
  }

  /** Every result passing with a positive total gives a full score, and no
      critical failure: the verdict is Bid. */
  lemma {:induction false} AllPassedScoresFull(results: seq<TestResult>)
    requires forall i :: 0 <= i < |results| ==> results[i].passed
    requires TotalWeight(results) > 0
    ensures CalculateScore(results) == ScoreSummary(100, 100, false, Bid)
  {
    AllPassedEarnsTotal(results);
    RoundedPercentFull(TotalWeight(results));
  }

  lemma {:induction false} AllPassedEarnsTotal(results: seq<TestResult>)
    requires forall i :: 0 <= i < |results| ==> results[i].passed
    ensures EarnedWeight(results) == TotalWeight(results)
  {
    if results != [] {
      AllPassedEarnsTotal(results[1..]);
    }
  }
}
