/** Bucket widths: the "<n><unit>" strings, and the automatic choice. */
module Steps {
  import opened Options
  import opened Decimals

  /** strconv.Atoi: an optional sign and decimal digits, within 64 bits. */
  function Atoi(s: string): Option<int> {
    var signed := s != [] && (s[0] == '+' || s[0] == '-');
    var digits := if signed then s[1..] else s;
    if digits == [] || !IsDigits(digits) then None
    else
      var n: int := if signed && s[0] == '-' then 0 - Value(digits) else Value(digits);
      if -0x8000_0000_0000_0000 <= n < 0x8000_0000_0000_0000 then Some(n) else None
  }

  /** 64-bit wrap-around. */
  function Wrap(n: int): int {
    (n + 0x8000_0000_0000_0000) % 0x1_0000_0000_0000_0000 - 0x8000_0000_0000_0000
  }

  function UnitSeconds(unit: char): nat {
    match unit
    case 's' => 1
    case 'm' => 60
    case 'h' => 3600
    case 'd' => 86400
    case _ => 0
  }

  function StepSeconds(step: string): int {
    if |step| < 2 then 0
    else
      match Atoi(step[..|step| - 1])
      case None => 0
      case Some(n) => Wrap(n * UnitSeconds(step[|step| - 1]))
  }

  /** The pattern ^[0-9]{1,4}(s|m|h|d)$. */
  predicate MatchesPattern(step: string) {
    2 <= |step| <= 5 && IsDigits(step[..|step| - 1]) && step[|step| - 1] in {'s', 'm', 'h', 'd'}
  }

  const MICROS: int := 1_000_000
  const HOUR: int := 3600 * MICROS

  function ResolveStep(requested: string, from: int, to: int): string {
    if MatchesPattern(requested) then requested else AutoStep(to - from)
  }

  function AutoStep(span: int): string {
    if span <= HOUR then "5s"
    else if span <= 6 * HOUR then "30s"
    else if span <= 24 * HOUR then "2m"
    else if span <= 7 * 24 * HOUR then "15m"
    else if span <= 31 * 24 * HOUR then "1h"
    else "6h"
  }

  const MINUTE_ROLLUP: int := 60
  const SECOND_ROLLUP: int := 1

  /** The width in seconds of the table QuerySeries reads for a step; None for the raw readings. */
  function RollupSeconds(step: string): Option<int> {
    var sec := StepSeconds(step);
    if sec >= 60 then Some(MINUTE_ROLLUP) else if sec >= 1 then Some(SECOND_ROLLUP) else None
  }

  lemma {:induction false} ValueBound(s: string)
    requires IsDigits(s)
    ensures Value(s) < Pow10(|s|)
  {
    if s != [] {
      ValueBound(s[..|s| - 1]);
    }
  }

  lemma FourDigits(digits: string)
    requires 1 <= |digits| <= 4 && IsDigits(digits)
    ensures Atoi(digits) == Some(Value(digits)) && Value(digits) <= 9999
  {
    ValueBound(digits);
    assert Pow10(4) == 10000;
    assert Pow10(|digits|) <= 10000;
    assert digits[0] != '+' && digits[0] != '-';
  }

  /** A step the pattern lets through means what it says: no error, no wrap-around, never negative. */
  lemma PatternStepSeconds(step: string)
    requires MatchesPattern(step)
    ensures IsDigits(step[..|step| - 1])
    ensures StepSeconds(step) == Value(step[..|step| - 1]) * UnitSeconds(step[|step| - 1])
    ensures 0 <= StepSeconds(step) <= 9999 * 86400
  {
    var digits := step[..|step| - 1];
    FourDigits(digits);
    SmallProduct(Value(digits), UnitSeconds(step[|step| - 1]));
  }

  lemma ProductMonotone(a: nat, b: nat, c: nat)
    requires a <= b
    ensures 0 <= a * c <= b * c
  {
  }

  lemma SmallProduct(n: nat, unit: nat)
    requires n <= 9999 && unit <= 86400
    ensures 0 <= n * unit <= 9999 * 86400
  {
    ProductMonotone(n, 9999, unit);
    assert 9999 * unit <= 9999 * 86400;
  }

  /** The steps that no rollup serves exactly: 60 seconds or more in odd seconds, such as "90s". */
  predicate OddStep(step: string) {
    step != "" && step[|step| - 1] == 's' && StepSeconds(step) >= 60 && StepSeconds(step) % 60 != 0
  }

  /**
   * A caller's step is a multiple of the rollup it is answered from, unless it is 60 seconds or more in odd seconds.
   */
  lemma DividesIff(step: string)
    requires MatchesPattern(step) && StepSeconds(step) >= 1
    ensures StepSeconds(step) % RollupSeconds(step).value == 0 <==> !OddStep(step)
  {
    PatternStepSeconds(step);
    UnitsDivide(Value(step[..|step| - 1]));
  }

  lemma SixtyDivides(n: nat)
    ensures (n * 60) % 60 == 0
  {
  }

  lemma UnitsDivide(n: nat)
    ensures (n * 60) % 60 == 0 && (n * 3600) % 60 == 0 && (n * 86400) % 60 == 0
  {
    SixtyDivides(n);
    SixtyDivides(n * 60);
    SixtyDivides(n * 1440);
  }

  /** The automatic choice in numbers. */
  function AutoSeconds(span: int): int {
    if span <= HOUR then 5
    else if span <= 6 * HOUR then 30
    else if span <= 24 * HOUR then 120
    else if span <= 7 * 24 * HOUR then 900
    else if span <= 31 * 24 * HOUR then 3600
    else 21600
  }

  function AutoRollup(span: int): int {
    if span <= 6 * HOUR then SECOND_ROLLUP else MINUTE_ROLLUP
  }

  /** A number of one or two digits and a unit mean their product. */
  lemma ShortStep(step: string, tens: nat, ones: nat)
    requires tens < 10 && ones < 10 && |step| >= 1 && step[|step| - 1] in {'s', 'm', 'h', 'd'}
    requires step[..|step| - 1] == if tens == 0 then [Digit(ones)] else [Digit(tens), Digit(ones)]
    ensures StepSeconds(step) == (10 * tens + ones) * UnitSeconds(step[|step| - 1])
  {
    var digits := step[..|step| - 1];
    assert Value([]) == 0;
    if tens == 0 {
      assert Value(digits) == ones;
    } else {
      assert digits[..1] == [Digit(tens)] && Value([Digit(tens)]) == tens;
      assert Value(digits) == 10 * tens + ones;
    }
    PatternStepSeconds(step);
  }

  lemma AutoStepIs(span: int)
    ensures StepSeconds(AutoStep(span)) == AutoSeconds(span)
  {
    if span <= HOUR {
      ShortStep("5s", 0, 5);
    } else if span <= 6 * HOUR {
      ShortStep("30s", 3, 0);
    } else if span <= 24 * HOUR {
      ShortStep("2m", 0, 2);
    } else if span <= 7 * 24 * HOUR {
      ShortStep("15m", 1, 5);
    } else if span <= 31 * 24 * HOUR {
      ShortStep("1h", 0, 1);
    } else {
      ShortStep("6h", 0, 6);
    }
  }

  /** Every automatic step is a whole number of the rollup buckets it is answered from, and few of them fill 31 days. */
  lemma AutoStepSafe(span: int)
    ensures StepSeconds(AutoStep(span)) == AutoSeconds(span)
    ensures RollupSeconds(AutoStep(span)) == Some(AutoRollup(span))
    ensures AutoSeconds(span) % AutoRollup(span) == 0
    ensures span <= 31 * 24 * HOUR ==> span <= 744 * AutoSeconds(span) * MICROS
  {
    AutoStepIs(span);
  }
}
