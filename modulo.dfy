/**
 * The PHP `%` operator on integers, integer intervals, booleans, strings and
 * unknown values, as the analyser evaluates it. A divisor that is (or may be)
 * zero reports a division-by-zero warning; the result of a certain modulo by
 * zero is `false`, that of a possible one "any value".
 */
module ModuloOperation {
  import opened Wrappers
  import opened CSharp
  import opened Values
  import opened AnalysisWarnings
  import opened Evaluation
  import TypeConversion

  // The messages of the errors this module reports.
  const ModuloByFalseMessage := "Modulo by zero (converted from boolean false)"

  const WarnModuloByZero: Outcome := DivisionByZeroWarning(Bool(false), "Modulo by zero")

  const WarnPossibleModuloByZero: Outcome :=
    DivisionByZeroWarning(AnyValue, "Division by any integer, possible division by zero")

  /**
   * "The remainder of `dividend` by `divisor`" as PHP means it: a number of the
   * dividend's sign, smaller than the divisor in magnitude, that differs from the
   * dividend by a multiple of the divisor.
   */
  ghost predicate IsRemainder(v: int, dividend: int, divisor: int) {
    divisor != 0 && (dividend - v) % Abs(divisor) == 0 && Abs(v) < Abs(divisor) &&
    (dividend >= 0 ==> v >= 0) && (dividend <= 0 ==> v <= 0)
  }

  // ---------------------------------------------------------------------------
  // Integer dividend, integer divisor

  /**
   * `Modulo(int, int)` as written: C#'s `%` raises an overflow exception for
   * `int.MinValue % -1`, so the analysis of that expression fails instead of
   * yielding PHP's result 0.
   */
  function ModuloIntsAsWritten(dividend: Int32, divisor: Int32): (r: Result<Outcome, string>)
    ensures r.Err? <==> dividend == MinValue && divisor == -1
  {
    if divisor != 0 then
      if dividend == MinValue && divisor == -1 then Err(OverflowExceptionName)
      else Ok(Quiet(Int(TMod(dividend, divisor))))
    else Ok(WarnModuloByZero)
  }

  lemma ModuloIntsAsWrittenOverflows()
    ensures ModuloIntsAsWritten(MinValue, -1).Err?
    ensures IsRemainder(0, MinValue, -1)
  {
  }

  /**
   * `Modulo(int, int)`: the remainder, whose sign follows the dividend, or
   * `false` with a warning when the divisor is 0.
   */
  function ModuloInts(dividend: Int32, divisor: Int32): (r: Outcome)
    ensures divisor != 0 ==> r.warning.None? && r.value.Int? && IsRemainder(r.value.i, dividend, divisor)
    ensures divisor == 0 ==> r == WarnModuloByZero
  {
    if divisor != 0 then
      RemainderMeetsDefinition(dividend, divisor);
      Quiet(Int(TMod(dividend, divisor)))
    else WarnModuloByZero
  }

  /** C#'s `%` computes the remainder. */
  lemma RemainderMeetsDefinition(dividend: int, divisor: int)
    requires divisor != 0
    ensures IsRemainder(TMod(dividend, divisor), dividend, divisor)
  {
    var q := TDiv(dividend, divisor);
    DivisionIdentity(dividend, divisor);
    RemainderBounds(dividend, divisor);
    var d := Abs(divisor);
    var k := if divisor > 0 then q else -q;
    assert q * divisor == k * d;
    DivisionUnique(dividend - TMod(dividend, divisor), d, k, 0);
  }

  /** The remainder is the only value that meets its definition. */
  lemma RemainderIsUnique(v: int, w: int, dividend: int, divisor: int)
    requires divisor != 0 && IsRemainder(v, dividend, divisor) && IsRemainder(w, dividend, divisor)
    ensures v == w
  {
    var d := Abs(divisor);
    var p, q := (dividend - v) / d, (dividend - w) / d;
    assert dividend - v == p * d;
    assert dividend - w == q * d;
    assert w - v == (p - q) * d;
    if p > q {
      MultipleAtLeast(p - q, d);
    } else if p < q {
      MultipleAtLeast(q - p, d);
    }
  }

  /**
   * `Modulo(string, int)`: the string is read as a PHP number; an integer is
   * reduced exactly, any other number gives the worst-case remainder interval.
   */
  function ModuloStringByInt(dividend: string, divisor: Int32): (r: Outcome)
    ensures divisor == 0 ==> r == WarnModuloByZero
    ensures divisor != 0 ==> r.warning.None? && (r.value.Int? || r.value.IntInterval?)
  {
    if divisor != 0 then
      var n := TypeConversion.ConvertToNumber(dividend, false);
      if n.isInteger then ModuloInts(n.integerValue, divisor)
      else Quiet(IntervalValue(WorstModuloResult(divisor)))
    else WarnModuloByZero
  }

  /** A dividend written as the decimal string of an integer behaves as that integer. */
  lemma ModuloOfPrintedInteger(n: Int32, divisor: Int32)
    ensures ModuloStringByInt(TypeConversion.ToStringInt(n), divisor) == ModuloInts(n, divisor)
  {
    TypeConversion.ToStringIntRoundTrip(n);
  }

  /**
   * `Modulo(string, int)` as written: the integer read from the string is
   * reduced with C#'s `%`, which overflows for the text of `int.MinValue` and
   * the divisor -1. Every other input gives the corrected result.
   */
  function ModuloStringByIntAsWritten(dividend: string, divisor: Int32): (r: Result<Outcome, string>)
    ensures r.Err? <==> divisor == -1 && TypeConversion.ConvertToNumber(dividend, false).isInteger
                        && TypeConversion.ConvertToNumber(dividend, false).integerValue == MinValue
    ensures r.Ok? ==> r.value == ModuloStringByInt(dividend, divisor)
  {
    if divisor != 0 then
      var n := TypeConversion.ConvertToNumber(dividend, false);
      if n.isInteger then ModuloIntsAsWritten(n.integerValue, divisor)
      else Ok(Quiet(IntervalValue(WorstModuloResult(divisor))))
    else Ok(WarnModuloByZero)
  }

  /** As written, the decimal string of an integer fails exactly where the integer does. */
  lemma ModuloOfPrintedIntegerAsWritten(n: Int32, divisor: Int32)
    ensures ModuloStringByIntAsWritten(TypeConversion.ToStringInt(n), divisor) == ModuloIntsAsWritten(n, divisor)
  {
    TypeConversion.ToStringIntRoundTrip(n);
  }

  /** The text of `int.MinValue` modulo -1 fails as written, where PHP's remainder is 0. */
  lemma ModuloStringByIntAsWrittenOverflows()
    ensures ModuloStringByIntAsWritten(TypeConversion.ToStringInt(MinValue), -1).Err?
    ensures ModuloStringByInt(TypeConversion.ToStringInt(MinValue), -1) == Quiet(Int(0))
  {
    ModuloOfPrintedIntegerAsWritten(MinValue, -1);
    ModuloOfPrintedInteger(MinValue, -1);
  }

  // ---------------------------------------------------------------------------
  // Interval dividend, integer divisor

  /** The remainders of the non-negative dividends `[s, e]`. */
  function PositiveDividendModulo(s: Int32, e: Int32, r: Int32): (res: Interval)
    requires 0 <= s && r != 0
    ensures res.Start >= 0 && (e >= 0 ==> res.End >= 0)
  {
    if r == MinValue then Interval(s, e)
    else
      var m := if r < 0 then -r else r;
      if e - s >= m - 1 then Interval(0, m - 1)
      else
        var rs := TMod(s, m);
        var re := TMod(e, m);
        RemainderBounds(s, m);
        RemainderBounds(e, m);
        if rs <= re then Interval(rs, re) else Interval(0, m - 1)
  }

  /** Every dividend in `[s, e]` has its remainder inside `PositiveDividendModulo(s, e, r)`. */
  lemma PositiveDividendModuloSound(s: Int32, e: Int32, r: Int32, x: int)
    requires 0 <= s <= x <= e && r != 0
    ensures PositiveDividendModulo(s, e, r).Contains(TMod(x, r))
  {
    if r == MinValue {
      RemainderOfSmallDividend(x, r);
    } else {
      var m := if r < 0 then -r else r;
      RemainderIgnoresDivisorSign(x, r);
      assert TMod(x, r) == TMod(x, m) == x % m;
      if e - s < m - 1 && TMod(s, m) <= TMod(e, m) {
        RemainderRunWithoutWrap(s, e, x, m);
      }
    }
  }

  /**
   * A run of at least `|r|` consecutive non-negative dividends yields every
   * remainder from 0 to `|r| - 1`, so the full range is the tightest answer.
   */
  lemma PositiveDividendModuloFullRange(s: Int32, e: Int32, r: Int32, v: int)
    requires 0 <= s && r != 0 && r != MinValue && e - s >= Abs(r) - 1 && 0 <= v < Abs(r)
    ensures PositiveDividendModulo(s, e, r) == Interval(0, Abs(r) - 1)
    ensures exists x :: s <= x <= e && TMod(x, r) == v
  {
    var x := RemainderReached(s, Abs(r), v);
    RemainderIgnoresDivisorSign(x, r);
    assert TMod(x, r) == v;
  }

  /** Among `m` consecutive non-negative numbers from `s` on, one has the remainder `v` modulo `m`. */
  lemma RemainderReached(s: int, m: int, v: int) returns (x: int)
    requires 0 <= s && 0 <= v < m
    ensures s <= x < s + m && x % m == v
  {
    var k := (v - s) % m;
    x := s + k;
    var q := s / m;
    assert s == q * m + s % m;
    if s % m <= v {
      assert k == v - s % m by { DivisionUnique(v - s, m, -q, v - s % m); }
      DivisionUnique(x, m, q, v);
    } else {
      assert k == v - s % m + m by { DivisionUnique(v - s, m, -q - 1, v - s % m + m); }
      DivisionUnique(x, m, q + 1, v);
    }
  }

  /**
   * `NegativeDividendModulo` as written: the width `e - s` is computed in
   * unchecked 32-bit arithmetic, which wraps when `s` is `int.MinValue` and `e`
   * is 0.
   */
  function NegativeDividendModuloAsWritten(s: Int32, e: Int32, r: Int32): (res: Interval)
    requires s <= 0 && e <= 0 && r != 0
    ensures res.Start <= 0 && res.End <= 0
  {
    if r == MinValue then
      if s > MinValue then Interval(s, e)
      else if e > MinValue then Interval(MinValue + 1, 0)
      else Interval(0, 0)
    else
      var m := if r < 0 then -r else r;
      if Wrap32(e - s) >= m - 1 then Interval(1 - m, 0)
      else
        var rs := TMod(s, m);
        var re := TMod(e, m);
        RemainderBounds(s, m);
        RemainderBounds(e, m);
        if rs <= re then Interval(rs, re) else Interval(1 - m, 0)
  }

  /**
   * For the dividends `[int.MinValue, 0]` and divisor 2 the code as written
   * answers `[0, 0]`, although the dividend -1 leaves the remainder -1.
   */
  lemma NegativeDividendModuloAsWrittenMissesRemainder()
    ensures NegativeDividendModuloAsWritten(MinValue, 0, 2) == Interval(0, 0)
    ensures MinValue <= -1 <= 0 && TMod(-1, 2) == -1
    ensures !NegativeDividendModuloAsWritten(MinValue, 0, 2).Contains(TMod(-1, 2))
  {
    assert Wrap32(0 - MinValue) == MinValue;
  }

  /**
   * The remainders of the non-positive dividends `[s, e]`, with the width of the
   * run computed exactly.
   */
  function NegativeDividendModulo(s: Int32, e: Int32, r: Int32): (res: Interval)
    requires s <= 0 && e <= 0 && r != 0
    ensures res.Start <= 0 && res.End <= 0
  {
    if r == MinValue then
      if s > MinValue then Interval(s, e)
      else if e > MinValue then Interval(MinValue + 1, 0)
      else Interval(0, 0)
    else
      var m := if r < 0 then -r else r;
      if e - s >= m - 1 then Interval(1 - m, 0)
      else
        var rs := TMod(s, m);
        var re := TMod(e, m);
        RemainderBounds(s, m);
        RemainderBounds(e, m);
        if rs <= re then Interval(rs, re) else Interval(1 - m, 0)
  }

  /** Every dividend in `[s, e]` has its remainder inside `NegativeDividendModulo(s, e, r)`. */
  lemma NegativeDividendModuloSound(s: Int32, e: Int32, r: Int32, x: int)
    requires s <= x <= e <= 0 && r != 0
    ensures NegativeDividendModulo(s, e, r).Contains(TMod(x, r))
  {
    var res := NegativeDividendModulo(s, e, r);
    if r == MinValue {
      if x > MinValue {
        RemainderOfSmallDividend(x, r);
      } else {
        assert TMod(x, r) == 0 by { DivisionUnique(Abs(x), Abs(r), 1, 0); }
      }
    } else {
      var m := if r < 0 then -r else r;
      assert TMod(x, r) == TMod(x, m) by { RemainderIgnoresDivisorSign(x, r); }
      var v := TMod(x, m);
      assert 1 - m <= v <= 0 by { RemainderBounds(x, m); }
      if e - s >= m - 1 {
        assert res == Interval(1 - m, 0);
      } else if TMod(s, m) <= TMod(e, m) {
        assert res == Interval(TMod(s, m), TMod(e, m));
        NegativeRunWithoutWrap(s, e, x, m);
      } else {
        assert res == Interval(1 - m, 0);
      }
    }
  }

  lemma NonPositiveRemainder(s: int, m: int)
    requires s <= 0 && 0 < m
    ensures TMod(s, m) == -((-s) % m)
  {
  }

  /** The mirror image of `RemainderRunWithoutWrap` for non-positive dividends. */
  lemma NegativeRunWithoutWrap(s: int, e: int, x: int, m: int)
    requires s <= x <= e <= 0 && 0 < m && e - s < m && TMod(s, m) <= TMod(e, m)
    ensures TMod(s, m) <= TMod(x, m) <= TMod(e, m)
  {
    NonPositiveRemainder(s, m);
    NonPositiveRemainder(e, m);
    NonPositiveRemainder(x, m);
    var a, b, c := -e, -s, -x;
    assert a % m <= b % m;
    RemainderRunWithoutWrap(a, b, c, m);
  }



  /**
   * The private `Modulo(snapshot, interval, int)`: non-negative and non-positive
   * dividends are handled directly, a dividend interval straddling 0 is split at
   * 0 and the halves joined, and an interval that shrinks to one number becomes
   * that integer.
   */
  function DividendIntervalModulo(dividend: Interval, divisor: Int32): (r: Value)
    requires dividend.IsInt32() && divisor != 0
    ensures r.Int? || (r.IntInterval? && r.Start < r.End)
  {
    var i :=
      if dividend.Start >= 0 then PositiveDividendModulo(dividend.Start, dividend.End, divisor)
      else if dividend.End <= 0 then NegativeDividendModulo(dividend.Start, dividend.End, divisor)
      else
        Interval(NegativeDividendModulo(dividend.Start, 0, divisor).Start,
                 PositiveDividendModulo(0, dividend.End, divisor).End);
    if i.Start < i.End then IntervalValue(i) else Int(i.Start)
  }

  /** Every dividend of the interval has its remainder admitted by the result. */
  lemma DividendIntervalModuloSound(dividend: Interval, divisor: Int32, x: int)
    requires dividend.IsInt32() && divisor != 0 && dividend.Contains(x)
    ensures DividendIntervalModulo(dividend, divisor).Admits(TMod(x, divisor))
  {
    var s, e := dividend.Start, dividend.End;
    if s >= 0 {
      PositiveDividendModuloSound(s, e, divisor, x);
    } else if e <= 0 {
      NegativeDividendModuloSound(s, e, divisor, x);
    } else if x <= 0 {
      NegativeDividendModuloSound(s, 0, divisor, x);
    } else {
      PositiveDividendModuloSound(0, e, divisor, x);
    }
  }

  /** `Modulo(interval, int)`: zero divisor warns, otherwise the interval remainder. */
  function ModuloIntervalByInt(dividend: Interval, divisor: Int32): (r: Outcome)
    requires dividend.IsInt32()
    ensures divisor == 0 ==> r == WarnModuloByZero
    ensures divisor != 0 ==> r.warning.None?
    ensures divisor != 0 ==> forall x :: dividend.Contains(x) ==> r.value.Admits(TMod(x, divisor))
  {
    if divisor != 0 then
      var v := DividendIntervalModulo(dividend, divisor);
      assert forall x :: dividend.Contains(x) ==> v.Admits(TMod(x, divisor)) by {
        forall x | dividend.Contains(x) {
          DividendIntervalModuloSound(dividend, divisor, x);
        }
      }
      Quiet(v)
    else WarnModuloByZero
  }

  /** The integer interval that stands for "any boolean": `[0, 1]`. */
  const BooleanInterval: Interval := Interval(0, 1)

  /** `LeftAbstractBooleanModulo(int)`: the dividend is 0 or 1. */
  function LeftAbstractBooleanModulo(divisor: Int32): (r: Outcome)
    ensures divisor == 0 ==> r == WarnModuloByZero
    ensures divisor != 0 ==> r.warning.None?
    ensures divisor != 0 ==> forall b: bool :: r.value.Admits(TMod(TypeConversion.ToIntegerBool(b), divisor))
  {
    var r := ModuloIntervalByInt(BooleanInterval, divisor);
    assert forall b: bool :: BooleanInterval.Contains(TypeConversion.ToIntegerBool(b));
    r
  }

  // ---------------------------------------------------------------------------
  // Unknown dividend

  /** The remainders any dividend can leave: `[1-d, d-1]` for d > 0, `[d+1, -(d+1)]` for d < 0. */
  function WorstModuloResult(divisor: Int32): (r: Interval)
    requires divisor != 0
  {
    if divisor > 0 then Interval(1 - divisor, divisor - 1)
    else
      var bound := divisor + 1;
      Interval(bound, -bound)
  }

  /** Every dividend's remainder lies in the worst-case interval, and both ends are reached. */
  lemma WorstModuloResultSoundAndTight(divisor: Int32, x: int)
    requires divisor != 0
    ensures WorstModuloResult(divisor).Contains(TMod(x, divisor))
    ensures TMod(WorstModuloResult(divisor).Start, divisor) == WorstModuloResult(divisor).Start
    ensures TMod(WorstModuloResult(divisor).End, divisor) == WorstModuloResult(divisor).End
  {
    var w := WorstModuloResult(divisor);
    RemainderBounds(x, divisor);
    RemainderOfSmallDividend(w.Start, divisor);
    RemainderOfSmallDividend(w.End, divisor);
  }

  /** `AbstractModulo(int)`: an unknown dividend gives the worst-case interval. */
  function AbstractModuloInt(divisor: Int32): (r: Outcome)
    ensures divisor == 0 ==> r == WarnModuloByZero
    ensures divisor != 0 ==> r.warning.None? && forall x :: r.value.Admits(TMod(x, divisor))
  {
    if divisor != 0 then
      assert forall x :: WorstModuloResult(divisor).Contains(TMod(x, divisor)) by {
        forall x { WorstModuloResultSoundAndTight(divisor, x); }
      }
      Quiet(IntervalValue(WorstModuloResult(divisor)))
    else WarnModuloByZero
  }

  // ---------------------------------------------------------------------------
  // Integer interval divisor

  /**
   * `Modulo(int, interval)`: the result stays within the dividend's magnitude
   * and, when the divisors are no larger than the dividend, within half of it;
   * divisors all beyond the dividend leave the dividend itself; a divisor
   * interval containing 0 gives "any value" with a warning.
   */
  function ModuloIntByInterval(dividend: Int32, divisor: Interval): (r: Outcome)
    requires divisor.IsInt32()
    ensures r.warning.Some? <==> divisor.Contains(0)
    ensures divisor.Contains(0) ==> r == WarnPossibleModuloByZero
    ensures dividend > MinValue && (divisor.Start > Abs(dividend) || divisor.End < -(Abs(dividend) as int)) ==>
      r == Quiet(Int(dividend))
  {
    if dividend > MinValue then
      var leftBound := if dividend >= 0 then -dividend else dividend;
      var rightBound := if dividend >= 0 then dividend else -dividend;
      if divisor.Start <= rightBound && divisor.End >= leftBound then
        if divisor.Start > 0 || divisor.End < 0 then
          if dividend == 0 then Quiet(Int(0))
          else if divisor.Start >= leftBound && divisor.End <= rightBound then
            var halfDividend := TDiv(leftBound - 1, 2) + 1;
            var maxBound :=
              if divisor.Start > 0 then Max(halfDividend, 1 - divisor.End)
              else Max(halfDividend, divisor.Start + 1);
            if dividend >= 0 then Quiet(IntInterval(0, -maxBound))
            else Quiet(IntInterval(maxBound, 0))
          else if dividend >= 0 then Quiet(IntInterval(0, rightBound))
          else Quiet(IntInterval(leftBound, 0))
        else WarnPossibleModuloByZero
      else Quiet(Int(dividend))
    else if divisor.Start > 0 || divisor.End < 0 then
      var halfDividend := TDiv(dividend, 2) + 1;
      var intervalBound := if divisor.Start > 0 then -divisor.End else divisor.Start;
      var maxBound := Max(halfDividend, intervalBound + 1);
      Quiet(IntInterval(maxBound, 0))
    else WarnPossibleModuloByZero
  }

  /** Every non-zero divisor of the interval leaves a remainder the result admits. */
  lemma ModuloIntByIntervalSound(dividend: Int32, divisor: Interval, y: int)
    requires divisor.IsInt32() && divisor.Contains(y) && y != 0
    ensures ModuloIntByInterval(dividend, divisor).value.Admits(TMod(dividend, y))
  {
    var n := Abs(dividend);
    RemainderBounds(dividend, y);
    if n < Abs(y) {
      RemainderOfSmallDividend(dividend, y);
    } else {
      RemainderAtMostHalf(dividend, y);
    }
    if dividend > MinValue {
      assert TDiv(-n - 1, 2) + 1 == -((n - 1) / 2);
    } else {
      assert TDiv(dividend, 2) + 1 == -((n - 1) / 2);
    }
  }

  /** `Modulo(string, interval)`: an integer string is reduced as that integer. */
  function ModuloStringByInterval(dividend: string, divisor: Interval): (r: Outcome)
    requires divisor.IsInt32()
    ensures !TypeConversion.ConvertToNumber(dividend, false).isInteger ==> r == WarnPossibleModuloByZero
    ensures divisor.Contains(0) ==> r == WarnPossibleModuloByZero
  {
    var n := TypeConversion.ConvertToNumber(dividend, false);
    if n.isInteger then ModuloIntByInterval(n.integerValue, divisor)
    else WarnPossibleModuloByZero
  }

  /** A dividend written as the decimal string of an integer behaves as that integer. */
  lemma ModuloStringByIntervalOfPrintedInteger(n: Int32, divisor: Interval)
    requires divisor.IsInt32()
    ensures ModuloStringByInterval(TypeConversion.ToStringInt(n), divisor) == ModuloIntByInterval(n, divisor)
  {
    TypeConversion.ToStringIntRoundTrip(n);
  }

  /**
   * `AbstractModulo(interval)`: an unknown dividend by a positive interval gives
   * `[1-End, End-1]`, by a negative one `[Start+1, -(Start+1)]`; `[0, 0]` is a
   * certain modulo by zero and any other interval containing 0 a possible one.
   */
  function AbstractModuloInterval(divisor: Interval): (r: Outcome)
    requires divisor.IsInt32()
    ensures r.warning.Some? <==> divisor.Contains(0)
    ensures divisor == Interval(0, 0) ==> r == WarnModuloByZero
    ensures divisor.Contains(0) && divisor != Interval(0, 0) ==> r == WarnPossibleModuloByZero
  {
    if divisor.Start > 0 then Quiet(IntInterval(1 - divisor.End, divisor.End - 1))
    else if divisor.End < 0 then
      var bound := divisor.Start + 1;
      Quiet(IntInterval(bound, -bound))
    else if divisor.Start < 0 || divisor.End > 0 then WarnPossibleModuloByZero
    else WarnModuloByZero
  }

  /** For every dividend and every non-zero divisor of the interval the result admits the remainder. */
  lemma AbstractModuloIntervalSound(divisor: Interval, x: int, y: int)
    requires divisor.IsInt32() && divisor.Contains(y) && y != 0
    ensures AbstractModuloInterval(divisor).value.Admits(TMod(x, y))
  {
    RemainderBounds(x, y);
  }

  /** `Modulo(interval, interval)`: the dividend interval is not used. */
  function ModuloIntervals(dividend: Interval, divisor: Interval): (r: Outcome)
    requires divisor.IsInt32()
    ensures forall x, y :: dividend.Contains(x) && divisor.Contains(y) && y != 0 ==> r.value.Admits(TMod(x, y))
  {
    assert forall x, y :: divisor.Contains(y) && y != 0 ==> AbstractModuloInterval(divisor).value.Admits(TMod(x, y)) by {
      forall x, y | divisor.Contains(y) && y != 0 {
        AbstractModuloIntervalSound(divisor, x, y);
      }
    }
    AbstractModuloInterval(divisor)
  }

  /** `LeftAbstractBooleanModulo(interval)`: the dividend is 0 or 1, treated as unknown. */
  function LeftAbstractBooleanModuloInterval(divisor: Interval): (r: Outcome)
    requires divisor.IsInt32()
    ensures forall b: bool, y :: divisor.Contains(y) && y != 0 ==>
      r.value.Admits(TMod(TypeConversion.ToIntegerBool(b), y))
  {
    ModuloIntervals(BooleanInterval, divisor)
  }

  // ---------------------------------------------------------------------------
  // Boolean, null and unknown divisors

  /** `ModuloByBooleanValue`: `true` is the divisor 1, `false` a modulo by zero. */
  function ModuloByBooleanValue(divisor: bool): (r: Outcome)
    ensures r.warning.Some? <==> !divisor
  {
    if divisor then Quiet(Int(0))
    else DivisionByZeroWarning(Bool(false), ModuloByFalseMessage)
  }

  /** A boolean divisor behaves as its integer for every dividend, apart from the message. */
  lemma ModuloByBooleanAgreesWithInteger(dividend: Int32, divisor: bool)
    ensures ModuloByBooleanValue(divisor).value == ModuloInts(dividend, TypeConversion.ToIntegerBool(divisor)).value
    ensures ModuloByBooleanValue(divisor).warning.Some? == ModuloInts(dividend, TypeConversion.ToIntegerBool(divisor)).warning.Some?
  {
    if divisor {
      RemainderBounds(dividend, 1);
    }
  }

  /** `ModuloByAnyBooleanValue`: the divisor may be `false`, so the result is "any value". */
  const ModuloByAnyBooleanValue: Outcome :=
    DivisionByZeroWarning(AnyValue, "Possible division by zero (converted from boolean false)")

  /** `ModuloByNull`: null is the divisor 0. */
  const ModuloByNull: Outcome := DivisionByZeroWarning(Bool(false), "Modulo by zero (converted from null)")

  /** Null as a divisor gives the same value as the integer 0. */
  lemma ModuloByNullAgreesWithZero(dividend: Int32)
    ensures ModuloByNull.value == ModuloInts(dividend, 0).value && ModuloByNull.warning.Some?
  {
  }

  /** `AbstractModulo()`: both operands unknown. */
  const AbstractModulo: Outcome := WarnPossibleModuloByZero
}
