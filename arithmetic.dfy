/**
 * PHP's `+ - * /` on integers and on an integer with an integer interval, as
 * the analyser evaluates them. PHP integers do not wrap: a result that leaves
 * the 32-bit range becomes a floating-point number, which the model records
 * by the tags `Float` and `FloatInterval`.
 */
module ArithmeticOperation {
  import opened Wrappers
  import opened CSharp
  import opened Values
  import opened Evaluation

  predicate IsArithmetic(op: Operation) {
    op == Add || op == Sub || op == Mul || op == Div
  }

  const WarnDivideByZero: Outcome := DivisionByZeroWarning(Bool(false), "Division by zero")

  const WarnPossibleDivideByZero: Outcome :=
    DivisionByZeroWarning(AnyValue, "Division by any number, possible division by zero")

  /** `DivisionByNull`: null is the divisor 0. */
  const DivisionByNull: Outcome := DivisionByZeroWarning(Bool(false), "Division by zero (converted from null)")

  // ---------------------------------------------------------------------------
  // Integer operands

  /** `Add(int, int)`: the sum when it fits into an integer, a float otherwise. */
  function AddInts(augend: Int32, addend: Int32): (r: Value)
    ensures r == IntOrFloat(augend + addend)
  {
    if (if addend >= 0 then augend <= MaxValue - addend else augend >= MinValue - addend) then
      Int(augend + addend)
    else Float
  }

  /** `Subtract(int, int)`: the difference when it fits into an integer, a float otherwise. */
  function SubtractInts(minuend: Int32, subtrahend: Int32): (r: Value)
    ensures r == IntOrFloat(minuend - subtrahend)
  {
    if (if subtrahend >= 0 then minuend >= MinValue + subtrahend else minuend <= MaxValue + subtrahend) then
      Int(minuend - subtrahend)
    else Float
  }

  /** Subtraction is addition of the negated subtrahend. */
  lemma SubtractIsAddOfNegation(minuend: Int32, subtrahend: Int32)
    requires subtrahend != MinValue
    ensures SubtractInts(minuend, subtrahend) == AddInts(minuend, -subtrahend)
  {
  }

  /**
   * `Multiply(int, int)` as written. The overflow guard divides `int.MinValue`
   * by the multiplier when the signs differ, which raises an overflow exception
   * for the multiplier -1; for a negative multiplicand it compares in the wrong
   * direction, and the product it then accepts wraps around.
   */
  function MultiplyIntsAsWritten(multiplicand: Int32, multiplier: Int32): (r: Result<Value, string>)
    ensures r.Err? <==> multiplier == -1 && multiplicand >= 0
  {
    if multiplier == 0 then Ok(Int(0))
    else if (multiplicand >= 0) == (multiplier >= 0) then
      if multiplicand <= TDiv(MaxValue, multiplier) then Ok(Int(Wrap32(multiplicand * multiplier)))
      else Ok(Float)
    else if multiplier == -1 then Err(OverflowExceptionName)
    else if multiplicand <= TDiv(MinValue, multiplier) then Ok(Int(Wrap32(multiplicand * multiplier)))
    else Ok(Float)
  }

  /** Where the guard as written is right: a zero multiplier, or both operands non-negative. */
  lemma MultiplyIntsAsWrittenNonNegative(multiplicand: Int32, multiplier: Int32)
    requires multiplier == 0 || (multiplicand >= 0 && multiplier >= 0)
    ensures MultiplyIntsAsWritten(multiplicand, multiplier) == Ok(IntOrFloat(multiplicand * multiplier))
  {
    if multiplier != 0 {
      UpperQuotient(multiplicand, MaxValue, multiplier);
      assert multiplicand * multiplier >= 0 by {
        if multiplicand > 0 { MultipleAtLeast(multiplicand, multiplier); }
      }
    }
  }

  /** Three inputs on which the guard as written goes wrong. */
  lemma MultiplyIntsAsWrittenCounterexamples()
    ensures MultiplyIntsAsWritten(5, -1).Err? && InInt32(5 * -1)
    ensures MultiplyIntsAsWritten(-1, -1) == Ok(Float) && InInt32(-1 * -1)
    ensures MultiplyIntsAsWritten(MinValue, 2) == Ok(Int(0)) && !InInt32(MinValue * 2)
  {
    assert TDiv(MaxValue, -1) == -MaxValue;
    assert TDiv(MinValue, 2) == MinValue / 2 + 0 == -0x4000_0000;
    assert Wrap32(MinValue * 2) == 0;
  }

  /**
   * `Multiply(int, int)` with the overflow guard written out for each sign
   * combination: the product when it fits into an integer, a float otherwise.
   */
  function MultiplyInts(multiplicand: Int32, multiplier: Int32): (r: Value)
    ensures r == IntOrFloat(multiplicand * multiplier)
  {
    var a: int, b: int := multiplicand, multiplier;
    if b == 0 then Int(0)
    else
      MultiplyIntsGuardExact(a, b);
      if MultiplyIntsGuard(a, b) then Int(a * b) else Float
  }

  /** The overflow guard for `a * b`, one truncating division per sign combination. */
  predicate MultiplyIntsGuard(a: int, b: int)
    requires b != 0
  {
    if a >= 0 && b > 0 then a <= TDiv(MaxValue, b)
    else if a < 0 && b < 0 then a >= TDiv(MaxValue, b)
    else if b > 0 then a >= TDiv(MinValue, b)
    else b == -1 || a <= TDiv(MinValue, b)
  }

  lemma MultiplyIntsGuardExact(a: int, b: int)
    requires b != 0 && InInt32(a) && InInt32(b)
    ensures MultiplyIntsGuard(a, b) <==> InInt32(a * b)
  {
    if a >= 0 && b > 0 {
      UpperQuotient(a, MaxValue, b);
      NonNegativeProduct(a, b);
    } else if a < 0 && b < 0 {
      UpperQuotient(-a, MaxValue, -b);
      NonNegativeProduct(-a, -b);
      assert (-a) * (-b) == a * b;
    } else if b > 0 {
      LowerQuotient(a, MinValue, b);
      NonNegativeProduct(-a, b);
      assert (-a) * b == -(a * b);
    } else if b != -1 {
      UpperQuotient(a, -MinValue, -b);
      NonNegativeProduct(a, -b);
      assert a * (-b) == -(a * b);
    } else {
      assert a * b == -a;
    }
  }

  lemma NonNegativeProduct(a: int, b: int)
    requires a >= 0 && b >= 0
    ensures a * b >= 0
  {
    if a > 0 && b > 0 { MultipleAtLeast(a, b); }
  }

  /**
   * `Divide(int, int)` as written. The divisibility test `dividend % divisor`
   * is evaluated before the test for `int.MinValue / -1`, and C#'s `%` raises
   * an overflow exception on exactly that pair.
   */
  function DivideIntsAsWritten(dividend: Int32, divisor: Int32): (r: Result<Outcome, string>)
    ensures r.Err? <==> dividend == MinValue && divisor == -1
  {
    if divisor != 0 then
      if dividend == MinValue && divisor == -1 then Err(OverflowExceptionName)
      else if TMod(dividend, divisor) == 0 then Ok(Quiet(Int(TDiv(dividend, divisor))))
      else Ok(Quiet(Float))
    else Ok(WarnDivideByZero)
  }

  lemma DivideIntsAsWrittenOverflows()
    ensures DivideIntsAsWritten(MinValue, -1).Err?
  {
  }

  /**
   * `Divide(int, int)` with the pair `(int.MinValue, -1)` tested first: an
   * integer exactly when the division leaves no remainder and the quotient fits,
   * a float otherwise, and `false` with a warning for the divisor 0.
   */
  function DivideInts(dividend: Int32, divisor: Int32): (r: Outcome)
    ensures divisor == 0 <==> r == WarnDivideByZero
    ensures divisor != 0 ==> r.warning.None?
    ensures divisor != 0 ==> (r.value.Int? <==> TMod(dividend, divisor) == 0 && InInt32(TDiv(dividend, divisor)))
    ensures r.value.Int? ==> r.value.i * divisor == dividend
    ensures divisor != 0 && !r.value.Int? ==> r.value == Float
  {
    if divisor != 0 then
      DivisionIdentity(dividend, divisor);
      QuotientFits(dividend, divisor);
      if (dividend != MinValue || divisor != -1) && TMod(dividend, divisor) == 0 then
        Quiet(Int(TDiv(dividend, divisor)))
      else Quiet(Float)
    else WarnDivideByZero
  }

  /** Only `int.MinValue / -1` has a quotient outside the integer range. */
  lemma QuotientFits(dividend: Int32, divisor: Int32)
    requires divisor != 0
    ensures InInt32(TDiv(dividend, divisor)) <==> !(dividend == MinValue && divisor == -1)
  {
    var n: int, d: int := Abs(dividend), Abs(divisor);
    assert 0 <= n <= 0x8000_0000;
    if d >= 2 {
      HalfQuotient(n, d);
    } else {
      assert d == 1 && n / d == n;
    }
  }

  /** A divisor of at least 2 leaves at most half the dividend. */
  lemma HalfQuotient(n: nat, d: int)
    requires d >= 2
    ensures 2 * (n / d) <= n
  {
    var q := n / d;
    assert n == q * d + n % d;
    if q > 0 {
      MulMonotone(2, d, q);
      assert d * q == q * d;
    }
  }

  /** `Arithmetic(int, int)`: the four arithmetic operators, and no result for any other. */
  function ArithmeticInts(op: Operation, left: Int32, right: Int32): (r: Option<Outcome>)
    ensures r.Some? <==> IsArithmetic(op)
    ensures op == Div ==> r == Some(DivideInts(left, right))
    ensures op == Add || op == Sub || op == Mul ==> r.Some? && r.value.warning.None?
    ensures op == Add ==> r.value.value == IntOrFloat(left + right)
    ensures op == Sub ==> r.value.value == IntOrFloat(left - right)
    ensures op == Mul ==> r.value.value == IntOrFloat(left * right)
  {
    match op
    case Add => Some(Quiet(AddInts(left, right)))
    case Sub => Some(Quiet(SubtractInts(left, right)))
    case Mul => Some(Quiet(MultiplyInts(left, right)))
    case Div => Some(DivideInts(left, right))
    case _ => None
  }

  // ---------------------------------------------------------------------------
  // Integer and integer interval

  /** The interval of an interval value, for values that are integer intervals. */
  function Bounds(v: Value): Interval
    requires v.IntInterval?
  {
    Interval(v.Start, v.End)
  }

  /**
   * `Add(int, interval)`: the shifted interval when neither end overflows,
   * otherwise a float interval.
   */
  function AddIntInterval(augend: Int32, addend: Interval): (r: Value)
    requires addend.IsInt32()
    ensures r.IntInterval? || r == FloatInterval
    ensures addend.NonEmpty() ==>
      (r.IntInterval? <==> InInt32(augend + addend.Start) && InInt32(augend + addend.End))
    ensures r.IntInterval? ==> forall y :: addend.Contains(y) <==> Bounds(r).Contains(augend + y)
  {
    if (if augend >= 0 then addend.End <= MaxValue - augend else addend.Start >= MinValue - augend) then
      IntInterval(augend + addend.Start, augend + addend.End)
    else FloatInterval
  }

  /**
   * `Subtract(int, interval)`: the mirrored interval `[a-End, a-Start]` when
   * neither end overflows, otherwise a float interval.
   */
  function SubtractIntInterval(minuend: Int32, subtrahend: Interval): (r: Value)
    requires subtrahend.IsInt32()
    ensures r.IntInterval? || r == FloatInterval
    ensures subtrahend.NonEmpty() ==>
      (r.IntInterval? <==> InInt32(minuend - subtrahend.End) && InInt32(minuend - subtrahend.Start))
    ensures r.IntInterval? ==> forall y :: subtrahend.Contains(y) <==> Bounds(r).Contains(minuend - y)
  {
    if (if minuend >= 0 then subtrahend.Start >= minuend - MaxValue else subtrahend.End <= minuend - MinValue) then
      IntInterval(minuend - subtrahend.End, minuend - subtrahend.Start)
    else FloatInterval
  }

  /** Subtracting an interval is adding its negation. */
  lemma SubtractIntervalIsAddOfNegation(minuend: Int32, subtrahend: Interval)
    requires subtrahend.IsInt32() && subtrahend.NonEmpty() && subtrahend.Start != MinValue
    ensures SubtractIntInterval(minuend, subtrahend) ==
      AddIntInterval(minuend, Interval(-subtrahend.End, -subtrahend.Start))
  {
  }

  /**
   * The overflow guard of `Multiply(int, interval)` as written: with a negative
   * multiplicand it divides `int.MinValue` by `multiplier.End`, which raises a
   * division-by-zero exception when that end is 0. `None` stands for the
   * exception.
   */
  function MultiplyGuardAsWritten(a: Int32, s: Int32, e: Int32): (r: Option<bool>)
    requires s <= e
  {
    if a == 0 then Some(true)
    else if a >= 0 then
      if s >= 0 then Some(e <= TDiv(MaxValue, a))
      else Some(s >= TDiv(MinValue, a) && (e < 0 || e <= TDiv(MaxValue, a)))
    else if s >= 0 then
      if e == 0 then None else Some(a >= TDiv(MinValue, e))
    else if !(s >= TDiv(MaxValue, a)) then Some(false)
    else if e < 0 then Some(true)
    else if e == 0 then None
    else Some(a >= TDiv(MinValue, e))
  }

  /** `Multiply(int, interval)` as written; `Err` stands for the division-by-zero exception. */
  function MultiplyIntIntervalAsWritten(multiplicand: Int32, multiplier: Interval): (r: Result<Value, string>)
    requires multiplier.IsInt32() && multiplier.NonEmpty()
  {
    match MultiplyGuardAsWritten(multiplicand, multiplier.Start, multiplier.End)
    case None => Err(DivideByZeroExceptionName)
    case Some(fits) =>
      if fits then
        if multiplicand >= 0 then
          Ok(IntInterval(Wrap32(multiplicand * multiplier.Start), Wrap32(multiplicand * multiplier.End)))
        else Ok(IntInterval(Wrap32(multiplicand * multiplier.End), Wrap32(multiplicand * multiplier.Start)))
      else Ok(FloatInterval)
  }

  /** -3 times `[-5, 0]` has both products in range, yet the code as written throws. */
  lemma MultiplyIntIntervalAsWrittenThrows()
    ensures MultiplyIntIntervalAsWritten(-3, Interval(-5, 0)).Err?
    ensures InInt32(-3 * -5) && InInt32(-3 * 0)
  {
    assert TDiv(MaxValue, -3) == -715827882;
  }

  /** The guard with the end 0 treated like a negative end: it says exactly that both products fit. */
  predicate MultiplyGuard(a: Int32, s: Int32, e: Int32)
    requires s <= e
  {
    if a == 0 then true
    else if a >= 0 then
      if s >= 0 then e <= TDiv(MaxValue, a)
      else s >= TDiv(MinValue, a) && (e < 0 || e <= TDiv(MaxValue, a))
    else if s >= 0 then e == 0 || a >= TDiv(MinValue, e)
    else s >= TDiv(MaxValue, a) && (e <= 0 || a >= TDiv(MinValue, e))
  }

  lemma MultiplyGuardExact(a: Int32, s: Int32, e: Int32)
    requires s <= e
    ensures MultiplyGuard(a, s, e) <==> InInt32(a * s) && InInt32(a * e)
  {
    if a > 0 {
      ProductBetween(a, s, s, e);
      if s >= 0 {
        GuardExactPositiveByNatural(a, s, e);
      } else {
        GuardExactPositiveByNegative(a, s, e);
      }
    } else if a < 0 {
      ProductBetween(a, s, s, e);
      if s >= 0 {
        GuardExactNegativeByNatural(a, s, e);
      } else {
        GuardExactNegativeByNegative(a, s, e);
      }
    }
  }

  lemma GuardExactPositiveByNatural(a: int, s: int, e: int)
    requires 0 < a && 0 <= s <= e && a * s <= a * e
    ensures (e <= TDiv(MaxValue, a)) <==> InInt32(a * s) && InInt32(a * e)
  {
    UpperQuotient(e, MaxValue, a);
    NonNegativeProduct(a, s);
    assert e * a == a * e;
  }

  lemma GuardExactPositiveByNegative(a: int, s: int, e: int)
    requires 0 < a && s < 0 && s <= e && a * s <= a * e
    ensures (s >= TDiv(MinValue, a) && (e < 0 || e <= TDiv(MaxValue, a))) <==> InInt32(a * s) && InInt32(a * e)
  {
    UpperQuotient(e, MaxValue, a);
    LowerQuotient(s, MinValue, a);
    assert e * a == a * e && s * a == a * s;
    if e < 0 {
      NonNegativeProduct(a, -e);
      assert a * (-e) == -(a * e);
    }
  }

  lemma GuardExactNegativeByNatural(a: int, s: int, e: int)
    requires a < 0 && 0 <= s <= e && a * e <= a * s
    ensures (e == 0 || a >= TDiv(MinValue, e)) <==> InInt32(a * s) && InInt32(a * e)
  {
    NonNegativeProduct(-a, s);
    assert (-a) * s == -(a * s);
    if e > 0 {
      LowerQuotient(a, MinValue, e);
    }
  }

  lemma GuardExactNegativeByNegative(a: int, s: int, e: int)
    requires a < 0 && s < 0 && s <= e && a * e <= a * s
    ensures (s >= TDiv(MaxValue, a) && (e <= 0 || a >= TDiv(MinValue, e))) <==> InInt32(a * s) && InInt32(a * e)
  {
    UpperQuotient(-s, MaxValue, -a);
    assert (-s) * (-a) == a * s;
    assert TDiv(MaxValue, a) == -TDiv(MaxValue, -a);
    if e <= 0 {
      NonNegativeProduct(-a, -e);
      assert (-a) * (-e) == a * e;
    } else {
      LowerQuotient(a, MinValue, e);
    }
  }

  /** Wherever the code as written does not throw, it computes what the corrected guard computes. */
  lemma MultiplyGuardAsWrittenAgrees(a: Int32, s: Int32, e: Int32)
    requires s <= e
    ensures MultiplyGuardAsWritten(a, s, e).Some? ==> MultiplyGuardAsWritten(a, s, e) == Some(MultiplyGuard(a, s, e))
    ensures MultiplyGuardAsWritten(a, s, e).None? <==> a < 0 && e == 0 && (s >= 0 || s >= TDiv(MaxValue, a))
  {
  }

  /** Wherever `Multiply(int, interval)` as written does not throw, its result is the corrected one. */
  lemma MultiplyIntIntervalAsWrittenAgrees(multiplicand: Int32, multiplier: Interval)
    requires multiplier.IsInt32() && multiplier.NonEmpty()
    ensures MultiplyIntIntervalAsWritten(multiplicand, multiplier).Ok? ==>
      MultiplyIntIntervalAsWritten(multiplicand, multiplier).value == MultiplyIntInterval(multiplicand, multiplier)
    ensures MultiplyIntIntervalAsWritten(multiplicand, multiplier).Err? <==>
      multiplicand < 0 && multiplier.End == 0 && (multiplier.Start >= 0 || multiplier.Start >= TDiv(MaxValue, multiplicand))
  {
    MultiplyGuardAsWrittenAgrees(multiplicand, multiplier.Start, multiplier.End);
    MultiplyGuardExact(multiplicand, multiplier.Start, multiplier.End);
  }

  /**
   * `Multiply(int, interval)` with the corrected guard: the image of the
   * interval, with its ends swapped for a negative multiplicand, when both end
   * products fit, otherwise a float interval.
   */
  function MultiplyIntInterval(multiplicand: Int32, multiplier: Interval): (r: Value)
    requires multiplier.IsInt32() && multiplier.NonEmpty()
    ensures r.IntInterval? || r == FloatInterval
    ensures r.IntInterval? <==> InInt32(multiplicand * multiplier.Start) && InInt32(multiplicand * multiplier.End)
    ensures r.IntInterval? ==> forall y :: multiplier.Contains(y) ==> Bounds(r).Contains(multiplicand * y)
    ensures r.IntInterval? ==> r.Start in {multiplicand * multiplier.Start, multiplicand * multiplier.End}
    ensures r.IntInterval? ==> r.End in {multiplicand * multiplier.Start, multiplicand * multiplier.End}
  {
    var a, s, e := multiplicand, multiplier.Start, multiplier.End;
    MultiplyGuardExact(a, s, e);
    ProductsBetween(a, s, e);
    if MultiplyGuard(a, s, e) then
      if a >= 0 then IntInterval(a * s, a * e) else IntInterval(a * e, a * s)
    else FloatInterval
  }

  /** Multiplying the points of `[s, e]` by `a` lands between the products of the ends. */
  lemma ProductsBetween(a: int, s: int, e: int)
    ensures a >= 0 ==> forall y :: s <= y <= e ==> a * s <= a * y <= a * e
    ensures a < 0 ==> forall y :: s <= y <= e ==> a * e <= a * y <= a * s
  {
    forall y | s <= y <= e
      ensures a >= 0 ==> a * s <= a * y <= a * e
      ensures a < 0 ==> a * e <= a * y <= a * s
    {
      ProductBetween(a, s, y, e);
    }
  }

  lemma ProductBetween(a: int, s: int, y: int, e: int)
    requires s <= y <= e
    ensures a >= 0 ==> a * s <= a * y <= a * e
    ensures a < 0 ==> a * e <= a * y <= a * s
  {
    if a > 0 {
      MulMonotone(s, y, a);
      MulMonotone(y, e, a);
      assert a * s == s * a && a * y == y * a && a * e == e * a;
    } else if a < 0 {
      MulMonotone(s, y, -a);
      MulMonotone(y, e, -a);
      assert a * s == -(s * -a) && a * y == -(y * -a) && a * e == -(e * -a);
    }
  }

  /**
   * `Divide(int, interval)`: the quotient is computed on floats, so the result
   * is a float interval unless the divisor interval contains 0, which gives
   * "any value" with a warning.
   */
  function DivideIntInterval(dividend: Int32, divisor: Interval): (r: Outcome)
    requires divisor.IsInt32()
    ensures r.warning.Some? <==> divisor.Contains(0)
    ensures r.warning.None? ==> r.value == FloatInterval
  {
    if divisor.Start > 0 || divisor.End < 0 then Quiet(FloatInterval)
    else WarnPossibleDivideByZero
  }

  /** `Arithmetic(int, interval)`: the four arithmetic operators, and no result for any other. */
  function ArithmeticIntInterval(op: Operation, left: Int32, right: Interval): (r: Option<Outcome>)
    requires right.IsInt32() && right.NonEmpty()
    ensures r.Some? <==> IsArithmetic(op)
    ensures op == Div ==> r == Some(DivideIntInterval(left, right))
    ensures op == Add || op == Sub || op == Mul ==> r.Some? && r.value.warning.None?
    ensures op == Add && r.value.value.IntInterval? ==>
      forall y :: right.Contains(y) ==> r.value.value.Admits(left + y)
    ensures op == Sub && r.value.value.IntInterval? ==>
      forall y :: right.Contains(y) ==> r.value.value.Admits(left - y)
    ensures op == Mul && r.value.value.IntInterval? ==>
      forall y :: right.Contains(y) ==> r.value.value.Admits(left * y)
  {
    match op
    case Add => Some(Quiet(AddIntInterval(left, right)))
    case Sub => Some(Quiet(SubtractIntInterval(left, right)))
    case Mul => Some(Quiet(MultiplyIntInterval(left, right)))
    case Div => Some(DivideIntInterval(left, right))
    case _ => None
  }
}
