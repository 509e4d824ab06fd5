/**
 * The comparison table of the expression evaluator: PHP's six comparison
 * operators on concrete values, on a value and an integer interval, on two
 * intervals, and on booleans against "any boolean".
 *
 * A three-valued answer is `Definite(b)` or `AnyBoolean`; a Dafny `None` stands
 * for the `null` the analyser returns for an operation that is not a
 * comparison. Every interval answer is proved sound (a definite answer holds
 * for every concrete pair) and exact on non-empty intervals (a definite answer
 * is given whenever every concrete pair agrees).
 */
module Comparison {
  import opened Wrappers
  import opened Values
  import TypeConversion

  /** The six PHP comparison operators. */
  predicate IsOperationComparison(op: Operation)
  {
    op == Equal || op == NotEqual || op == LessThan || op == LessThanOrEqual ||
    op == GreaterThan || op == GreaterThanOrEqual
  }

  /** The mathematical meaning of a comparison on numbers; false for any other operation. */
  predicate Holds(op: Operation, x: int, y: int)
  {
    match op
    case Equal => x == y
    case NotEqual => x != y
    case LessThan => x < y
    case LessThanOrEqual => x <= y
    case GreaterThan => x > y
    case GreaterThanOrEqual => x >= y
    case _ => false
  }

  /** PHP orders booleans with `false` below `true`. */
  predicate HoldsBool(op: Operation, a: bool, b: bool)
  {
    Holds(op, TypeConversion.ToIntegerBool(a), TypeConversion.ToIntegerBool(b))
  }

  /**
   * `Compare<T>`: equality through `Equals` (`equal`) and the orderings through the
   * sign of `CompareTo` (`order`); `None` for an operation that is not a comparison.
   */
  function CompareBy(op: Operation, equal: bool, order: int): (r: Option<bool>)
    ensures r.Some? <==> IsOperationComparison(op)
  {
    match op
    case Equal => Some(equal)
    case NotEqual => Some(!equal)
    case LessThan => Some(order < 0)
    case LessThanOrEqual => Some(order <= 0)
    case GreaterThan => Some(order > 0)
    case GreaterThanOrEqual => Some(order >= 0)
    case _ => None
  }

  /** `IComparable.CompareTo` on integers. */
  function CompareToInt(x: int, y: int): int
  {
    if x < y then -1 else if x == y then 0 else 1
  }

  /** `Compare<int>` answers every comparison exactly. */
  function CompareInt(op: Operation, x: int, y: int): (r: Option<bool>)
    ensures r == if IsOperationComparison(op) then Some(Holds(op, x, y)) else None
  {
    CompareBy(op, x == y, CompareToInt(x, y))
  }

  /** `Compare<bool>` answers every comparison exactly under the order `false < true`. */
  function CompareBool(op: Operation, a: bool, b: bool): (r: Option<bool>)
    ensures r == if IsOperationComparison(op) then Some(HoldsBool(op, a, b)) else None
  {
    CompareBy(op, a == b, CompareToInt(TypeConversion.ToIntegerBool(a), TypeConversion.ToIntegerBool(b)))
  }

  /** Ordinal string comparison: the sign of the first differing character, a proper prefix first. */
  function OrdinalCompare(a: string, b: string): (r: int)
    ensures -1 <= r <= 1
    ensures r == 0 <==> a == b
  {
    if |a| == 0 && |b| == 0 then 0
    else if |a| == 0 then -1
    else if |b| == 0 then 1
    else if a[0] < b[0] then -1
    else if a[0] > b[0] then 1
    else
      var rest := OrdinalCompare(a[1..], b[1..]);
      assert a == [a[0]] + a[1..] && b == [b[0]] + b[1..];
      rest
  }

  /** A proper prefix sorts first. */
  lemma {:induction false} PrefixSortsFirst(a: string, b: string)
    requires |a| < |b| && a == b[..|a|]
    ensures OrdinalCompare(a, b) == -1
    decreases |a|
  {
    if |a| > 0 {
      assert a[1..] == b[1..][..|a| - 1];
      PrefixSortsFirst(a[1..], b[1..]);
    }
  }

  /** Swapping the strings flips the sign of the ordinal comparison. */
  lemma {:induction false} OrdinalCompareAntisymmetric(a: string, b: string)
    ensures OrdinalCompare(b, a) == -OrdinalCompare(a, b)
    decreases |a|
  {
    if |a| > 0 && |b| > 0 && a[0] == b[0] {
      OrdinalCompareAntisymmetric(a[1..], b[1..]);
    }
  }

  /** The string overload of `Compare`, ordinal and culture-independent. */
  function CompareString(op: Operation, a: string, b: string): (r: Option<bool>)
    ensures r.Some? <==> IsOperationComparison(op)
    ensures op == Equal ==> r == Some(a == b)
    ensures op == NotEqual ==> r == Some(a != b)
    ensures r == if IsOperationComparison(op) then Some(Holds(op, OrdinalCompare(a, b), 0)) else None
  {
    CompareBy(op, a == b, OrdinalCompare(a, b))
  }

  /** `AbstractCompare`: "any boolean" for a comparison of unknown operands. */
  function AbstractCompare(op: Operation): (r: Option<BoolResult>)
    ensures r.Some? <==> IsOperationComparison(op)
    ensures r.Some? ==> r.value == AnyBoolean
  {
    if IsOperationComparison(op) then Some(AnyBoolean) else None
  }

  /** The answer when every left value is smaller than every right value. */
  function RightAlwaysGreater(op: Operation): (r: Option<bool>)
    ensures r.Some? <==> IsOperationComparison(op)
    ensures r.Some? ==> forall x: int, y: int :: x < y ==> Holds(op, x, y) == r.value
  {
    match op
    case NotEqual => Some(true)
    case LessThan => Some(true)
    case LessThanOrEqual => Some(true)
    case Equal => Some(false)
    case GreaterThan => Some(false)
    case GreaterThanOrEqual => Some(false)
    case _ => None
  }

  /** The answer when every left value is greater than every right value. */
  function LeftAlwaysGreater(op: Operation): (r: Option<bool>)
    ensures r.Some? <==> IsOperationComparison(op)
    ensures r.Some? ==> forall x: int, y: int :: x > y ==> Holds(op, x, y) == r.value
  {
    match op
    case NotEqual => Some(true)
    case GreaterThan => Some(true)
    case GreaterThanOrEqual => Some(true)
    case Equal => Some(false)
    case LessThan => Some(false)
    case LessThanOrEqual => Some(false)
    case _ => None
  }

  // ----- the specification of a three-valued answer -----

  ghost predicate AllValueInterval(op: Operation, x: int, i: Interval, b: bool) {
    forall y :: i.Contains(y) ==> Holds(op, x, y) == b
  }

  ghost predicate AllIntervalValue(op: Operation, i: Interval, x: int, b: bool) {
    forall y :: i.Contains(y) ==> Holds(op, y, x) == b
  }

  ghost predicate AllIntervals(op: Operation, i: Interval, j: Interval, b: bool) {
    forall y, z :: i.Contains(y) && j.Contains(z) ==> Holds(op, y, z) == b
  }

  /** Sound, and exact when the interval is not empty. */
  ghost predicate ExactValueInterval(op: Operation, x: int, i: Interval, r: BoolResult) {
    (r.Definite? ==> AllValueInterval(op, x, i, r.value)) &&
    (i.NonEmpty() && AllValueInterval(op, x, i, true) ==> r == Definite(true)) &&
    (i.NonEmpty() && AllValueInterval(op, x, i, false) ==> r == Definite(false))
  }

  ghost predicate ExactIntervalValue(op: Operation, i: Interval, x: int, r: BoolResult) {
    (r.Definite? ==> AllIntervalValue(op, i, x, r.value)) &&
    (i.NonEmpty() && AllIntervalValue(op, i, x, true) ==> r == Definite(true)) &&
    (i.NonEmpty() && AllIntervalValue(op, i, x, false) ==> r == Definite(false))
  }

  ghost predicate ExactIntervals(op: Operation, i: Interval, j: Interval, r: BoolResult) {
    (r.Definite? ==> AllIntervals(op, i, j, r.value)) &&
    (i.NonEmpty() && j.NonEmpty() && AllIntervals(op, i, j, true) ==> r == Definite(true)) &&
    (i.NonEmpty() && j.NonEmpty() && AllIntervals(op, i, j, false) ==> r == Definite(false))
  }

  /** On a non-empty interval, an answer shared by all values is in particular the answer at both ends. */
  lemma EndsOfValueInterval(op: Operation, x: int, i: Interval)
    ensures forall b :: i.NonEmpty() && AllValueInterval(op, x, i, b) ==> Holds(op, x, i.Start) == b && Holds(op, x, i.End) == b
  {
    assert i.NonEmpty() ==> i.Contains(i.Start) && i.Contains(i.End);
  }

  lemma EndsOfIntervals(op: Operation, i: Interval, j: Interval)
    ensures forall b :: i.NonEmpty() && j.NonEmpty() && AllIntervals(op, i, j, b) ==>
      Holds(op, i.Start, j.Start) == b && Holds(op, i.Start, j.End) == b &&
      Holds(op, i.End, j.Start) == b && Holds(op, i.End, j.End) == b
  {
    assert i.NonEmpty() ==> i.Contains(i.Start) && i.Contains(i.End);
    assert j.NonEmpty() ==> j.Contains(j.Start) && j.Contains(j.End);
  }

  /** The three-valued negation. */
  function Negate(r: BoolResult): BoolResult
  {
    match r
    case Definite(b) => Definite(!b)
    case AnyBoolean => AnyBoolean
  }

  // ----- Equal and NotEqual -----

  /** `x == [s, e]`: false outside the interval, true only for the singleton {x}, "any" otherwise. */
  function EqualValueInterval(x: int, i: Interval): (r: BoolResult)
    ensures ExactValueInterval(Equal, x, i, r)
  {
    EndsOfValueInterval(Equal, x, i);
    if x >= i.Start && x <= i.End then
      if x == i.Start && x == i.End then Definite(true)
      else
        assert i.Contains(x) && Holds(Equal, x, x);
        assert i.Contains(i.Start) && i.Contains(i.End);
        AnyBoolean
    else Definite(false)
  }

  function EqualIntervalValue(i: Interval, x: int): (r: BoolResult)
    ensures ExactIntervalValue(Equal, i, x, r)
  {
    EqualValueInterval(x, i)
  }

  /** Two overlapping intervals are equal only if they are the same singleton. */
  function EqualIntervals(i: Interval, j: Interval): (r: BoolResult)
    ensures ExactIntervals(Equal, i, j, r)
  {
    EndsOfIntervals(Equal, i, j);
    if i.End >= j.Start && i.Start <= j.End then
      if i.Start == i.End && i.Start == j.Start && i.End == j.End then Definite(true)
      else
        var common := if i.Start < j.Start then j.Start else i.Start;
        assert i.NonEmpty() && j.NonEmpty() ==> i.Contains(common) && j.Contains(common) && Holds(Equal, common, common);
        assert i.NonEmpty() && j.NonEmpty() ==> !AllIntervals(Equal, i, j, false) by {
          if !(i.NonEmpty() && j.NonEmpty()) {
          } else if i.Start < i.End {
            var other := if common == i.Start then i.End else i.Start;
            assert i.Contains(other) && !Holds(Equal, other, common);
          } else {
            var other := if common == j.Start then j.End else j.Start;
            assert j.Contains(other) && !Holds(Equal, common, other);
          }
        }
        AnyBoolean
    else
      Definite(false)
  }

  function NotEqualValueInterval(x: int, i: Interval): (r: BoolResult)
    ensures ExactValueInterval(NotEqual, x, i, r)
  {
    EndsOfValueInterval(NotEqual, x, i);
    if x < i.Start || x > i.End then Definite(true)
    else if x == i.Start && x == i.End then Definite(false)
    else
      assert i.Contains(x) && !Holds(NotEqual, x, x);
      assert i.Contains(i.Start) && i.Contains(i.End);
      AnyBoolean
  }

  function NotEqualIntervalValue(i: Interval, x: int): (r: BoolResult)
    ensures ExactIntervalValue(NotEqual, i, x, r)
  {
    NotEqualValueInterval(x, i)
  }

  function NotEqualIntervals(i: Interval, j: Interval): (r: BoolResult)
    ensures ExactIntervals(NotEqual, i, j, r)
  {
    EndsOfIntervals(NotEqual, i, j);
    if i.End < j.Start || i.Start > j.End then Definite(true)
    else if i.Start == i.End && i.Start == j.Start && i.End == j.End then Definite(false)
    else
      var common := if i.Start < j.Start then j.Start else i.Start;
      assert i.NonEmpty() && j.NonEmpty() ==> i.Contains(common) && j.Contains(common) && !Holds(NotEqual, common, common);
      assert i.NonEmpty() && j.NonEmpty() ==> !AllIntervals(NotEqual, i, j, true) by {
        if !(i.NonEmpty() && j.NonEmpty()) {
        } else if i.Start < i.End {
          var other := if common == i.Start then i.End else i.Start;
          assert i.Contains(other) && Holds(NotEqual, other, common);
        } else {
          var other := if common == j.Start then j.End else j.Start;
          assert j.Contains(other) && Holds(NotEqual, common, other);
        }
      }
      AnyBoolean
  }

  /** `!=` is the three-valued negation of `==`, for a value and an interval and for two intervals. */
  lemma NotEqualNegatesEqual(x: int, i: Interval, j: Interval)
    ensures NotEqualValueInterval(x, i) == Negate(EqualValueInterval(x, i))
    ensures NotEqualIntervalValue(i, x) == Negate(EqualIntervalValue(i, x))
    ensures NotEqualIntervals(i, j) == Negate(EqualIntervals(i, j))
  {
  }

  // ----- LessThan and LessThanOrEqual -----

  /** `x < [s, e]`: true below s, "any" from s up to e, false from e on. */
  function LessThanValueInterval(x: int, i: Interval): (r: BoolResult)
    ensures ExactValueInterval(LessThan, x, i, r)
  {
    EndsOfValueInterval(LessThan, x, i);
    if x < i.Start then Definite(true)
    else if x < i.End then
      assert i.Contains(i.End) && Holds(LessThan, x, i.End);
      assert i.Contains(i.Start) && !Holds(LessThan, x, i.Start);
      AnyBoolean
    else Definite(false)
  }

  function LessThanIntervals(i: Interval, j: Interval): (r: BoolResult)
    ensures ExactIntervals(LessThan, i, j, r)
  {
    EndsOfIntervals(LessThan, i, j);
    if i.End < j.Start then Definite(true)
    else if i.Start < j.End then
      AnyBoolean
    else Definite(false)
  }

  function LessThanOrEqualValueInterval(x: int, i: Interval): (r: BoolResult)
    ensures ExactValueInterval(LessThanOrEqual, x, i, r)
  {
    EndsOfValueInterval(LessThanOrEqual, x, i);
    if x <= i.Start then Definite(true)
    else if x <= i.End then
      assert i.Contains(i.End) && Holds(LessThanOrEqual, x, i.End);
      assert i.Contains(i.Start) && !Holds(LessThanOrEqual, x, i.Start);
      AnyBoolean
    else Definite(false)
  }

  function LessThanOrEqualIntervals(i: Interval, j: Interval): (r: BoolResult)
    ensures ExactIntervals(LessThanOrEqual, i, j, r)
  {
    EndsOfIntervals(LessThanOrEqual, i, j);
    if i.End <= j.Start then Definite(true)
    else if i.Start <= j.End then
      AnyBoolean
    else Definite(false)
  }

  // ----- GreaterThan and GreaterThanOrEqual -----

  /** `x > [s, e]`: false up to s, "any" from s up to e, true above e. */
  function GreaterThanValueInterval(x: int, i: Interval): (r: BoolResult)
    ensures ExactValueInterval(GreaterThan, x, i, r)
  {
    EndsOfValueInterval(GreaterThan, x, i);
    if x > i.Start then
      if x > i.End then Definite(true)
      else
        assert i.Contains(i.Start) && Holds(GreaterThan, x, i.Start);
        assert i.Contains(i.End) && !Holds(GreaterThan, x, i.End);
        AnyBoolean
    else Definite(false)
  }

  /** `x >= [s, e]`: false below s, true from e on, "any" in between. */
  function GreaterThanOrEqualValueInterval(x: int, i: Interval): (r: BoolResult)
    ensures ExactValueInterval(GreaterThanOrEqual, x, i, r)
  {
    EndsOfValueInterval(GreaterThanOrEqual, x, i);
    if x >= i.Start then
      if x >= i.End then Definite(true)
      else
        assert i.Contains(i.Start) && Holds(GreaterThanOrEqual, x, i.Start);
        assert i.Contains(i.End) && !Holds(GreaterThanOrEqual, x, i.End);
        AnyBoolean
    else Definite(false)
  }

  /** The interval-on-the-left forms are the value-on-the-left forms with the operator mirrored. */
  function LessThanIntervalValue(i: Interval, x: int): (r: BoolResult)
    ensures ExactIntervalValue(LessThan, i, x, r)
  {
    GreaterThanValueInterval(x, i)
  }

  function LessThanOrEqualIntervalValue(i: Interval, x: int): (r: BoolResult)
    ensures ExactIntervalValue(LessThanOrEqual, i, x, r)
  {
    GreaterThanOrEqualValueInterval(x, i)
  }

  function GreaterThanIntervalValue(i: Interval, x: int): (r: BoolResult)
    ensures ExactIntervalValue(GreaterThan, i, x, r)
  {
    LessThanValueInterval(x, i)
  }

  function GreaterThanOrEqualIntervalValue(i: Interval, x: int): (r: BoolResult)
    ensures ExactIntervalValue(GreaterThanOrEqual, i, x, r)
  {
    LessThanOrEqualValueInterval(x, i)
  }

  function GreaterThanIntervals(i: Interval, j: Interval): (r: BoolResult)
    ensures ExactIntervals(GreaterThan, i, j, r)
  {
    var r := LessThanIntervals(j, i);
    assert r.Definite? ==> AllIntervals(LessThan, j, i, r.value);
    r
  }

  function GreaterThanOrEqualIntervals(i: Interval, j: Interval): (r: BoolResult)
    ensures ExactIntervals(GreaterThanOrEqual, i, j, r)
  {
    var r := LessThanOrEqualIntervals(j, i);
    assert r.Definite? ==> AllIntervals(LessThanOrEqual, j, i, r.value);
    r
  }

  // ----- the dispatchers -----

  /** `IntervalCompare(op, x, [s, e])`: `null` for a non-comparison, an exact answer otherwise. */
  function IntervalCompareValueInterval(op: Operation, x: int, i: Interval): (r: Option<BoolResult>)
    ensures r.Some? <==> IsOperationComparison(op)
    ensures r.Some? ==> ExactValueInterval(op, x, i, r.value)
  {
    match op
    case Equal => Some(EqualValueInterval(x, i))
    case NotEqual => Some(NotEqualValueInterval(x, i))
    case LessThan => Some(LessThanValueInterval(x, i))
    case LessThanOrEqual => Some(LessThanOrEqualValueInterval(x, i))
    case GreaterThan => Some(GreaterThanValueInterval(x, i))
    case GreaterThanOrEqual => Some(GreaterThanOrEqualValueInterval(x, i))
    case _ => None
  }

  function IntervalCompareIntervalValue(op: Operation, i: Interval, x: int): (r: Option<BoolResult>)
    ensures r.Some? <==> IsOperationComparison(op)
    ensures r.Some? ==> ExactIntervalValue(op, i, x, r.value)
  {
    match op
    case Equal => Some(EqualIntervalValue(i, x))
    case NotEqual => Some(NotEqualIntervalValue(i, x))
    case LessThan => Some(LessThanIntervalValue(i, x))
    case LessThanOrEqual => Some(LessThanOrEqualIntervalValue(i, x))
    case GreaterThan => Some(GreaterThanIntervalValue(i, x))
    case GreaterThanOrEqual => Some(GreaterThanOrEqualIntervalValue(i, x))
    case _ => None
  }

  function IntervalCompareIntervals(op: Operation, i: Interval, j: Interval): (r: Option<BoolResult>)
    ensures r.Some? <==> IsOperationComparison(op)
    ensures r.Some? ==> ExactIntervals(op, i, j, r.value)
  {
    match op
    case Equal => Some(EqualIntervals(i, j))
    case NotEqual => Some(NotEqualIntervals(i, j))
    case LessThan => Some(LessThanIntervals(i, j))
    case LessThanOrEqual => Some(LessThanOrEqualIntervals(i, j))
    case GreaterThan => Some(GreaterThanIntervals(i, j))
    case GreaterThanOrEqual => Some(GreaterThanOrEqualIntervals(i, j))
    case _ => None
  }

  /** A value is compared with an interval as with the singleton interval holding it. */
  lemma ValueIsSingletonInterval(op: Operation, x: int, i: Interval)
    requires i.NonEmpty()
    ensures IntervalCompareValueInterval(op, x, i) == IntervalCompareIntervals(op, Interval(x, x), i)
    ensures IntervalCompareIntervalValue(op, i, x) == IntervalCompareIntervals(op, i, Interval(x, x))
  {
  }

  // ----- booleans against "any boolean" and intervals converted to booleans -----

  /**
   * `left op b` for an unknown boolean `b`: a definite answer exactly when both
   * values of `b` give the same one.
   */
  function RightAbstractBooleanCompare(op: Operation, left: bool): (r: Option<BoolResult>)
    ensures r.Some? <==> IsOperationComparison(op)
    ensures r.Some? ==> (r.value.Definite? <==> HoldsBool(op, left, true) == HoldsBool(op, left, false))
    ensures r.Some? && r.value.Definite? ==> r.value.value == HoldsBool(op, left, true)
  {
    match op
    case Equal => Some(AnyBoolean)
    case NotEqual => Some(AnyBoolean)
    case LessThan => if left then Some(Definite(false)) else Some(AnyBoolean)
    case LessThanOrEqual => if left then Some(AnyBoolean) else Some(Definite(true))
    case GreaterThan => if left then Some(AnyBoolean) else Some(Definite(false))
    case GreaterThanOrEqual => if left then Some(Definite(true)) else Some(AnyBoolean)
    case _ => None
  }

  /** `b op right` for an unknown boolean `b`. */
  function LeftAbstractBooleanCompare(op: Operation, right: bool): (r: Option<BoolResult>)
    ensures r.Some? <==> IsOperationComparison(op)
    ensures r.Some? ==> (r.value.Definite? <==> HoldsBool(op, true, right) == HoldsBool(op, false, right))
    ensures r.Some? && r.value.Definite? ==> r.value.value == HoldsBool(op, true, right)
  {
    match op
    case Equal => Some(AnyBoolean)
    case NotEqual => Some(AnyBoolean)
    case LessThan => if right then Some(AnyBoolean) else Some(Definite(false))
    case LessThanOrEqual => if right then Some(Definite(true)) else Some(AnyBoolean)
    case GreaterThan => if right then Some(Definite(false)) else Some(AnyBoolean)
    case GreaterThanOrEqual => if right then Some(AnyBoolean) else Some(Definite(true))
    case _ => None
  }

  /** Every number of the interval, taken as a boolean, compares with `right` to `b`. */
  ghost predicate AllBoolsLeft(op: Operation, i: Interval, right: bool, b: bool) {
    forall y :: i.Contains(y) ==> HoldsBool(op, TypeConversion.ToBooleanInt(y), right) == b
  }

  ghost predicate AllBoolsRight(op: Operation, left: bool, i: Interval, b: bool) {
    forall y :: i.Contains(y) ==> HoldsBool(op, left, TypeConversion.ToBooleanInt(y)) == b
  }

  /** A non-empty interval that does not convert to one boolean holds both a zero and a non-zero number. */
  lemma UnconvertibleHoldsBoth(i: Interval)
    requires i.NonEmpty() && !TypeConversion.TryConvertToBoolean(i).0
    ensures i.Contains(0)
    ensures i.Contains(i.Start) && i.Contains(i.End) && (i.Start != 0 || i.End != 0)
  {
  }

  /** `IntervalCompare(op, left, [s, e])` with a boolean on the left: the interval is read as a boolean. */
  function IntervalCompareBoolInterval(op: Operation, left: bool, i: Interval): (r: Option<BoolResult>)
    ensures r.Some? <==> IsOperationComparison(op)
    ensures r.Some? && r.value.Definite? ==> AllBoolsRight(op, left, i, r.value.value)
    ensures r.Some? && i.NonEmpty() && AllBoolsRight(op, left, i, true) ==> r.value == Definite(true)
    ensures r.Some? && i.NonEmpty() && AllBoolsRight(op, left, i, false) ==> r.value == Definite(false)
  {
    var (converted, convertedValue) := TypeConversion.TryConvertToBoolean(i);
    assert i.NonEmpty() ==> i.Contains(i.Start);
    if converted then
      match CompareBool(op, left, convertedValue)
      case Some(b) => Some(Definite(b))
      case None => None
    else
      var r := RightAbstractBooleanCompare(op, left);
      var nonZero := if i.Start != 0 then i.Start else i.End;
      assert i.NonEmpty() ==> i.Contains(0) && i.Contains(nonZero) && nonZero != 0 by {
        if i.NonEmpty() { UnconvertibleHoldsBoth(i); }
      }
      r
  }

  /** `IntervalCompare(op, [s, e], right)` with a boolean on the right. */
  function IntervalCompareIntervalBool(op: Operation, i: Interval, right: bool): (r: Option<BoolResult>)
    ensures r.Some? <==> IsOperationComparison(op)
    ensures r.Some? && r.value.Definite? ==> AllBoolsLeft(op, i, right, r.value.value)
    ensures r.Some? && i.NonEmpty() && AllBoolsLeft(op, i, right, true) ==> r.value == Definite(true)
    ensures r.Some? && i.NonEmpty() && AllBoolsLeft(op, i, right, false) ==> r.value == Definite(false)
  {
    var (converted, convertedValue) := TypeConversion.TryConvertToBoolean(i);
    assert i.NonEmpty() ==> i.Contains(i.Start);
    if converted then
      match CompareBool(op, convertedValue, right)
      case Some(b) => Some(Definite(b))
      case None => None
    else
      var r := LeftAbstractBooleanCompare(op, right);
      var nonZero := if i.Start != 0 then i.Start else i.End;
      assert i.NonEmpty() ==> i.Contains(0) && i.Contains(nonZero) && nonZero != 0 by {
        if i.NonEmpty() { UnconvertibleHoldsBoth(i); }
      }
      r
  }

  /**
   * An interval on the left compared with an unknown boolean: the interval is read as a
   * boolean when it converts, and the answer is "any" otherwise.
   */
  function RightAbstractBooleanCompareInterval(op: Operation, i: Interval): (r: Option<BoolResult>)
    ensures r.Some? <==> IsOperationComparison(op)
    ensures r.Some? && r.value.Definite? ==> AllBoolsLeft(op, i, true, r.value.value) && AllBoolsLeft(op, i, false, r.value.value)
  {
    var (converted, convertedValue) := TypeConversion.TryConvertToBoolean(i);
    if converted then RightAbstractBooleanCompare(op, convertedValue) else AbstractCompare(op)
  }

  /** An unknown boolean compared with an interval on the right. */
  function LeftAbstractBooleanCompareInterval(op: Operation, i: Interval): (r: Option<BoolResult>)
    ensures r.Some? <==> IsOperationComparison(op)
    ensures r.Some? && r.value.Definite? ==> AllBoolsRight(op, true, i, r.value.value) && AllBoolsRight(op, false, i, r.value.value)
  {
    var (converted, convertedValue) := TypeConversion.TryConvertToBoolean(i);
    if converted then LeftAbstractBooleanCompare(op, convertedValue) else AbstractCompare(op)
  }

  /** A few rows of the table, as PHP defines them. */
  lemma BooleanTableRows(b: bool)
    ensures RightAbstractBooleanCompare(LessThan, true) == Some(Definite(false))
    ensures RightAbstractBooleanCompare(LessThanOrEqual, false) == Some(Definite(true))
    ensures RightAbstractBooleanCompare(GreaterThanOrEqual, true) == Some(Definite(true))
    ensures RightAbstractBooleanCompare(GreaterThan, false) == Some(Definite(false))
    ensures RightAbstractBooleanCompare(Equal, b) == Some(AnyBoolean)
    ensures RightAbstractBooleanCompare(NotEqual, b) == Some(AnyBoolean)
    ensures LeftAbstractBooleanCompare(LessThan, false) == Some(Definite(false))
    ensures LeftAbstractBooleanCompare(LessThanOrEqual, true) == Some(Definite(true))
    ensures LeftAbstractBooleanCompare(GreaterThan, true) == Some(Definite(false))
    ensures LeftAbstractBooleanCompare(GreaterThanOrEqual, false) == Some(Definite(true))
  {
  }
}
