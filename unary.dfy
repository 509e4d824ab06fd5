/**
 * The evaluator of PHP's unary operators: `+`, `-`, `!`, `~`, `@`, `print`,
 * `clone` and the casts. The evaluator is a visitor over abstract values; each
 * operand kind handles the operators it knows and passes the rest to the next
 * more general kind, ending at the handler of every value, which rejects the
 * operators that are not unary.
 */
module UnaryOperation {
  import opened Wrappers
  import opened CSharp
  import opened Values
  import opened AnalysisWarnings
  import opened Evaluation
  import TypeConversion

  // The messages of the errors this module reports.
  const BinaryStringsUnsupported := "Binary strings are not supported"
  const IntegralCastUnsupported := "Cast to different integral types is not supported"
  const NonUnaryOperation := "Resolving of non-unary operation"

  /** The exceptions the evaluator throws. */
  datatype Failure = NotSupported(message: string) | InvalidOperation(message: string)

  /** The operand kinds this model evaluates. */
  predicate IsModelledOperand(v: Value) {
    v.Undefined? || v.Bool? || (v.Int? && InInt32(v.i)) ||
    (v.IntInterval? && InInt32(v.Start) && InInt32(v.End) && v.Start <= v.End) ||
    v.AnyBool? || v.AnyInt? || v.AnyValue?
  }

  /** The casts handed to the string and boolean converters instead of the visitor. */
  predicate IsConverterCast(op: Operation) {
    op.StringCast? || op.UnicodeCast? || op.BoolCast?
  }

  predicate IsIntegralCast(op: Operation) {
    op.Int8Cast? || op.Int16Cast? || op.Int64Cast? || op.UInt8Cast? || op.UInt16Cast? ||
    op.UInt32Cast? || op.UInt64Cast? || op.DecimalCast?
  }

  /** The operators the evaluator accepts for at least one operand kind. */
  predicate IsUnary(op: Operation) {
    op.Plus? || op.Minus? || op.LogicNegation? || op.BitNegation? || op.AtSign? ||
    op.Print? || op.Clone? || op.Int32Cast? || op.DoubleCast? || op.FloatCast? ||
    op.ObjectCast? || op.ArrayCast? || op.UnsetCast?
  }

  /** A warning raised without a cause, which leaves the cause at its default. */
  function PlainWarning(v: Value, message: string): Outcome {
    Outcome(v, Some(Warning(message, WrongNumberOfArguments)))
  }

  const BooleanBitNegation: Outcome :=
    PlainWarning(AnyValue, "Unsupported operand types: Bit negation of boolean value")

  const NullBitNegation: Outcome :=
    PlainWarning(AnyValue, "Unsupported operand types: Bit negation of null value")

  const CloneOfNonObject: Outcome := PlainWarning(AnyValue, "__clone method called on non-object")

  /**
   * `VisitValue`: the operators every value shares, and the exceptions for
   * the unsupported casts and for operators that are not unary.
   */
  function VisitValue(op: Operation, v: Value): (r: Result<Outcome, Failure>)
    ensures r.Ok? <==> op.UnsetCast? || op.AtSign?
    ensures op.AtSign? ==> r == Ok(Quiet(v))
    ensures r.Err? && r.error.NotSupported? <==> IsIntegralCast(op) || op.BinaryCast?
  {
    if op.UnsetCast? then Ok(Quiet(Undefined))
    else if op.AtSign? then Ok(Quiet(v))
    else if op.BinaryCast? then Err(NotSupported(BinaryStringsUnsupported))
    else
      if IsIntegralCast(op) then Err(NotSupported(IntegralCastUnsupported))
      else Err(InvalidOperation(NonUnaryOperation))
  }

  /**
   * `PerformUsualOperation`: `clone`, `print` and the object and array casts,
   * which behave alike for almost every operand. A cast stands here for the
   * new object or array the snapshot would create.
   */
  function UsualOperation(op: Operation): (r: Option<Outcome>)
    ensures r.Some? <==> op.Clone? || op.Print? || op.ObjectCast? || op.ArrayCast?
  {
    if op.Clone? then Some(CloneOfNonObject)
    else if op.Print? then Some(Quiet(Bool(false)))
    else if op.ObjectCast? then Some(Quiet(AnyObject))
    else if op.ArrayCast? then Some(Quiet(AnyArray))
    else None
  }

  /** `VisitScalarValue`: the usual operations, then the handler of every value. */
  function VisitScalar(op: Operation, v: Value): (r: Result<Outcome, Failure>)
    ensures r.Ok? <==> op.Clone? || op.Print? || op.ObjectCast? || op.ArrayCast? || op.UnsetCast? || op.AtSign?
    ensures r.Err? && r.error.NotSupported? <==> IsIntegralCast(op) || op.BinaryCast?
  {
    match UsualOperation(op)
    case Some(o) => Ok(o)
    case None => VisitValue(op, v)
  }

  function VisitBoolean(op: Operation, b: bool): (r: Result<Outcome, Failure>)
    ensures r.Ok? <==> IsUnary(op)
    ensures r.Err? && r.error.NotSupported? <==> IsIntegralCast(op) || op.BinaryCast?
  {
    if op.Plus? then Ok(Quiet(Int(TypeConversion.ToIntegerBool(b))))
    else if op.Minus? then Ok(Quiet(Int(if b then -1 else 0)))
    else if op.LogicNegation? then Ok(Quiet(Bool(!b)))
    else if op.BitNegation? then Ok(BooleanBitNegation)
    else if op.Int32Cast? then Ok(Quiet(Int(TypeConversion.ToIntegerBool(b))))
    else if op.FloatCast? then Ok(Quiet(Float))
    else if op.DoubleCast? then Ok(Quiet(Float))
    else VisitScalar(op, Bool(b))
  }

  /**
   * Negation of an integer as written: the test meant to catch `int.MinValue`
   * compares the wrapped negation with 0, but `-int.MinValue` wraps to
   * `int.MinValue`, not to 0, so the float branch is never taken.
   */
  function NegateIntegerAsWritten(i: Int32): (r: Value)
    ensures r.Int?
  {
    if i == 0 || Wrap32(-(i as int)) != 0 then Int(Wrap32(-(i as int))) else Float
  }

  lemma NegateIntegerAsWrittenWraps()
    ensures NegateIntegerAsWritten(MinValue) == Int(MinValue)
    ensures !InInt32(-MinValue)
  {
    assert Wrap32(-MinValue) == MinValue;
  }

  /** Negation of an integer: the negated integer, or a float for `int.MinValue`. */
  function NegateInteger(i: Int32): (r: Value)
    ensures r == IntOrFloat(-(i as int))
    ensures r.Float? <==> i == MinValue
  {
    if i == MinValue then Float else Int(-i)
  }

  /** `VisitIntegerValue`, with the negation corrected, and `VisitGenericNumericValue` after it. */
  function VisitInteger(op: Operation, i: Int32): (r: Result<Outcome, Failure>)
    ensures r.Ok? <==> IsUnary(op)
    ensures r.Err? && r.error.NotSupported? <==> IsIntegralCast(op) || op.BinaryCast?
  {
    if op.Plus? then Ok(Quiet(Int(i)))
    else if op.Minus? then Ok(Quiet(NegateInteger(i)))
    else if op.BitNegation? then Ok(Quiet(Int(BitNot(i))))
    else if op.Int32Cast? then Ok(Quiet(Int(i)))
    else if op.FloatCast? then Ok(Quiet(Float))
    else if op.DoubleCast? then Ok(Quiet(Float))
    else if op.LogicNegation? then Ok(Quiet(Bool(!TypeConversion.ToBooleanInt(i))))
    else VisitScalar(op, Int(i))
  }

  /**
   * Negation of an interval with distinct ends as written: the same test as
   * for integers lets `int.MinValue` through as a start, and the interval
   * `[-End, int.MinValue]` comes out with its ends in the wrong order.
   */
  function NegateIntervalAsWritten(s: Int32, e: Int32): (r: Value)
    requires s < e
    ensures r.IntInterval?
  {
    if s == 0 || Wrap32(-(s as int)) != 0 then IntInterval(Wrap32(-(e as int)), Wrap32(-(s as int))) else FloatInterval
  }

  lemma NegateIntervalAsWrittenInverts()
    ensures NegateIntervalAsWritten(MinValue, 0) == IntInterval(0, MinValue)
  {
    assert Wrap32(-MinValue) == MinValue;
  }

  /**
   * Negation of an interval with distinct ends: the mirrored interval, or a
   * float interval when its start is `int.MinValue`, whose negation is a float.
   */
  function NegateInterval(s: Int32, e: Int32): (r: Value)
    requires s < e
    ensures r.FloatInterval? <==> s == MinValue
    ensures r.IntInterval? ==> r.Start < r.End && InInt32(r.Start) && InInt32(r.End)
    ensures r.IntInterval? ==> forall x: int :: Interval(s, e).Contains(x) <==> Interval(r.Start, r.End).Contains(-x)
  {
    if s == MinValue then FloatInterval else IntInterval(-e, -s)
  }

  /** `VisitGenericIntervalValue`. */
  function VisitInterval(op: Operation, s: Int32, e: Int32): (r: Result<Outcome, Failure>)
    requires s <= e
    ensures r.Ok? <==> op.Plus? || op.LogicNegation? || op.Clone? || op.Print? || op.ObjectCast? ||
                       op.ArrayCast? || op.UnsetCast? || op.AtSign?
    ensures r.Err? && r.error.NotSupported? <==> IsIntegralCast(op) || op.BinaryCast?
  {
    if op.Plus? then Ok(Quiet(IntInterval(s, e)))
    else if op.LogicNegation? then
      var (converted, b) := TypeConversion.TryConvertToBoolean(Interval(s, e));
      if converted then Ok(Quiet(Bool(!b))) else Ok(Quiet(AnyBool))
    else
      match UsualOperation(op)
      case Some(o) => Ok(o)
      case None => VisitValue(op, IntInterval(s, e))
  }

  /**
   * `VisitIntervalIntegerValue`: an interval of one number is evaluated as
   * that integer; otherwise negation mirrors the interval and bit negation maps
   * `[s, e]` to `[~e, ~s]`.
   */
  function VisitIntegerInterval(op: Operation, s: Int32, e: Int32): (r: Result<Outcome, Failure>)
    requires s <= e
    ensures r.Ok? <==> IsUnary(op)
    ensures r.Err? && r.error.NotSupported? <==> IsIntegralCast(op) || op.BinaryCast?
  {
    if s == e then VisitInteger(op, s)
    else
      if op.Minus? then Ok(Quiet(NegateInterval(s, e)))
      else if op.BitNegation? then Ok(Quiet(IntInterval(BitNot(e), BitNot(s))))
      else if op.Int32Cast? then Ok(Quiet(IntInterval(s, e)))
      else if op.FloatCast? then Ok(Quiet(FloatInterval))
      else if op.DoubleCast? then Ok(Quiet(FloatInterval))
      else VisitInterval(op, s, e)
  }

  function VisitUndefined(op: Operation): (r: Result<Outcome, Failure>)
    ensures r.Ok? <==> IsUnary(op)
    ensures r.Err? && r.error.NotSupported? <==> IsIntegralCast(op) || op.BinaryCast?
  {
    if op.Plus? then Ok(Quiet(Int(0)))
    else if op.Minus? then Ok(Quiet(Int(0)))
    else if op.LogicNegation? then Ok(Quiet(Bool(true)))
    else if op.BitNegation? then Ok(NullBitNegation)
    else if op.Int32Cast? then Ok(Quiet(Int(0)))
    else if op.FloatCast? then Ok(Quiet(Float))
    else if op.DoubleCast? then Ok(Quiet(Float))
    else VisitScalar(op, Undefined)
  }

  /** `VisitAnyValue`: what is known of the result of an operator on a completely unknown value. */
  function VisitAny(op: Operation, v: Value): (r: Result<Outcome, Failure>)
    ensures r.Ok? <==> IsUnary(op)
    ensures r.Err? && r.error.NotSupported? <==> IsIntegralCast(op) || op.BinaryCast?
  {
    if op.Plus? then Ok(Quiet(AnyValue))
    else if op.Minus? then Ok(Quiet(AnyValue))
    else if op.LogicNegation? then Ok(Quiet(AnyBool))
    else if op.BitNegation? then Ok(Quiet(AnyValue))
    else if op.Int32Cast? then Ok(Quiet(AnyInt))
    else if op.FloatCast? then Ok(Quiet(AnyFloat))
    else if op.DoubleCast? then Ok(Quiet(AnyFloat))
    else if op.Clone? then Ok(CloneOfNonObject)
    else if op.Print? then Ok(Quiet(Bool(false)))
    else if op.ObjectCast? then Ok(Quiet(AnyObject))
    else if op.ArrayCast? then Ok(Quiet(AnyArray))
    else VisitValue(op, v)
  }

  /** `VisitAnyScalarValue`. */
  function VisitAnyScalar(op: Operation, v: Value): (r: Result<Outcome, Failure>)
    ensures r.Ok? <==> IsUnary(op)
    ensures r.Err? && r.error.NotSupported? <==> IsIntegralCast(op) || op.BinaryCast?
  {
    if op.Int32Cast? then Ok(Quiet(AnyInt))
    else if op.FloatCast? then Ok(Quiet(AnyFloat))
    else if op.DoubleCast? then Ok(Quiet(AnyFloat))
    else
      match UsualOperation(op)
      case Some(o) => Ok(o)
      case None => VisitAny(op, v)
  }

  /** `VisitAnyBooleanValue`: `+` and `-` give the intervals of the two possible results. */
  function VisitAnyBoolean(op: Operation): (r: Result<Outcome, Failure>)
    ensures r.Ok? <==> IsUnary(op)
    ensures r.Err? && r.error.NotSupported? <==> IsIntegralCast(op) || op.BinaryCast?
  {
    if op.Plus? then Ok(Quiet(IntInterval(0, 1)))
    else if op.Minus? then Ok(Quiet(IntInterval(-1, 0)))
    else if op.LogicNegation? then Ok(Quiet(AnyBool))
    else if op.BitNegation? then Ok(BooleanBitNegation)
    else VisitAnyScalar(op, AnyBool)
  }

  /** `VisitAnyIntegerValue` and `VisitAnyNumericValue` after it. */
  function VisitAnyInteger(op: Operation): (r: Result<Outcome, Failure>)
    ensures r.Ok? <==> IsUnary(op)
    ensures r.Err? && r.error.NotSupported? <==> IsIntegralCast(op) || op.BinaryCast?
  {
    if op.Minus? then Ok(Quiet(AnyValue))
    else if op.BitNegation? then Ok(Quiet(AnyInt))
    else if op.Plus? then Ok(Quiet(AnyInt))
    else if op.LogicNegation? then Ok(Quiet(AnyBool))
    else VisitAnyScalar(op, AnyInt)
  }

  /** The visitor: the handler of the operand's kind. */
  function Visit(op: Operation, v: Value): (r: Result<Outcome, Failure>)
    requires IsModelledOperand(v)
    ensures r.Ok? <==> IsUnary(op)
    ensures r.Err? && r.error.NotSupported? <==> IsIntegralCast(op) || op.BinaryCast?
  {
    match v
    case Undefined => VisitUndefined(op)
    case Bool(b) => VisitBoolean(op, b)
    case Int(i) => VisitInteger(op, i)
    case IntInterval(s, e) => VisitIntegerInterval(op, s, e)
    case AnyBool => VisitAnyBoolean(op)
    case AnyInt => VisitAnyInteger(op)
    case AnyValue => VisitAny(op, v)
  }

  // ---------------------------------------------------------------------------
  // Properties of the visitor

  /** An interval of one number gives what that number gives. */
  lemma SingletonIntervalIsInteger(op: Operation, i: Int32)
    ensures Visit(op, IntInterval(i, i)) == Visit(op, Int(i))
  {
  }

  /** `+` converts like the integer cast on every modelled operand. */
  lemma PlusIsIntegerCastOnScalars(v: Value)
    requires IsModelledOperand(v) && (v.Undefined? || v.Bool? || v.Int? || v.IntInterval?)
    ensures Visit(Plus, v) == Visit(Int32Cast, v)
  {
  }

  /** `-` gives PHP's negation of an integer, a float when it does not fit. */
  lemma MinusNegatesIntegers(i: Int32)
    ensures Visit(Minus, Int(i)) == Ok(Quiet(IntOrFloat(-(i as int))))
  {
  }

  /** Logical negation undoes itself on booleans. */
  lemma LogicNegationIsInvolution(b: bool)
    ensures Visit(LogicNegation, Visit(LogicNegation, Bool(b)).value.value) == Ok(Quiet(Bool(b)))
  {
  }

  /** Bit negation undoes itself on integers and on intervals of more than one number. */
  lemma BitNegationIsInvolution(s: Int32, e: Int32)
    requires s <= e
    ensures Visit(BitNegation, Visit(BitNegation, Int(s)).value.value) == Ok(Quiet(Int(s)))
    ensures s < e ==> Visit(BitNegation, Visit(BitNegation, IntInterval(s, e)).value.value) == Ok(Quiet(IntInterval(s, e)))
  {
    assert BitNot(BitNot(s)) == s && BitNot(BitNot(e)) == e;
    if s < e {
      assert Visit(BitNegation, IntInterval(s, e)) == Ok(Quiet(IntInterval(BitNot(e), BitNot(s))));
      var w := IntInterval(BitNot(e), BitNot(s));
      assert IsModelledOperand(w);
      assert Visit(BitNegation, w) == VisitIntegerInterval(BitNegation, BitNot(e), BitNot(s)) == Ok(Quiet(IntInterval(s, e)));
    }
  }

  /**
   * The result for an abstract operand covers the result for a concrete one:
   * the same value, "any value", an integer inside the interval (or any
   * integer), an interval inside the interval, a boolean under "any boolean",
   * or a float under a float tag.
   */
  predicate Covers(abs: Value, conc: Value) {
    abs == conc || abs.AnyValue? ||
    (conc.Int? && abs.Admits(conc.i)) ||
    (conc.IntInterval? && abs.IntInterval? && abs.Start <= conc.Start && conc.End <= abs.End) ||
    (conc.IntInterval? && abs.AnyInt?) ||
    (conc.Bool? && abs.AnyBool?) ||
    ((conc.Float? || conc.FloatInterval?) && (abs.AnyFloat? || abs.FloatInterval?))
  }

  /** Outcomes agree on failure, and on success the abstract value covers the concrete one. */
  predicate CoversOutcome(abs: Result<Outcome, Failure>, conc: Result<Outcome, Failure>) {
    (abs.Err? <==> conc.Err?) && (abs.Ok? ==> Covers(abs.value.value, conc.value.value))
  }

  /** "Any boolean" covers both booleans, and it raises exactly the warnings they raise. */
  lemma AnyBooleanCoversBooleans(op: Operation, b: bool)
    ensures CoversOutcome(Visit(op, AnyBool), Visit(op, Bool(b)))
    ensures Visit(op, AnyBool).Ok? ==> Visit(op, AnyBool).value.warning == Visit(op, Bool(b)).value.warning
  {
  }

  /**
   * An interval covers each of its numbers, except that negating an interval
   * that starts at `int.MinValue` gives a float interval.
   */
  lemma IntervalCoversItsNumbers(op: Operation, s: Int32, e: Int32, x: Int32)
    requires s <= x <= e
    ensures op.Minus? && s < e && s == MinValue ==> Visit(op, IntInterval(s, e)) == Ok(Quiet(FloatInterval))
    ensures !(op.Minus? && s < e && s == MinValue) ==> CoversOutcome(Visit(op, IntInterval(s, e)), Visit(op, Int(x)))
  {
    if !IsUnary(op) || s == e {
    } else if op.Plus? {
    } else if op.Minus? {
    } else if op.LogicNegation? {
      assert Interval(s, e).Contains(x);
    } else if op.BitNegation? {
    } else if op.Int32Cast? {
    } else if op.DoubleCast? || op.FloatCast? {
    }
  }

  /** "Any integer" covers every integer and every interval. */
  lemma AnyIntegerCoversIntegers(op: Operation, v: Value)
    requires IsModelledOperand(v) && (v.Int? || v.IntInterval?)
    ensures CoversOutcome(Visit(op, AnyInt), Visit(op, v))
  {
    if !IsUnary(op) {
    } else if op.Plus? {
    } else if op.Minus? {
    } else if op.LogicNegation? {
    } else if op.BitNegation? {
    } else if op.AtSign? {
    } else if op.Print? {
    } else if op.Clone? {
    } else if op.Int32Cast? {
    } else if op.DoubleCast? || op.FloatCast? {
    } else if op.ObjectCast? || op.ArrayCast? {
    }
  }

  /** "Any value" covers every modelled operand. */
  lemma AnyValueCoversEverything(op: Operation, v: Value)
    requires IsModelledOperand(v)
    ensures CoversOutcome(Visit(op, AnyValue), Visit(op, v))
  {
    if !IsUnary(op) {
    } else if op.Plus? {
    } else if op.Minus? {
    } else if op.LogicNegation? {
    } else if op.BitNegation? {
    } else if op.AtSign? {
    } else if op.Print? {
    } else if op.Clone? {
    } else if op.Int32Cast? {
    } else if op.DoubleCast? || op.FloatCast? {
    } else if op.ObjectCast? || op.ArrayCast? {
    }
  }

  // ---------------------------------------------------------------------------
  // The evaluator object

  /** What `Evaluate` returns for one operand when the visitor succeeds. */
  function ResultValue(op: Operation, v: Value): Value
    requires IsModelledOperand(v)
  {
    match Visit(op, v)
    case Ok(o) => o.value
    case Err(_) => Undefined
  }

  /** The warnings the visitor raises for one operand. */
  function RaisedWarnings(op: Operation, v: Value): seq<Warning>
    requires IsModelledOperand(v)
  {
    match Visit(op, v)
    case Ok(o) => if o.warning.Some? then [o.warning.value] else []
    case Err(_) => []
  }

  /**
   * The evaluator keeps the current operator and the last result in fields the
   * visitor methods write. The warnings it raises are collected in `warnings`.
   * The string and boolean converters are not part of this model: their
   * results are passed in.
   */
  class UnaryOperationEvaluator {
    var operation: Operation
    var result: Option<Value>
    var warnings: seq<Warning>

    constructor ()
      ensures result.None? && warnings == []
    {
      operation := Plus;
      result := None;
      warnings := [];
    }

    /** Visits one operand under the current operator. */
    method Accept(v: Value) returns (failure: Option<Failure>)
      requires IsModelledOperand(v)
      modifies this
      ensures operation == old(operation)
      ensures failure.Some? <==> Visit(operation, v).Err?
      ensures failure.Some? ==> failure.value == Visit(operation, v).error
      ensures failure.None? ==> result == Some(ResultValue(operation, v))
      ensures failure.Some? ==> result == None
      ensures warnings == old(warnings) + RaisedWarnings(operation, v)
    {
      result := None;
      match Visit(operation, v)
      case Ok(o) =>
        result := Some(o.value);
        if o.warning.Some? {
          warnings := warnings + [o.warning.value];
        }
        failure := None;
      case Err(f) =>
        failure := Some(f);
    }

    /** `Evaluate(operation, operand)`. */
    method Evaluate(op: Operation, operand: Value, converted: Value) returns (r: Result<Value, Failure>)
      requires IsModelledOperand(operand)
      modifies this
      ensures IsConverterCast(op) ==> r == Ok(converted) && warnings == old(warnings)
      ensures !IsConverterCast(op) ==> operation == op
      ensures !IsConverterCast(op) && Visit(op, operand).Ok? ==> r == Ok(ResultValue(op, operand))
      ensures !IsConverterCast(op) && Visit(op, operand).Err? ==> r == Err(Visit(op, operand).error)
      ensures !IsConverterCast(op) ==> warnings == old(warnings) + RaisedWarnings(op, operand)
    {
      if IsConverterCast(op) {
        return Ok(converted);
      }
      operation := op;
      var failure := Accept(operand);
      if failure.Some? {
        return Err(failure.value);
      }
      r := Ok(result.value);
    }

    /**
     * `Evaluate(operation, entry)`: the operator applied to every possible
     * value of the entry, collected into a set. The first operand the visitor
     * rejects ends the evaluation with its exception.
     */
    method EvaluateEntry(op: Operation, entry: set<Value>, converted: set<Value>) returns (r: Result<set<Value>, Failure>)
      requires forall v | v in entry :: IsModelledOperand(v)
      modifies this
      ensures IsConverterCast(op) ==> r == Ok(converted) && warnings == old(warnings)
      ensures r.Err? ==> exists v | v in entry :: Visit(op, v) == Err(r.error)
      ensures !IsConverterCast(op) && (forall v | v in entry :: Visit(op, v).Ok?) ==>
        r == Ok(set v | v in entry :: ResultValue(op, v))
      ensures !IsConverterCast(op) && (exists v | v in entry :: Visit(op, v).Err?) ==> r.Err?
      ensures old(warnings) <= warnings
      ensures forall w | w in warnings[|old(warnings)|..] :: exists v | v in entry :: w in RaisedWarnings(op, v)
    {
      if IsConverterCast(op) {
        return Ok(converted);
      }
      operation := op;
      var values: set<Value> := {};
      var remaining := entry;
      while remaining != {}
        invariant remaining <= entry
        invariant operation == op
        invariant values == set v | v in entry - remaining :: ResultValue(op, v)
        invariant forall v | v in entry - remaining :: Visit(op, v).Ok?
        invariant old(warnings) <= warnings
        invariant forall w | w in warnings[|old(warnings)|..] :: exists v | v in entry :: w in RaisedWarnings(op, v)
        decreases remaining
      {
        var v :| v in remaining;
        ghost var before := warnings;
        var failure := Accept(v);
        if failure.Some? {
          assert warnings == before;
          return Err(failure.value);
        }
        assert warnings[|old(warnings)|..] == before[|old(warnings)|..] + RaisedWarnings(op, v);
        values := values + {result.value};
        remaining := remaining - {v};
      }
      assert entry - remaining == entry;
      r := Ok(values);
    }
  }
}
