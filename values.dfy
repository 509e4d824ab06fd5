/**
 * The abstract values the analyser computes with, the integer intervals
 * inside them, and the PHP operators it evaluates.
 *
 * Floating-point numbers are represented by tags without a number: the model
 * records that a result became a float, not which float.
 */
module Values {
  import opened CSharp

  /** A closed integer interval `[Start, End]` as held by an interval value. */
  datatype Interval = Interval(Start: int, End: int) {
    predicate Contains(x: int) { Start <= x <= End }
    predicate NonEmpty() { Start <= End }
    predicate IsInt32() { InInt32(Start) && InInt32(End) }
  }

  datatype Value =
    | Undefined
    | Bool(b: bool)
    | Int(i: int)
    | Long(l: int)
    | Float
    | Str(s: string)
    | IntInterval(Start: int, End: int)
    | LongInterval(Start: int, End: int)
    | FloatInterval
    | AnyBool
    | AnyInt
    | AnyLong
    | AnyFloat
    | AnyString
    | AnyArray
    | AnyObject
    | AnyResource
    | AnyValue
    | Array(arrayId: nat)
    | Object(objectId: nat)
  {
    /** Values whose exact content is not known. */
    predicate IsAbstract() {
      AnyBool? || AnyInt? || AnyLong? || AnyFloat? || AnyString? || AnyArray? || AnyObject? ||
      AnyResource? || AnyValue?
    }
    predicate IsNumeric() {
      Int? || Long? || Float? || IntInterval? || LongInterval? || FloatInterval? || AnyInt? ||
      AnyLong? || AnyFloat?
    }
    /** The numbers of the value lie in the range of its C# type, `int` or `long`. */
    predicate InRange() {
      (Int? ==> InInt32(i)) && (IntInterval? ==> InInt32(Start) && InInt32(End)) &&
      (Long? ==> InInt64(l)) && (LongInterval? ==> InInt64(Start) && InInt64(End))
    }
    /** The concrete integer `x` is one of the values this abstract value stands for. */
    predicate Admits(x: int) {
      (Int? && i == x) || (IntInterval? && Start <= x <= End) || AnyInt? || AnyValue?
    }
  }

  /**
   * The value PHP gives an integer result `x`: the integer when it fits into
   * 32 bits, otherwise a floating-point number.
   */
  function IntOrFloat(x: int): Value {
    if InInt32(x) then Int(x) else Float
  }

  /** The operators of PHP expressions, binary and unary, that the core distinguishes. */
  datatype Operation =
    | Equal | NotEqual | Identical | NotIdentical
    | LessThan | LessThanOrEqual | GreaterThan | GreaterThanOrEqual
    | Add | Sub | Mul | Div | Mod | Concat
    | And | Or | Xor | BitAnd | BitOr | BitXor | ShiftLeft | ShiftRight
    | Plus | Minus | LogicNegation | BitNegation | AtSign | Print | Clone
    | BoolCast | Int8Cast | Int16Cast | Int32Cast | Int64Cast
    | UInt8Cast | UInt16Cast | UInt32Cast | UInt64Cast | DecimalCast
    | DoubleCast | FloatCast | StringCast | UnicodeCast | BinaryCast
    | ObjectCast | ArrayCast | UnsetCast

  /** The result of a comparison: a definite boolean or "any boolean". */
  datatype BoolResult = Definite(value: bool) | AnyBoolean {
    /** The abstract value the analyser creates for this result. */
    function ToValue(): Value {
      match this
      case Definite(b) => Bool(b)
      case AnyBoolean => AnyBool
    }
  }
}
