/**
 * The assumption executer of the flow resolver: whether a branch condition can
 * hold, and the refinements of variables that assuming it to be true or false
 * implies. The refinements act on a memory context that is not part of this
 * model; here they are returned as a list of constraints.
 */
module AssumptionExecuter {
  import opened Wrappers
  import opened CSharp

  // The messages of the errors this module reports.
  const UnsupportedCondition := "Condition form is not supported."

  /** What a condition can evaluate to. */
  datatype PossibleValues = OnlyTrue | OnlyFalse | Unknown

  /** How the parts of a condition combine; only All and None are refined. */
  datatype ConditionForm = All | None | Some | SomeNot | ExactlyOne | NotExactlyOne

  datatype BinaryOperator =
    | EqualOp | NotEqualOp | GreaterThanOp | GreaterThanOrEqualOp | LessThanOp | LessThanOrEqualOp
    | AndOp | OrOp | XorOp | OtherBinaryOp

  /** The parts of a PHP expression the executer looks at. */
  datatype Expr =
    | Binary(op: BinaryOperator, left: Expr, right: Expr)
    | LogicNegation(operand: Expr)
    | OtherUnary(operand: Expr)
    /** A variable-like construct; `direct` for a plain `$name`. */
    | Var(name: string, direct: bool)
    | IntLiteral(i: Int32)
    | LongLiteral(l: Int64)
    | StringLiteral(s: string)
    | BoolLiteral(b: bool)
    | DoubleLiteral
    | NullLiteral
    | IssetExpr(vars: seq<Expr>)
    /** Any other expression; `id` names it in the evaluation log. */
    | OtherExpr(id: nat)

  predicate IsVarLike(e: Expr) { e.Var? }

  /** The values a refined variable is intersected with. */
  datatype Restriction =
    | StringValue(s: string)
    | BoolValue(b: bool)
    | FloatValue
    | IntValue(i: Int32)
    | LongValue(l: Int64)
    | UndefinedValue
    /** The values the evaluation log recorded for an expression. */
    | LoggedValues(of: Expr)
    | AnyStringValue
    | FloatInterval
    | IntegerInterval(Start: Int32, End: Int32)
    | LongInterval(LongStart: Int64, LongEnd: Int64)
    /**
     * An interval bounded by the logged minimum (or maximum) of an expression,
     * excluded when `strict`. The intersection happens only when that minimum
     * (or maximum) is an int, a long or a double; otherwise the variable is left as it is.
     */
    | AboveLogged(of: Expr, strict: bool)
    | BelowLogged(of: Expr, strict: bool)

  /** One refinement of the memory context. */
  datatype Constraint =
    | IntersectionAssign(target: Expr, restriction: Restriction)
    | RemoveUndefined(variable: string)
    | AssignUndefined(variable: string)
    | AssignTrueEvaluable(variable: string)
    | AssignFalseEvaluable(variable: string)
    /** A compound `&&`, `||` or `xor` part: merged with a fresh context, which refines nothing. */
    | UnionMerge

  // ----- the condition result -----

  /**
   * `GetConditionResult`: unknown when the value does not convert to one
   * boolean; otherwise the condition holds iff the value differs from "the
   * form is None".
   */
  function GetConditionResult(form: ConditionForm, value: Option<bool>): (r: PossibleValues)
    ensures value.None? <==> r == Unknown
    ensures value.Some? ==> (r == OnlyTrue <==> (value.value != (form == ConditionForm.None)))
  {
    if value.None? then Unknown
    else
      var flipResult := form == ConditionForm.None;
      if value.value != flipResult then OnlyTrue else OnlyFalse
  }

  /**
   * `IsSatisfied`: `entry` is the boolean conversion of the value the
   * evaluation log holds for the condition, or None when the log has no entry.
   */
  function IsSatisfied(form: ConditionForm, entry: Option<Option<bool>>): (r: PossibleValues)
    ensures entry.None? ==> r == Unknown
    ensures entry.Some? && entry.value.Some? ==> r != Unknown
  {
    if entry.Some? then GetConditionResult(form, entry.value) else Unknown
  }

  // ----- refinement -----

  /** `RefineState`: assume the condition true for All, false for None; other forms are not supported. */
  function RefineState(form: ConditionForm, condition: Expr, logged: set<Expr>): (r: Result<seq<Constraint>, string>)
    ensures r.Err? <==> !(form == All || form == ConditionForm.None)
    ensures form == All ==> r == Ok(AssumeTrue(condition, logged))
    ensures form == ConditionForm.None ==> r == Ok(AssumeFalse(condition, logged))
  {
    if form == All then Ok(AssumeTrue(condition, logged))
    else if form == ConditionForm.None then Ok(AssumeFalse(condition, logged))
    else Err(UnsupportedCondition)
  }

  function AssumeTrue(e: Expr, logged: set<Expr>): seq<Constraint>
    decreases e, 1
  {
    match e
    case Binary(op, l, r) =>
      if op == EqualOp then AssumeEquals(l, r, logged)
      else if op == NotEqualOp then AssumeNotEquals(l, r)
      else if op == GreaterThanOp then AssumeGreaterThan(l, r, false, logged)
      else if op == GreaterThanOrEqualOp then AssumeGreaterThan(l, r, true, logged)
      else if op == LessThanOp then AssumeLesserThan(l, r, false, logged)
      else if op == LessThanOrEqualOp then AssumeLesserThan(l, r, true, logged)
      else if op == AndOp || op == OrOp || op == XorOp then [UnionMerge]
      else []
    case LogicNegation(operand) => AssumeFalse(operand, logged)
    case Var(name, direct) => if direct then [AssignTrueEvaluable(name)] else []
    case IssetExpr(vars) => AssumeIsset(vars, true)
    case _ => []
  }

  function AssumeFalse(e: Expr, logged: set<Expr>): seq<Constraint>
    decreases e, 1
  {
    match e
    case Binary(op, l, r) =>
      if op == EqualOp then AssumeNotEquals(l, r)
      else if op == NotEqualOp then AssumeEquals(l, r, logged)
      else if op == GreaterThanOp then AssumeLesserThan(l, r, true, logged)
      else if op == GreaterThanOrEqualOp then AssumeLesserThan(l, r, false, logged)
      else if op == LessThanOp then AssumeGreaterThan(l, r, true, logged)
      else if op == LessThanOrEqualOp then AssumeGreaterThan(l, r, false, logged)
      else if op == AndOp || op == OrOp || op == XorOp then [UnionMerge]
      else []
    case LogicNegation(operand) => AssumeTrue(operand, logged)
    case Var(name, direct) => if direct then [AssignFalseEvaluable(name)] else []
    case IssetExpr(vars) => AssumeIsset(vars, false)
    case _ => []
  }

  /** Nothing can be learnt from `a != b`. */
  function AssumeNotEquals(left: Expr, right: Expr): seq<Constraint>
  {
    []
  }

  /** The measure of the operand swap: a literal-first comparison is turned round once. */
  function SwapRank(left: Expr, right: Expr): nat
  {
    if IsVarLike(right) && !IsVarLike(left) then 1 else 0
  }

  function AssumeEquals(left: Expr, right: Expr, logged: set<Expr>): seq<Constraint>
    decreases SwapRank(left, right)
  {
    if IsVarLike(right) && !IsVarLike(left) then AssumeEquals(right, left, logged)
    else if IsVarLike(left) then
      match right
      case StringLiteral(s) => [IntersectionAssign(left, StringValue(s))]
      case BoolLiteral(b) => [IntersectionAssign(left, BoolValue(b))]
      case DoubleLiteral => [IntersectionAssign(left, FloatValue)]
      case IntLiteral(i) => [IntersectionAssign(left, IntValue(i))]
      case LongLiteral(l) => [IntersectionAssign(left, LongValue(l))]
      case NullLiteral => [IntersectionAssign(left, UndefinedValue)]
      case _ => if right in logged then [IntersectionAssign(left, LoggedValues(right))] else []
    else []
  }

  function AssumeGreaterThan(left: Expr, right: Expr, equal: bool, logged: set<Expr>): seq<Constraint>
    decreases SwapRank(left, right)
  {
    if IsVarLike(right) && !IsVarLike(left) then AssumeLesserThan(right, left, equal, logged)
    else if IsVarLike(left) then
      match right
      case StringLiteral(_) => [IntersectionAssign(left, AnyStringValue)]
      case DoubleLiteral => [IntersectionAssign(left, FloatInterval)]
      case IntLiteral(c) => [IntersectionAssign(left, IntegerInterval(if equal then c else Wrap32(c + 1), MaxValue))]
      case LongLiteral(c) => [IntersectionAssign(left, LongInterval(if equal then c else Wrap64(c + 1), LongMaxValue))]
      case _ => if right in logged then [IntersectionAssign(left, AboveLogged(right, !equal))] else []
    else []
  }

  function AssumeLesserThan(left: Expr, right: Expr, equal: bool, logged: set<Expr>): seq<Constraint>
    decreases SwapRank(left, right)
  {
    if IsVarLike(right) && !IsVarLike(left) then AssumeGreaterThan(right, left, equal, logged)
    else if IsVarLike(left) then
      match right
      case StringLiteral(_) => [IntersectionAssign(left, AnyStringValue)]
      case DoubleLiteral => [IntersectionAssign(left, FloatInterval)]
      case IntLiteral(c) => [IntersectionAssign(left, IntegerInterval(MinValue, if equal then c else Wrap32(c - 1)))]
      case LongLiteral(c) => [IntersectionAssign(left, LongInterval(LongMinValue, if equal then c else Wrap64(c - 1)))]
      case _ => if right in logged then [IntersectionAssign(left, BelowLogged(right, !equal))] else []
    else []
  }

  /** `isset` refines only plain variables: true removes the undefined value, false assigns it. */
  function AssumeIsset(vars: seq<Expr>, assumeTrue: bool): (r: seq<Constraint>)
    ensures |r| <= |vars|
  {
    if |vars| == 0 then []
    else
      var rest := AssumeIsset(vars[1..], assumeTrue);
      match vars[0]
      case Var(name, true) => (if assumeTrue then [RemoveUndefined(name)] else [AssignUndefined(name)]) + rest
      case _ => rest
  }

  // ----- properties -----

  /** The comparison that holds exactly when the given one does not. */
  function Negated(op: BinaryOperator): BinaryOperator
  {
    match op
    case EqualOp => NotEqualOp
    case NotEqualOp => EqualOp
    case GreaterThanOp => LessThanOrEqualOp
    case GreaterThanOrEqualOp => LessThanOp
    case LessThanOp => GreaterThanOrEqualOp
    case LessThanOrEqualOp => GreaterThanOp
    case _ => op
  }

  predicate IsComparison(op: BinaryOperator)
  {
    op in {EqualOp, NotEqualOp, GreaterThanOp, GreaterThanOrEqualOp, LessThanOp, LessThanOrEqualOp}
  }

  /** Assuming a comparison false is assuming its negation true: `==` to `!=`, `>` to `<=`, `>=` to `<`, and back. */
  lemma AssumeFalseIsNegatedTrue(op: BinaryOperator, left: Expr, right: Expr, logged: set<Expr>)
    requires IsComparison(op)
    ensures Negated(Negated(op)) == op
    ensures AssumeFalse(Binary(op, left, right), logged) == AssumeTrue(Binary(Negated(op), left, right), logged)
  {
  }

  /** Logical negation swaps assuming true and assuming false. */
  lemma NegationSwapsAssumptions(e: Expr, logged: set<Expr>)
    ensures AssumeTrue(LogicNegation(e), logged) == AssumeFalse(e, logged)
    ensures AssumeFalse(LogicNegation(e), logged) == AssumeTrue(e, logged)
    ensures AssumeTrue(LogicNegation(LogicNegation(e)), logged) == AssumeTrue(e, logged)
  {
  }

  /** A literal on the left and a variable on the right are swapped, with the comparison mirrored. */
  lemma LiteralFirstIsMirrored(literal: Expr, variable: Expr, equal: bool, logged: set<Expr>)
    requires IsVarLike(variable) && !IsVarLike(literal)
    ensures AssumeGreaterThan(literal, variable, equal, logged) == AssumeLesserThan(variable, literal, equal, logged)
    ensures AssumeLesserThan(literal, variable, equal, logged) == AssumeGreaterThan(variable, literal, equal, logged)
    ensures AssumeEquals(literal, variable, logged) == AssumeEquals(variable, literal, logged)
  {
  }

  /** `v > c`, or `v >= c` when `equal`. */
  predicate Above(v: int, c: int, equal: bool) { if equal then v >= c else v > c }

  /** `v < c`, or `v <= c` when `equal`. */
  predicate Below(v: int, c: int, equal: bool) { if equal then v <= c else v < c }

  /** The interval an integer-literal comparison narrows a variable to. */
  function IntBound(constraints: seq<Constraint>): Option<(int, int)>
  {
    if |constraints| == 1 && constraints[0].IntersectionAssign? && constraints[0].restriction.IntegerInterval?
    then Option.Some((constraints[0].restriction.Start, constraints[0].restriction.End))
    else Option.None
  }

  /**
   * `x > c` narrows x to [c+1, MaxValue] and `x >= c` to [c, MaxValue]; every
   * int satisfying the comparison lies in the interval, and for `x > c` with c
   * below the maximum the interval holds nothing else.
   */
  lemma GreaterThanLiteralBounds(x: Expr, c: Int32, equal: bool, logged: set<Expr>)
    requires IsVarLike(x)
    ensures var b := IntBound(AssumeGreaterThan(x, IntLiteral(c), equal, logged));
      b.Some? && b.value.1 == MaxValue &&
      (equal ==> b.value.0 == c) &&
      (!equal && c < MaxValue ==> b.value.0 == c + 1) &&
      forall v: Int32 :: Above(v, c, equal) ==> b.value.0 <= v <= b.value.1
  {
    if !equal && c == MaxValue {
      assert Wrap32(c + 1) == MinValue;
    }
  }

  /**
   * `x < c` narrows x to [MinValue, c-1] and `x <= c` to [MinValue, c]; every
   * int satisfying the comparison lies in the interval.
   */
  lemma LessThanLiteralBounds(x: Expr, c: Int32, equal: bool, logged: set<Expr>)
    requires IsVarLike(x)
    ensures var b := IntBound(AssumeLesserThan(x, IntLiteral(c), equal, logged));
      b.Some? && b.value.0 == MinValue &&
      (equal ==> b.value.1 == c) &&
      (!equal && c > MinValue ==> b.value.1 == c - 1) &&
      forall v: Int32 :: Below(v, c, equal) ==> b.value.0 <= v <= b.value.1
  {
    if !equal && c == MinValue {
      assert Wrap32(c - 1) == MaxValue;
    }
  }

  /** Assuming `isset` true removes the undefined value from exactly the plain variables; false assigns it. */
  lemma {:induction false} IssetRefinesPlainVariables(vars: seq<Expr>, assumeTrue: bool)
    ensures forall c :: c in AssumeIsset(vars, assumeTrue) ==>
      (if assumeTrue then c.RemoveUndefined? else c.AssignUndefined?) && Var(c.variable, true) in vars
    ensures forall name :: Var(name, true) in vars ==>
      (if assumeTrue then RemoveUndefined(name) else AssignUndefined(name)) in AssumeIsset(vars, assumeTrue)
  {
    if |vars| > 0 {
      IssetRefinesPlainVariables(vars[1..], assumeTrue);
      assert vars == [vars[0]] + vars[1..];
    }
  }

  /** Every intersection the refinement makes narrows a variable-like construct. */
  predicate RefinesOnlyVariables(constraints: seq<Constraint>)
  {
    forall i :: 0 <= i < |constraints| && constraints[i].IntersectionAssign? ==> IsVarLike(constraints[i].target)
  }

  lemma ComparisonsRefineOnlyVariables(left: Expr, right: Expr, equal: bool, logged: set<Expr>)
    ensures RefinesOnlyVariables(AssumeEquals(left, right, logged))
    ensures RefinesOnlyVariables(AssumeGreaterThan(left, right, equal, logged))
    ensures RefinesOnlyVariables(AssumeLesserThan(left, right, equal, logged))
  {
  }

  /** Assuming a condition true or false refines nothing but variables. */
  lemma {:induction false} AssumptionsRefineOnlyVariables(e: Expr, logged: set<Expr>, positive: bool)
    ensures RefinesOnlyVariables(if positive then AssumeTrue(e, logged) else AssumeFalse(e, logged))
    decreases e
  {
    match e
    case LogicNegation(operand) =>
      AssumptionsRefineOnlyVariables(operand, logged, !positive);
    case Binary(_, l, r) =>
      ComparisonsRefineOnlyVariables(l, r, true, logged);
      ComparisonsRefineOnlyVariables(l, r, false, logged);
    case IssetExpr(vars) =>
      IssetRefinesPlainVariables(vars, positive);
      var cs := AssumeIsset(vars, positive);
      assert forall i :: 0 <= i < |cs| ==> cs[i] in cs;
    case _ =>
  }
}
