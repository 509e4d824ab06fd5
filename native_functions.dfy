/**
 * The analyser of PHP's native (library) functions: which model a function
 * gets, the return values of its catalogue overloads, running a concrete
 * implementation on every combination of argument values, and the special
 * models of the `is_*` functions, `define`, `array_push`, `array_pop` and
 * `array_merge`.
 *
 * The catalogue the analyser reads from XML is an input here: every overload
 * carries its argument-count bounds and the values its declared return type
 * resolves to. The argument-count check of the utility class and the tests of
 * the memory model (is an entry an array, what are its indexes) are inputs too.
 */
module NativeFunctions {
  import opened Wrappers
  import opened CSharp
  import opened Values
  import TypeConversion

  /** One overload of a native function as the catalogue describes it. */
  datatype NativeFunction = NativeFunction(MinArgumentCount: int, MaxArgumentCount: int, returnValues: seq<Value>)

  predicate AcceptsCount(f: NativeFunction, argumentCount: int)
  {
    f.MinArgumentCount <= argumentCount <= f.MaxArgumentCount
  }

  // ----- choosing the model of a function -----

  /** The delegate handed out for a function: its special or concrete model, or a type-modelled analyser. */
  datatype Analyzer = SpecialAnalyzer(special: string) | ConcreteAnalyzer(concrete: string) | TypeModeledAnalyzer(id: nat)

  class NativeFunctionAnalyzer {
    /** The catalogue: every known function with its overloads. */
    const typeModeledFunctions: map<string, seq<NativeFunction>>
    /** The functions with a hand-written model. */
    const specialFunctions: set<string>
    /** The functions with a concrete implementation. */
    const concreteFunctions: set<string>
    /** The type-modelled analyser stored in a function's first overload, once it exists. */
    var analyzers: map<string, nat>
    /** How many type-modelled analysers have been created. */
    var created: nat

    /** Every stored analyser is a different one, and each was created for a known function. */
    ghost predicate Valid()
      reads this
    {
      analyzers.Keys <= typeModeledFunctions.Keys &&
      (forall n :: n in analyzers ==> analyzers[n] < created) &&
      (forall n, m :: n in analyzers && m in analyzers && n != m ==> analyzers[n] != analyzers[m])
    }

    /** A known function that has neither a special nor a concrete model. */
    predicate IsTypeModeled(name: string)
      reads this
    {
      name in typeModeledFunctions && name !in specialFunctions && name !in concreteFunctions
    }

    constructor (typeModeled: map<string, seq<NativeFunction>>, special: set<string>, concrete: set<string>)
      ensures Valid()
      ensures typeModeledFunctions == typeModeled && specialFunctions == special && concreteFunctions == concrete
      ensures analyzers == map[] && created == 0
    {
      typeModeledFunctions, specialFunctions, concreteFunctions := typeModeled, special, concrete;
      analyzers, created := map[], 0;
    }

    /**
     * The model of a function: none for an unknown name, else the special one,
     * else the concrete one, else the type-modelled analyser, which is created
     * on the first request and reused afterwards.
     */
    method GetInstance(name: string) returns (r: Option<Analyzer>)
      requires Valid()
      modifies this
      ensures Valid()
      ensures name !in typeModeledFunctions ==> r == None
      ensures name in typeModeledFunctions && name in specialFunctions ==> r == Some(SpecialAnalyzer(name))
      ensures name in typeModeledFunctions && name !in specialFunctions && name in concreteFunctions ==>
        r == Some(ConcreteAnalyzer(name))
      ensures IsTypeModeled(name) ==> name in analyzers && r == Some(TypeModeledAnalyzer(analyzers[name]))
      ensures !IsTypeModeled(name) || name in old(analyzers) ==> analyzers == old(analyzers) && created == old(created)
      ensures IsTypeModeled(name) && name !in old(analyzers) ==>
        analyzers == old(analyzers)[name := old(created)] && created == old(created) + 1
    {
      if name !in typeModeledFunctions {
        return None;
      }
      if name in specialFunctions {
        return Some(SpecialAnalyzer(name));
      }
      if name in concreteFunctions {
        return Some(ConcreteAnalyzer(name));
      }
      InitTypeModeledFunction(name);
      return Some(TypeModeledAnalyzer(analyzers[name]));
    }

    /** Creates the type-modelled analyser of a function unless it already has one. */
    method InitTypeModeledFunction(name: string)
      requires Valid() && name in typeModeledFunctions
      modifies this
      ensures Valid() && name in analyzers
      ensures name in old(analyzers) ==> analyzers == old(analyzers) && created == old(created)
      ensures name !in old(analyzers) ==> analyzers == old(analyzers)[name := old(created)] && created == old(created) + 1
    {
      if name !in analyzers {
        analyzers := analyzers[name := created];
        created := created + 1;
      }
    }
  }

  /** Asking twice for a type-modelled function gives the same analyser and creates nothing the second time. */
  method GetInstanceTwice(analyzer: NativeFunctionAnalyzer, name: string) returns (first: Option<Analyzer>, second: Option<Analyzer>)
    requires analyzer.Valid() && analyzer.IsTypeModeled(name)
    modifies analyzer
    ensures first == second && first.Some? && first.value.TypeModeledAnalyzer?
    ensures analyzer.created <= old(analyzer.created) + 1
  {
    first := analyzer.GetInstance(name);
    second := analyzer.GetInstance(name);
  }

  // ----- return values of the overloads -----

  /** The return values of the overloads, in order: of those accepting the count when `filter` holds, else of all. */
  function ReturnValues(overloads: seq<NativeFunction>, argumentCount: int, filter: bool): seq<Value>
  {
    if |overloads| == 0 then []
    else
      var last := overloads[|overloads| - 1];
      ReturnValues(overloads[..|overloads| - 1], argumentCount, filter) +
      (if !filter || AcceptsCount(last, argumentCount) then last.returnValues else [])
  }

  /** The values the type model returns: those of the matching overloads, or of all overloads when they give none. */
  function ResultType(overloads: seq<NativeFunction>, argumentCount: int): seq<Value>
  {
    var matching := ReturnValues(overloads, argumentCount, true);
    if |matching| > 0 then matching else ReturnValues(overloads, argumentCount, false)
  }

  lemma {:induction false} ReturnValuesMembers(overloads: seq<NativeFunction>, argumentCount: int, filter: bool, v: Value)
    ensures v in ReturnValues(overloads, argumentCount, filter) <==>
      exists k :: 0 <= k < |overloads| && (!filter || AcceptsCount(overloads[k], argumentCount)) && v in overloads[k].returnValues
  {
    if |overloads| > 0 {
      var init := overloads[..|overloads| - 1];
      ReturnValuesMembers(init, argumentCount, filter, v);
      if v in ReturnValues(overloads, argumentCount, filter) {
        if v in ReturnValues(init, argumentCount, filter) {
          var k :| 0 <= k < |init| && (!filter || AcceptsCount(init[k], argumentCount)) && v in init[k].returnValues;
          assert overloads[k] == init[k];
        }
      } else {
        forall k | 0 <= k < |overloads| && (!filter || AcceptsCount(overloads[k], argumentCount))
          ensures v !in overloads[k].returnValues
        {
          if k < |init| {
            assert overloads[k] == init[k];
          }
        }
      }
    }
  }

  /**
   * A value is a possible result exactly when a matching overload returns it;
   * only when no matching overload returns anything do all overloads count.
   */
  lemma ResultTypeMembers(overloads: seq<NativeFunction>, argumentCount: int, v: Value)
    ensures (exists k :: 0 <= k < |overloads| && AcceptsCount(overloads[k], argumentCount) && |overloads[k].returnValues| > 0) ==>
      (v in ResultType(overloads, argumentCount) <==>
        exists k :: 0 <= k < |overloads| && AcceptsCount(overloads[k], argumentCount) && v in overloads[k].returnValues)
    ensures (forall k :: 0 <= k < |overloads| && AcceptsCount(overloads[k], argumentCount) ==> |overloads[k].returnValues| == 0) ==>
      (v in ResultType(overloads, argumentCount) <==> exists k :: 0 <= k < |overloads| && v in overloads[k].returnValues)
  {
    ReturnValuesMembers(overloads, argumentCount, true, v);
    ReturnValuesMembers(overloads, argumentCount, false, v);
    var matching := ReturnValues(overloads, argumentCount, true);
    if k :| 0 <= k < |overloads| && AcceptsCount(overloads[k], argumentCount) && |overloads[k].returnValues| > 0 {
      ReturnValuesMembers(overloads, argumentCount, true, overloads[k].returnValues[0]);
      assert |matching| > 0;
    } else if |matching| > 0 {
      ReturnValuesMembers(overloads, argumentCount, true, matching[0]);
      assert false;
    }
  }

  /** `ComputeResultType`: collects the return values of the matching overloads, falling back to all of them. */
  method ComputeResultType(overloads: seq<NativeFunction>, argumentCount: int) returns (possibleValues: seq<Value>)
    ensures possibleValues == ResultType(overloads, argumentCount)
  {
    possibleValues := [];
    var k := 0;
    while k < |overloads|
      invariant 0 <= k <= |overloads|
      invariant possibleValues == ReturnValues(overloads[..k], argumentCount, true)
    {
      assert overloads[..k + 1][..k] == overloads[..k];
      if AcceptsCount(overloads[k], argumentCount) {
        possibleValues := possibleValues + overloads[k].returnValues;
      }
      k := k + 1;
    }
    assert overloads[..|overloads|] == overloads;
    if |possibleValues| == 0 {
      k := 0;
      while k < |overloads|
        invariant 0 <= k <= |overloads|
        invariant possibleValues == ReturnValues(overloads[..k], argumentCount, false)
      {
        assert overloads[..k + 1][..k] == overloads[..k];
        possibleValues := possibleValues + overloads[k].returnValues;
        k := k + 1;
      }
    }
  }

  // ----- the concrete implementation on every combination of arguments -----

  /** Every tuple of `ts` behind the prefix `p`. */
  function PrefixAll(p: seq<Value>, ts: seq<seq<Value>>): (r: seq<seq<Value>>)
    ensures |r| == |ts|
  {
    seq(|ts|, i requires 0 <= i < |ts| => p + ts[i])
  }

  /** The results of calling `f` on each tuple, in order. */
  function Calls(f: seq<Value> -> Value, ts: seq<seq<Value>>): (r: seq<Value>)
    ensures |r| == |ts|
  {
    seq(|ts|, i requires 0 <= i < |ts| => f(ts[i]))
  }

  /** The argument tuples from position `pos` on, in the order the recursion visits them. */
  function Tuples(args: seq<seq<Value>>, pos: nat): seq<seq<Value>>
    requires pos <= |args|
    decreases |args| - pos, if pos < |args| then |args[pos]| + 1 else 0
  {
    if pos == |args| then [[]] else TuplesOver(args, pos, args[pos])
  }

  /** The tuples that start with one of the non-abstract `values` of position `pos`. */
  function TuplesOver(args: seq<seq<Value>>, pos: nat, values: seq<Value>): seq<seq<Value>>
    requires pos < |args|
    decreases |args| - pos, |values|
  {
    if |values| == 0 then []
    else
      var v := values[|values| - 1];
      TuplesOver(args, pos, values[..|values| - 1]) +
      (if v.IsAbstract() then [] else PrefixAll([v], Tuples(args, pos + 1)))
  }

  /** Whether the recursion from position `pos` meets an abstract argument value. */
  predicate SeesAbstract(args: seq<seq<Value>>, pos: nat)
    requires pos <= |args|
    decreases |args| - pos, if pos < |args| then |args[pos]| + 1 else 0
  {
    pos < |args| && SeesAbstractOver(args, pos, args[pos])
  }

  predicate SeesAbstractOver(args: seq<seq<Value>>, pos: nat, values: seq<Value>)
    requires pos < |args|
    decreases |args| - pos, |values|
  {
    |values| > 0 &&
    (SeesAbstractOver(args, pos, values[..|values| - 1]) || values[|values| - 1].IsAbstract() ||
     SeesAbstract(args, pos + 1))
  }

  predicate HasAbstract(values: seq<Value>) { exists v :: v in values && v.IsAbstract() }
  predicate HasConcrete(values: seq<Value>) { exists v :: v in values && !v.IsAbstract() }

  lemma PrefixAllAppend(p: seq<Value>, a: seq<seq<Value>>, b: seq<seq<Value>>)
    ensures PrefixAll(p, a + b) == PrefixAll(p, a) + PrefixAll(p, b)
  {
  }

  lemma PrefixAllNested(p: seq<Value>, q: seq<Value>, ts: seq<seq<Value>>)
    ensures PrefixAll(p, PrefixAll(q, ts)) == PrefixAll(p + q, ts)
  {
    forall i | 0 <= i < |ts|
      ensures PrefixAll(p, PrefixAll(q, ts))[i] == PrefixAll(p + q, ts)[i]
    {
      assert p + (q + ts[i]) == (p + q) + ts[i];
    }
  }

  lemma PrefixAllOfEmptyTuple(f: seq<Value> -> Value, p: seq<Value>)
    ensures Calls(f, PrefixAll(p, [[]])) == [f(p)]
  {
    assert PrefixAll(p, [[]])[0] == p + [] == p;
  }

  lemma PrefixAllEmpty(ts: seq<seq<Value>>)
    ensures PrefixAll([], ts) == ts
  {
    forall i | 0 <= i < |ts|
      ensures PrefixAll([], ts)[i] == ts[i]
    {
      assert [] + ts[i] == ts[i];
    }
  }

  /** The calls for the tuples before `v` and for those that continue with `v`. */
  lemma CallsOfNextValue(f: seq<Value> -> Value, p: seq<Value>, before: seq<seq<Value>>, v: Value, rest: seq<seq<Value>>)
    ensures Calls(f, PrefixAll(p, before + PrefixAll([v], rest))) ==
      Calls(f, PrefixAll(p, before)) + Calls(f, PrefixAll(p + [v], rest))
  {
    PrefixAllAppend(p, before, PrefixAll([v], rest));
    PrefixAllNested(p, [v], rest);
    CallsAppend(f, PrefixAll(p, before), PrefixAll(p + [v], rest));
  }

  lemma CallsAppend(f: seq<Value> -> Value, a: seq<seq<Value>>, b: seq<seq<Value>>)
    ensures Calls(f, a + b) == Calls(f, a) + Calls(f, b)
  {
  }

  lemma PrefixAllMembers(p: seq<Value>, ts: seq<seq<Value>>, t: seq<Value>)
    ensures t in PrefixAll(p, ts) <==> |t| >= |p| && t[..|p|] == p && t[|p|..] in ts
  {
    if t in PrefixAll(p, ts) {
      var i :| 0 <= i < |ts| && PrefixAll(p, ts)[i] == t;
      assert t[|p|..] == ts[i];
    }
    if |t| >= |p| && t[..|p|] == p && t[|p|..] in ts {
      var i :| 0 <= i < |ts| && ts[i] == t[|p|..];
      assert t == p + ts[i];
      assert PrefixAll(p, ts)[i] == t;
    }
  }

  lemma {:induction false} TuplesOverMembers(args: seq<seq<Value>>, pos: nat, values: seq<Value>, t: seq<Value>)
    requires pos < |args|
    ensures t in TuplesOver(args, pos, values) <==>
      |t| > 0 && t[0] in values && !t[0].IsAbstract() && t[1..] in Tuples(args, pos + 1)
    decreases |values|
  {
    if |values| > 0 {
      var init := values[..|values| - 1];
      var v := values[|values| - 1];
      TuplesOverMembers(args, pos, init, t);
      PrefixAllMembers([v], Tuples(args, pos + 1), t);
      assert values == init + [v];
      if |t| > 0 {
        assert t[..1] == [v] <==> t[0] == v;
      }
    }
  }

  /** The visited tuples are exactly the cartesian product of the non-abstract argument values. */
  lemma {:induction false} TuplesAreTheProduct(args: seq<seq<Value>>, pos: nat, t: seq<Value>)
    requires pos <= |args|
    ensures t in Tuples(args, pos) <==>
      |t| == |args| - pos && forall i :: 0 <= i < |t| ==> t[i] in args[pos + i] && !t[i].IsAbstract()
    decreases |args| - pos
  {
    if pos < |args| {
      TuplesOverMembers(args, pos, args[pos], t);
      if |t| > 0 {
        TuplesAreTheProduct(args, pos + 1, t[1..]);
        if |t| == |args| - pos && forall i :: 0 <= i < |t| ==> t[i] in args[pos + i] && !t[i].IsAbstract() {
          forall i | 0 <= i < |t[1..]|
            ensures t[1..][i] in args[pos + 1 + i] && !t[1..][i].IsAbstract()
          {
            assert t[1..][i] == t[i + 1];
          }
        }
        if t[1..] in Tuples(args, pos + 1) {
          forall i | 1 <= i < |t|
            ensures t[i] in args[pos + i] && !t[i].IsAbstract()
          {
            assert t[i] == t[1..][i - 1];
          }
        }
      }
    } else {
      assert |t| == 0 ==> t == [];
    }
  }

  lemma {:induction false} SeesAbstractOverExactly(args: seq<seq<Value>>, pos: nat, values: seq<Value>)
    requires pos < |args|
    ensures SeesAbstractOver(args, pos, values) <==>
      HasAbstract(values) || (HasConcrete(values) && SeesAbstract(args, pos + 1))
    decreases |values|
  {
    if |values| > 0 {
      var init := values[..|values| - 1];
      var v := values[|values| - 1];
      SeesAbstractOverExactly(args, pos, init);
      assert values == init + [v];
      assert v in values;
      if HasAbstract(values) && !v.IsAbstract() {
        var w :| w in values && w.IsAbstract();
        assert w in init;
      }
      if HasConcrete(values) && !HasConcrete(init) {
        assert !v.IsAbstract() || HasAbstract(values);
      }
      if HasConcrete(init) {
        var w :| w in init && !w.IsAbstract();
        assert w in values;
      }
      if HasAbstract(init) {
        var w :| w in init && w.IsAbstract();
        assert w in values;
      }
    }
  }

  /**
   * An abstract value is met exactly when some argument holds one and every
   * argument before it holds a non-abstract value, so that the recursion gets there.
   */
  lemma {:induction false} SeesAbstractExactly(args: seq<seq<Value>>, pos: nat)
    requires pos <= |args|
    ensures SeesAbstract(args, pos) <==>
      exists p :: pos <= p < |args| && HasAbstract(args[p]) && forall q :: pos <= q < p ==> HasConcrete(args[q])
    decreases |args| - pos
  {
    if pos < |args| {
      SeesAbstractOverExactly(args, pos, args[pos]);
      SeesAbstractExactly(args, pos + 1);
      if SeesAbstract(args, pos) && !HasAbstract(args[pos]) {
        var p :| pos + 1 <= p < |args| && HasAbstract(args[p]) && forall q :: pos + 1 <= q < p ==> HasConcrete(args[q]);
        assert forall q :: pos <= q < p ==> HasConcrete(args[q]);
      }
      if p :| pos <= p < |args| && HasAbstract(args[p]) && forall q :: pos <= q < p ==> HasConcrete(args[q]) {
        if p > pos {
          assert HasConcrete(args[pos]);
          assert exists p' :: pos + 1 <= p' < |args| && HasAbstract(args[p']) && forall q :: pos + 1 <= q < p' ==> HasConcrete(args[q]);
        }
      }
    }
  }

  /** Taking one more value of position `pos` into account: the tuples it starts are appended. */
  lemma NextValueTuples(args: seq<seq<Value>>, pos: nat, values: seq<Value>, k: nat)
    requires pos < |args| && k < |values|
    ensures TuplesOver(args, pos, values[..k + 1]) ==
      TuplesOver(args, pos, values[..k]) + (if values[k].IsAbstract() then [] else PrefixAll([values[k]], Tuples(args, pos + 1)))
  {
    assert values[..k + 1][..k] == values[..k];
  }

  /** Taking one more value of position `pos` into account: it is abstract or the recursion from it sees one. */
  lemma NextValueSees(args: seq<seq<Value>>, pos: nat, values: seq<Value>, k: nat)
    requires pos < |args| && k < |values|
    ensures SeesAbstractOver(args, pos, values[..k + 1]) ==
      (SeesAbstractOver(args, pos, values[..k]) || values[k].IsAbstract() || SeesAbstract(args, pos + 1))
  {
    assert values[..k + 1][..k] == values[..k];
  }

  /** The results after one more value of position `pos`: those of the tuples it starts are appended. */
  lemma NextValueCalls(f: seq<Value> -> Value, p: seq<Value>, args: seq<seq<Value>>, pos: nat, values: seq<Value>, k: nat,
                       result: seq<Value>, out: seq<Value>, next: seq<Value>)
    requires pos < |args| && k < |values|
    requires out == result + Calls(f, PrefixAll(p, TuplesOver(args, pos, values[..k])))
    requires next == out + (if values[k].IsAbstract() then [] else Calls(f, PrefixAll(p + [values[k]], Tuples(args, pos + 1))))
    ensures next == result + Calls(f, PrefixAll(p, TuplesOver(args, pos, values[..k + 1])))
  {
    NextValueTuples(args, pos, values, k);
    var before := TuplesOver(args, pos, values[..k]);
    if values[k].IsAbstract() {
      assert before + [] == before;
    } else {
      CallsOfNextValue(f, p, before, values[k], Tuples(args, pos + 1));
    }
  }

  /** The helper that runs a concrete implementation of a function on concrete arguments. */
  class ConcreteFunctionAnalyzerHelper {
    const nativeFunctions: seq<NativeFunction>
    const concreteFunction: seq<Value> -> Value
    var containsAbstractValue: bool

    constructor (nativeFunctions: seq<NativeFunction>, concreteFunction: seq<Value> -> Value)
      ensures this.nativeFunctions == nativeFunctions && this.concreteFunction == concreteFunction
      ensures !containsAbstractValue
    {
      this.nativeFunctions, this.concreteFunction := nativeFunctions, concreteFunction;
      containsAbstractValue := false;
    }

    /**
     * The implementation called once per tuple of the cartesian product of the
     * non-abstract argument values; when an abstract value was skipped, the
     * type-modelled result is appended.
     */
    method ComputeResult(arguments: seq<seq<Value>>) returns (result: seq<Value>)
      modifies this
      ensures containsAbstractValue == SeesAbstract(arguments, 0)
      ensures result == Calls(concreteFunction, Tuples(arguments, 0)) +
        (if SeesAbstract(arguments, 0) then ResultType(nativeFunctions, |arguments|) else [])
    {
      containsAbstractValue := false;
      result := Combination([], arguments, 0, []);
      PrefixAllEmpty(Tuples(arguments, 0));
      if containsAbstractValue {
        var typed := ComputeResultType(nativeFunctions, |arguments|);
        result := result + typed;
      }
    }

    /** `combination`: appends the results for every tuple extending `argsValues` from position `pos` on. */
    method Combination(argsValues: seq<Value>, args: seq<seq<Value>>, pos: nat, result: seq<Value>) returns (out: seq<Value>)
      requires pos <= |args|
      modifies this
      ensures out == result + Calls(concreteFunction, PrefixAll(argsValues, Tuples(args, pos)))
      ensures containsAbstractValue == (old(containsAbstractValue) || SeesAbstract(args, pos))
      decreases |args| - pos, 1
    {
      if pos >= |args| {
        PrefixAllOfEmptyTuple(concreteFunction, argsValues);
        return result + [concreteFunction(argsValues)];
      }
      var values := args[pos];
      out := result;
      var k := 0;
      while k < |values|
        invariant 0 <= k <= |values|
        invariant out == result + Calls(concreteFunction, PrefixAll(argsValues, TuplesOver(args, pos, values[..k])))
        invariant containsAbstractValue == (old(containsAbstractValue) || SeesAbstractOver(args, pos, values[..k]))
      {
        NextValueSees(args, pos, values, k);
        var next := CombineValue(argsValues, args, pos, values[k], out);
        NextValueCalls(concreteFunction, argsValues, args, pos, values, k, result, out, next);
        out := next;
        k := k + 1;
      }
      assert values[..|values|] == values;
    }

    /** One step of the loop in `combination`: an abstract value is noted and skipped, any other one recursed into. */
    method CombineValue(argsValues: seq<Value>, args: seq<seq<Value>>, pos: nat, v: Value, result: seq<Value>) returns (out: seq<Value>)
      requires pos < |args|
      modifies this
      ensures out == result + (if v.IsAbstract() then [] else Calls(concreteFunction, PrefixAll(argsValues + [v], Tuples(args, pos + 1))))
      ensures containsAbstractValue == (old(containsAbstractValue) || v.IsAbstract() || SeesAbstract(args, pos + 1))
      decreases |args| - pos, 0
    {
      if v.IsAbstract() {
        containsAbstractValue := true;
        out := result;
      } else {
        out := Combination(argsValues + [v], args, pos + 1, result);
      }
    }
  }

  // ----- the is_* functions -----

  /** The type tests behind `is_array`, `is_bool`, `is_double` (and `is_float`, `is_real`), `is_int` (and `is_integer`, `is_long`), `is_null`, `is_numeric`, `is_object`, `is_resource`, `is_scalar` and `is_string`. */
  datatype TypeTest =
    | IsArrayTest | IsBoolTest | IsDoubleTest | IsIntTest | IsNullTest
    | IsNumericTest | IsObjectTest | IsResourceTest | IsScalarTest | IsStringTest

  predicate Passes(test: TypeTest, v: Value)
  {
    match test
    case IsArrayTest => TypeConversion.IsArrayType(v)
    case IsBoolTest => TypeConversion.IsBoolType(v)
    case IsDoubleTest => TypeConversion.IsFloatType(v)
    case IsIntTest => TypeConversion.IsIntType(v) || TypeConversion.IsLongType(v)
    case IsNullTest => v.Undefined?
    case IsNumericTest => TypeConversion.IsIntType(v) || TypeConversion.IsLongType(v) || TypeConversion.IsFloatType(v)
    case IsObjectTest => TypeConversion.IsObjectType(v)
    case IsResourceTest => v.AnyResource?
    case IsScalarTest =>
      TypeConversion.IsIntType(v) || TypeConversion.IsLongType(v) || TypeConversion.IsFloatType(v) ||
      TypeConversion.IsBoolType(v) || TypeConversion.IsStringType(v)
    case IsStringTest => TypeConversion.IsStringType(v)
  }

  /** Some value passes the test, or is abstract and so might. */
  predicate CanBeTrue(test: TypeTest, values: seq<Value>)
  {
    exists k :: 0 <= k < |values| && (Passes(test, values[k]) || values[k].IsAbstract())
  }

  /** Some value fails the test. */
  predicate CanBeFalse(test: TypeTest, values: seq<Value>)
  {
    exists k :: 0 <= k < |values| && !Passes(test, values[k])
  }

  /** The return value of an `is_*` function: "any boolean" for a wrong argument count, else the possible answers. */
  function IsFunctionResult(test: TypeTest, argumentCountOk: bool, values: seq<Value>): seq<Value>
  {
    if !argumentCountOk then [AnyBool]
    else (if CanBeTrue(test, values) then [Bool(true)] else []) + (if CanBeFalse(test, values) then [Bool(false)] else [])
  }

  /** `processIsFunctions`: the loop stops at the first abstract value that fails the test. */
  method ProcessIsFunctions(test: TypeTest, argumentCountOk: bool, values: seq<Value>) returns (result: seq<Value>)
    ensures result == IsFunctionResult(test, argumentCountOk, values)
  {
    if !argumentCountOk {
      return [AnyBool];
    }
    var canBeTrue, canBeFalse := false, false;
    var i := 0;
    while i < |values|
      invariant 0 <= i <= |values|
      invariant canBeTrue <==> exists k :: 0 <= k < i && (Passes(test, values[k]) || values[k].IsAbstract())
      invariant canBeFalse <==> exists k :: 0 <= k < i && !Passes(test, values[k])
    {
      var v := values[i];
      if Passes(test, v) {
        canBeTrue := true;
      } else if v.IsAbstract() {
        canBeTrue, canBeFalse := true, true;
        assert CanBeTrue(test, values) && CanBeFalse(test, values);
        break;
      } else {
        canBeFalse := true;
      }
      i := i + 1;
    }
    result := [];
    if canBeTrue {
      result := result + [Bool(true)];
    }
    if canBeFalse {
      result := result + [Bool(false)];
    }
  }

  /** The answer is definite only when all values agree, an abstract value that fails the test allows both, and no values allow neither. */
  lemma IsFunctionAnswers(test: TypeTest, values: seq<Value>)
    ensures (forall k :: 0 <= k < |values| ==> Passes(test, values[k])) && |values| > 0 ==>
      IsFunctionResult(test, true, values) == [Bool(true)]
    ensures (forall k :: 0 <= k < |values| ==> !Passes(test, values[k]) && !values[k].IsAbstract()) && |values| > 0 ==>
      IsFunctionResult(test, true, values) == [Bool(false)]
    ensures (exists k :: 0 <= k < |values| && !Passes(test, values[k]) && values[k].IsAbstract()) ==>
      IsFunctionResult(test, true, values) == [Bool(true), Bool(false)]
    ensures |values| == 0 ==> IsFunctionResult(test, true, values) == []
    ensures IsFunctionResult(test, false, values) == [AnyBool]
  {
    if |values| > 0 {
      assert Passes(test, values[0]) ==> CanBeTrue(test, values);
      assert !Passes(test, values[0]) ==> CanBeFalse(test, values);
    }
  }

  // ----- define -----

  /** A constant `define` inserts: its name, whether it is case insensitive, and its values. */
  datatype DefinedConstant = DefinedConstant(name: string, caseInsensitive: bool, values: seq<Value>)

  /** Arrays and objects cannot be the value of a constant. */
  predicate CanBeConstant(v: Value) { !(TypeConversion.IsArrayType(v) || TypeConversion.IsObjectType(v)) }

  /** The values of the definition that become the constant's values. */
  function ConstantValues(values: seq<Value>): seq<Value>
  {
    if |values| == 0 then []
    else
      var v := values[|values| - 1];
      ConstantValues(values[..|values| - 1]) + (if CanBeConstant(v) then [v] else [])
  }

  /** The constant's values are exactly the values of the definition that are neither arrays nor objects. */
  lemma {:induction false} ConstantValuesMembers(values: seq<Value>, v: Value)
    ensures v in ConstantValues(values) <==> v in values && CanBeConstant(v)
  {
    if |values| > 0 {
      var init := values[..|values| - 1];
      ConstantValuesMembers(init, v);
      assert values == init + [values[|values| - 1]];
    }
  }

  /** Without a third argument the constant is case sensitive; otherwise each possible value of it decides. */
  predicate CanBeCaseSensitive(argumentCount: int, caseInsensitive: seq<Option<bool>>)
  {
    argumentCount == 2 || exists k :: 0 <= k < |caseInsensitive| && caseInsensitive[k] != Some(true)
  }

  predicate CanBeCaseInsensitive(argumentCount: int, caseInsensitive: seq<Option<bool>>)
  {
    argumentCount != 2 && exists k :: 0 <= k < |caseInsensitive| && caseInsensitive[k] != Some(false)
  }

  /** The return value of `define`. */
  function DefineResult(argumentCount: int, first: NativeFunction, names: seq<string>, values: seq<Value>): seq<Value>
  {
    if !AcceptsCount(first, argumentCount) then [Bool(false)]
    else
      (if |names| > 0 && exists k :: 0 <= k < |values| && CanBeConstant(values[k]) then [Bool(true)] else []) +
      (if |names| > 0 && exists k :: 0 <= k < |values| && !CanBeConstant(values[k]) then [Bool(false)] else [])
  }

  /** The constants `define` inserts for the given names, case sensitive first. */
  function DefinedConstants(argumentCount: int, caseInsensitive: seq<Option<bool>>, names: seq<string>, values: seq<Value>): seq<DefinedConstant>
  {
    if |names| == 0 then []
    else
      var name := names[|names| - 1];
      DefinedConstants(argumentCount, caseInsensitive, names[..|names| - 1], values) +
      (if CanBeCaseSensitive(argumentCount, caseInsensitive) then [DefinedConstant(name, false, ConstantValues(values))] else []) +
      (if CanBeCaseInsensitive(argumentCount, caseInsensitive) then [DefinedConstant(name, true, ConstantValues(values))] else [])
  }

  /**
   * `define(name, value[, case_insensitive])`: with an accepted argument count,
   * one constant per possible name and case sensitivity, holding the values
   * that are neither arrays nor objects.
   *
   * `caseInsensitive` holds the boolean conversion of each value of the third
   * argument (none when it does not convert), `names` the strings the first
   * argument converts to, and `values` the values of the second argument.
   */
  method Define(argumentCount: int, first: NativeFunction, caseInsensitive: seq<Option<bool>>, names: seq<string>, values: seq<Value>)
    returns (result: seq<Value>, constants: seq<DefinedConstant>)
    ensures result == DefineResult(argumentCount, first, names, values)
    ensures constants == if AcceptsCount(first, argumentCount) then DefinedConstants(argumentCount, caseInsensitive, names, values) else []
  {
    constants := [];
    if !AcceptsCount(first, argumentCount) {
      return [Bool(false)], [];
    }
    var canBeTrue, canBeFalse := false, false;
    var canBeCaseSensitive, canBeCaseInsensitive := CaseSensitivity(argumentCount, caseInsensitive);
    var n := 0;
    while n < |names|
      invariant 0 <= n <= |names|
      invariant constants == DefinedConstants(argumentCount, caseInsensitive, names[..n], values)
      invariant canBeTrue <==> n > 0 && exists k :: 0 <= k < |values| && CanBeConstant(values[k])
      invariant canBeFalse <==> n > 0 && exists k :: 0 <= k < |values| && !CanBeConstant(values[k])
    {
      assert names[..n + 1][..n] == names[..n];
      var constantValues, someConstant, someNonConstant := SplitDefinedValues(values);
      canBeTrue := canBeTrue || someConstant;
      canBeFalse := canBeFalse || someNonConstant;
      if canBeCaseSensitive {
        constants := constants + [DefinedConstant(names[n], false, constantValues)];
      }
      if canBeCaseInsensitive {
        constants := constants + [DefinedConstant(names[n], true, constantValues)];
      }
      n := n + 1;
    }
    assert names[..|names|] == names;
    result := [];
    if canBeTrue {
      result := result + [Bool(true)];
    }
    if canBeFalse {
      result := result + [Bool(false)];
    }
  }

  /** The case sensitivities the third argument of `define` allows. */
  method CaseSensitivity(argumentCount: int, caseInsensitive: seq<Option<bool>>) returns (sensitive: bool, insensitive: bool)
    ensures sensitive == CanBeCaseSensitive(argumentCount, caseInsensitive)
    ensures insensitive == CanBeCaseInsensitive(argumentCount, caseInsensitive)
  {
    sensitive, insensitive := false, false;
    if argumentCount == 2 {
      return true, false;
    }
    var j := 0;
    while j < |caseInsensitive|
      invariant 0 <= j <= |caseInsensitive|
      invariant sensitive <==> exists k :: 0 <= k < j && caseInsensitive[k] != Some(true)
      invariant insensitive <==> exists k :: 0 <= k < j && caseInsensitive[k] != Some(false)
    {
      match caseInsensitive[j] {
        case Some(b) =>
          if b {
            insensitive := true;
          } else {
            sensitive := true;
          }
        case None =>
          sensitive, insensitive := true, true;
      }
      j := j + 1;
    }
  }

  /** The inner loop of `define`: the values that can be a constant's, and whether some can and some cannot. */
  method SplitDefinedValues(values: seq<Value>) returns (constantValues: seq<Value>, someConstant: bool, someNonConstant: bool)
    ensures constantValues == ConstantValues(values)
    ensures someConstant <==> exists k :: 0 <= k < |values| && CanBeConstant(values[k])
    ensures someNonConstant <==> exists k :: 0 <= k < |values| && !CanBeConstant(values[k])
  {
    constantValues, someConstant, someNonConstant := [], false, false;
    var i := 0;
    while i < |values|
      invariant 0 <= i <= |values|
      invariant constantValues == ConstantValues(values[..i])
      invariant someConstant <==> exists k :: 0 <= k < i && CanBeConstant(values[k])
      invariant someNonConstant <==> exists k :: 0 <= k < i && !CanBeConstant(values[k])
    {
      assert values[..i + 1][..i] == values[..i];
      assert ConstantValues(values[..i + 1]) ==
        ConstantValues(values[..i]) + (if CanBeConstant(values[i]) then [values[i]] else []);
      if !CanBeConstant(values[i]) {
        someNonConstant := true;
      } else {
        constantValues := constantValues + [values[i]];
        someConstant := true;
      }
      i := i + 1;
    }
    assert values[..|values|] == values;
  }

  /** `define` answers true when a value can name a constant and false when one cannot, and only false for a wrong count. */
  lemma DefineAnswers(argumentCount: int, first: NativeFunction, names: seq<string>, values: seq<Value>)
    ensures !AcceptsCount(first, argumentCount) ==> DefineResult(argumentCount, first, names, values) == [Bool(false)]
    ensures AcceptsCount(first, argumentCount) ==>
      (Bool(true) in DefineResult(argumentCount, first, names, values) <==> |names| > 0 && |ConstantValues(values)| > 0)
    ensures AcceptsCount(first, argumentCount) ==>
      (Bool(false) in DefineResult(argumentCount, first, names, values) <==>
        |names| > 0 && exists k :: 0 <= k < |values| && (TypeConversion.IsArrayType(values[k]) || TypeConversion.IsObjectType(values[k])))
  {
    if AcceptsCount(first, argumentCount) && |names| > 0 {
      if |ConstantValues(values)| > 0 {
        var v := ConstantValues(values)[0];
        ConstantValuesMembers(values, v);
        var k :| 0 <= k < |values| && values[k] == v;
      }
      if k :| 0 <= k < |values| && CanBeConstant(values[k]) {
        ConstantValuesMembers(values, values[k]);
      }
    }
  }

  // ----- array_push and array_pop -----

  /** The values of the arguments, from the second one on, in order. */
  function LaterArgumentValues(arguments: seq<seq<Value>>): seq<Value>
  {
    if |arguments| <= 1 then []
    else LaterArgumentValues(arguments[..|arguments| - 1]) + arguments[|arguments| - 1]
  }

  lemma {:induction false} LaterArgumentValuesMembers(arguments: seq<seq<Value>>, v: Value)
    ensures v in LaterArgumentValues(arguments) <==> exists a :: 1 <= a < |arguments| && v in arguments[a]
  {
    if |arguments| > 1 {
      var init := arguments[..|arguments| - 1];
      LaterArgumentValuesMembers(init, v);
      if v in LaterArgumentValues(init) {
        var a :| 1 <= a < |init| && v in init[a];
        assert arguments[a] == init[a];
      }
      if a :| 1 <= a < |arguments| && v in arguments[a] {
        if a < |init| {
          assert arguments[a] == init[a];
        }
      }
    }
  }

  /** What `array_push` does: the values written to the array's unknown index, and the returned value. */
  datatype PushEffect = NoPush | Pushed(written: seq<Value>, returned: Value)

  /**
   * `array_push(array, values...)`: with an accepted argument count and an
   * array as the first argument, every later argument's values are written to
   * the array's unknown index and "any integer" is returned.
   */
  method ArrayPush(argumentCountOk: bool, isArray: bool, arguments: seq<seq<Value>>) returns (effect: PushEffect)
    ensures effect == if argumentCountOk && isArray then Pushed(LaterArgumentValues(arguments), AnyInt) else NoPush
  {
    if !argumentCountOk || !isArray {
      return NoPush;
    }
    var values := [];
    var argNum := 1;
    while argNum < |arguments|
      invariant 1 <= argNum && (argNum <= |arguments| || argNum == 1)
      invariant values == LaterArgumentValues(arguments[..Min(argNum, |arguments|)])
    {
      assert arguments[..argNum + 1][..argNum] == arguments[..argNum];
      values := values + arguments[argNum];
      argNum := argNum + 1;
    }
    if |arguments| > 1 {
      assert arguments[..argNum] == arguments;
    }
    return Pushed(values, AnyInt);
  }

  /**
   * `array_pop(array)`: with an accepted argument count and an array, the
   * returned values are undefined and the values at the array's last index.
   * `indexes` lists the array's indexes in iteration order with their values.
   */
  function ArrayPop(argumentCountOk: bool, isArray: bool, indexes: seq<(string, seq<Value>)>): (r: Option<seq<Value>>)
    ensures r.Some? <==> argumentCountOk && isArray
    ensures r.Some? ==> Undefined in r.value
    ensures r.Some? && |indexes| > 0 ==> forall v :: v in indexes[|indexes| - 1].1 ==> v in r.value
    ensures r.Some? ==> forall v :: v in r.value ==> v == Undefined || (|indexes| > 0 && v in indexes[|indexes| - 1].1)
  {
    if !argumentCountOk || !isArray then None
    else Some([Undefined] + (if |indexes| > 0 then indexes[|indexes| - 1].1 else []))
  }

  // ----- array_merge -----

  /** The index names `int.TryParse` accepts. */
  predicate IsIntegerKey(name: string) { TypeConversion.TaintedTryConvertToInteger(name).0 }

  /** The name of the n-th renumbered index. */
  function IndexName(n: nat): string { TypeConversion.NatToDigits(n) }

  /** The merged array, and the next integer key. */
  datatype MergeState = MergeState(result: map<string, seq<Value>>, lastIntIndex: nat)

  /** An integer key gets the next number; any other key is written as it is, over an earlier value. */
  function MergeIndex(st: MergeState, name: string, values: seq<Value>): MergeState
  {
    if IsIntegerKey(name) then MergeState(st.result[IndexName(st.lastIntIndex) := values], st.lastIntIndex + 1)
    else MergeState(st.result[name := values], st.lastIntIndex)
  }

  function Merged(items: seq<(string, seq<Value>)>): MergeState
  {
    if |items| == 0 then MergeState(map[], 0)
    else
      var last := items[|items| - 1];
      MergeIndex(Merged(items[..|items| - 1]), last.0, last.1)
  }

  /** The indexes of all argument arrays, one array after the other. */
  function Flatten(arrays: seq<seq<(string, seq<Value>)>>): seq<(string, seq<Value>)>
  {
    if |arrays| == 0 then [] else Flatten(arrays[..|arrays| - 1]) + arrays[|arrays| - 1]
  }

  /** The indexes with integer keys, in order. */
  function IntegerItems(items: seq<(string, seq<Value>)>): seq<(string, seq<Value>)>
  {
    if |items| == 0 then []
    else
      var last := items[|items| - 1];
      IntegerItems(items[..|items| - 1]) + (if IsIntegerKey(last.0) then [last] else [])
  }

  /** The values of the last index named `key`. */
  function LastValues(items: seq<(string, seq<Value>)>, key: string): Option<seq<Value>>
  {
    if |items| == 0 then None
    else if items[|items| - 1].0 == key then Some(items[|items| - 1].1)
    else LastValues(items[..|items| - 1], key)
  }

  lemma MergedNext(before: seq<(string, seq<Value>)>, indexes: seq<(string, seq<Value>)>, i: nat)
    requires i < |indexes|
    ensures Merged(before + indexes[..i + 1]) == MergeIndex(Merged(before + indexes[..i]), indexes[i].0, indexes[i].1)
  {
    var items := before + indexes[..i + 1];
    var init := before + indexes[..i];
    assert items == init + [indexes[i]];
    assert items[..|items| - 1] == init && items[|items| - 1] == indexes[i];
  }

  lemma FlattenNext(arrays: seq<seq<(string, seq<Value>)>>, a: nat)
    requires a < |arrays|
    ensures Flatten(arrays[..a + 1]) == Flatten(arrays[..a]) + arrays[a][..|arrays[a]|]
  {
    assert arrays[..a + 1][..a] == arrays[..a];
    assert arrays[a][..|arrays[a]|] == arrays[a];
  }

  /**
   * `array_merge(arrays...)`: with an accepted argument count, a new array
   * holding every index of the arguments in order. `arrays` lists each
   * argument's indexes in iteration order with their values.
   */
  method ArrayMerge(argumentCountOk: bool, arrays: seq<seq<(string, seq<Value>)>>) returns (r: Option<map<string, seq<Value>>>)
    ensures !argumentCountOk ==> r == None
    ensures argumentCountOk ==> r == Some(Merged(Flatten(arrays)).result)
  {
    if !argumentCountOk {
      return None;
    }
    var result: map<string, seq<Value>> := map[];
    var lastIntIndex: nat := 0;
    var a := 0;
    while a < |arrays|
      invariant 0 <= a <= |arrays|
      invariant MergeState(result, lastIntIndex) == Merged(Flatten(arrays[..a]))
    {
      var indexes := arrays[a];
      ghost var before := Flatten(arrays[..a]);
      var i := 0;
      assert before + indexes[..0] == before;
      while i < |indexes|
        invariant 0 <= i <= |indexes|
        invariant MergeState(result, lastIntIndex) == Merged(before + indexes[..i])
      {
        var (name, values) := indexes[i];
        MergedNext(before, indexes, i);
        if IsIntegerKey(name) {
          result := result[IndexName(lastIntIndex) := values];
          lastIntIndex := lastIntIndex + 1;
        } else {
          result := result[name := values];
        }
        i := i + 1;
      }
      FlattenNext(arrays, a);
      a := a + 1;
    }
    assert arrays[..|arrays|] == arrays;
    return Some(result);
  }

  /** Renumbered keys are integer keys as long as they fit in an `int`. */
  lemma IndexNameIsIntegerKey(n: nat)
    requires n <= MaxValue
    ensures IsIntegerKey(IndexName(n))
  {
    assert TypeConversion.ToStringInt(n) == IndexName(n);
    TypeConversion.TaintedToStringIntRoundTrip(n);
  }

  /** Different numbers name different indexes. */
  lemma IndexNameInjective(i: nat, j: nat)
    requires IndexName(i) == IndexName(j)
    ensures i == j
  {
    assert TypeConversion.DecimalValue(IndexName(i)) == i;
  }

  /** The next integer key is the number of integer-keyed indexes so far. */
  lemma {:induction false} MergedCount(items: seq<(string, seq<Value>)>)
    ensures Merged(items).lastIntIndex == |IntegerItems(items)|
  {
    if |items| > 0 {
      MergedCount(items[..|items| - 1]);
    }
  }

  /** The integer-keyed values are found under 0, 1, 2, … in order (while the numbering fits in an `int`). */
  lemma {:induction false} MergedIntegerKeys(items: seq<(string, seq<Value>)>, j: nat)
    requires |IntegerItems(items)| <= MaxValue + 1
    requires j < |IntegerItems(items)|
    ensures IndexName(j) in Merged(items).result && Merged(items).result[IndexName(j)] == IntegerItems(items)[j].1
  {
    var init := items[..|items| - 1];
    var last := items[|items| - 1];
    MergedCount(init);
    var n := Merged(init).lastIntIndex;
    if IsIntegerKey(last.0) {
      assert IntegerItems(items) == IntegerItems(init) + [last];
      if j < n {
        MergedIntegerKeys(init, j);
        if IndexName(j) == IndexName(n) {
          IndexNameInjective(j, n);
        }
      }
    } else {
      assert IntegerItems(items) == IntegerItems(init);
      MergedIntegerKeys(init, j);
      IndexNameIsIntegerKey(j);
    }
  }

  /** Every other key holds the values of its last occurrence, and only keys that occur are present. */
  lemma {:induction false} MergedOtherKeys(items: seq<(string, seq<Value>)>, key: string)
    requires |IntegerItems(items)| <= MaxValue + 1
    requires !IsIntegerKey(key)
    ensures key in Merged(items).result <==> LastValues(items, key).Some?
    ensures key in Merged(items).result ==> Merged(items).result[key] == LastValues(items, key).value
  {
    if |items| > 0 {
      var init := items[..|items| - 1];
      var last := items[|items| - 1];
      assert |IntegerItems(init)| <= |IntegerItems(items)|;
      MergedOtherKeys(init, key);
      if IsIntegerKey(last.0) {
        MergedCount(init);
        IndexNameIsIntegerKey(Merged(init).lastIntIndex);
      }
    }
  }

  /** The only integer keys of the result are the renumbered ones. */
  lemma {:induction false} MergedNoOtherIntegerKeys(items: seq<(string, seq<Value>)>, key: string)
    requires key in Merged(items).result && IsIntegerKey(key)
    ensures exists j :: 0 <= j < |IntegerItems(items)| && key == IndexName(j)
  {
    var init := items[..|items| - 1];
    var last := items[|items| - 1];
    MergedCount(init);
    var n := Merged(init).lastIntIndex;
    if IsIntegerKey(last.0) {
      assert IntegerItems(items) == IntegerItems(init) + [last];
      if key != IndexName(n) {
        MergedNoOtherIntegerKeys(init, key);
      }
    } else {
      assert IntegerItems(items) == IntegerItems(init);
      MergedNoOtherIntegerKeys(init, key);
    }
  }

  /**
   * `array_merge` renumbers the integer keys of all arguments 0, 1, 2, … in
   * order and keeps every other key with its last value.
   */
  lemma MergeRenumbersFromZero(arrays: seq<seq<(string, seq<Value>)>>, key: string)
    requires |IntegerItems(Flatten(arrays))| <= MaxValue + 1
    ensures IsIntegerKey(key) ==>
      (key in Merged(Flatten(arrays)).result <==> exists j :: 0 <= j < |IntegerItems(Flatten(arrays))| && key == IndexName(j))
    ensures !IsIntegerKey(key) ==>
      (key in Merged(Flatten(arrays)).result <==> LastValues(Flatten(arrays), key).Some?)
  {
    var items := Flatten(arrays);
    if IsIntegerKey(key) {
      if key in Merged(items).result {
        MergedNoOtherIntegerKeys(items, key);
      }
      if j :| 0 <= j < |IntegerItems(items)| && key == IndexName(j) {
        MergedIntegerKeys(items, j);
      }
    } else {
      MergedOtherKeys(items, key);
    }
  }
}
