/**
 * The call bookkeeping of the function resolver: the recorded number of calls
 * (or inclusions) of each callee, the arity check of a call, the naming of
 * argument variables, which call branches a call point gets, and the sharing
 * of one program-point graph between the calls of a frequently called function.
 */
module FunctionResolver {
  import opened Wrappers
  import opened CSharp
  import TypeConversion

  // The messages of the errors this module reports.
  const NegativeArgumentIndex := "Cannot get argument variable for negative index"

  /** How many times a callee (a function, or a script for inclusions) has been called; the callee may be null. */
  datatype NumberOfCalls<T> = NumberOfCalls(Callee: Option<T>, TimesCalled: int)

  /** `NumberOfCalls.Equals`: both callees null or both equal, and the same count. */
  predicate CallsEqual<T(==)>(a: NumberOfCalls<T>, b: NumberOfCalls<T>)
  {
    if a.Callee.None? && b.Callee.None? then a.TimesCalled == b.TimesCalled
    else if a.Callee.Some? && b.Callee.Some? then a.TimesCalled == b.TimesCalled && a.Callee.value == b.Callee.value
    else false
  }

  /** The records are equal exactly when they are the same value. */
  lemma CallsEqualIsIdentity<T>(a: NumberOfCalls<T>, b: NumberOfCalls<T>)
    ensures CallsEqual(a, b) <==> a == b
  {
    if CallsEqual(a, b) {
      assert a.Callee == b.Callee;
    }
  }

  /** A value of the control variable that records the calls: a call record or any other value. */
  datatype CallValue<T> = Info(calls: NumberOfCalls<T>) | Other

  /** Every call record names its callee; comparing a null callee would fail. */
  predicate KnownCallees<T>(values: seq<CallValue<T>>)
  {
    forall k :: 0 <= k < |values| && values[k].Info? ==> values[k].calls.Callee.Some?
  }

  predicate IsRecordOf<T(==)>(v: CallValue<T>, callee: T)
  {
    v.Info? && v.calls.Callee == Some(callee)
  }

  /** Some record counts the calls of `callee`. */
  predicate Mentions<T(==)>(values: seq<CallValue<T>>, callee: T)
  {
    exists k :: 0 <= k < |values| && IsRecordOf(values[k], callee)
  }

  /** The record of `callee` with its count changed by `delta`; any other value as it is. */
  function Bump<T(==)>(v: CallValue<T>, callee: T, delta: int): CallValue<T>
  {
    if IsRecordOf(v, callee) then Info(NumberOfCalls(Some(callee), v.calls.TimesCalled + delta)) else v
  }

  function BumpAll<T(==)>(values: seq<CallValue<T>>, callee: T, delta: int): (r: seq<CallValue<T>>)
    ensures |r| == |values|
  {
    seq(|values|, k requires 0 <= k < |values| => Bump(values[k], callee, delta))
  }

  /** The records after one more call of `callee`: its records count one more, or a new record counts 1. */
  function Increased<T(==)>(callee: T, values: seq<CallValue<T>>): seq<CallValue<T>>
  {
    BumpAll(values, callee, 1) + (if Mentions(values, callee) then [] else [Info(NumberOfCalls(Some(callee), 1))])
  }

  /** The records after a call of `callee` returned: its records count one less, and none is dropped. */
  function Decreased<T(==)>(callee: T, values: seq<CallValue<T>>): seq<CallValue<T>>
  {
    BumpAll(values, callee, -1)
  }

  /** `IncreaseCalledInfo`. */
  method IncreaseCalledInfo<T(==)>(thisFile: T, files: seq<CallValue<T>>) returns (result: seq<CallValue<T>>)
    requires KnownCallees(files)
    ensures result == Increased(thisFile, files)
  {
    result := [];
    var containsInclude := false;
    var k := 0;
    while k < |files|
      invariant 0 <= k <= |files|
      invariant result == BumpAll(files[..k], thisFile, 1)
      invariant containsInclude <==> Mentions(files[..k], thisFile)
    {
      var value := files[k];
      assert files[..k + 1][..k] == files[..k];
      if value.Info? && value.calls.Callee.value == thisFile {
        containsInclude := true;
        result := result + [Info(NumberOfCalls(Some(thisFile), value.calls.TimesCalled + 1))];
      } else {
        result := result + [value];
      }
      assert files[..k + 1][k] == value;
      k := k + 1;
    }
    assert files[..|files|] == files;
    if !containsInclude {
      result := result + [Info(NumberOfCalls(Some(thisFile), 1))];
    }
  }

  /** `DecreaseCalledInfo`. */
  method DecreaseCalledInfo<T(==)>(thisFile: T, files: seq<CallValue<T>>) returns (result: seq<CallValue<T>>)
    requires KnownCallees(files)
    ensures result == Decreased(thisFile, files)
  {
    result := [];
    var k := 0;
    while k < |files|
      invariant 0 <= k <= |files|
      invariant result == BumpAll(files[..k], thisFile, -1)
    {
      var value := files[k];
      assert files[..k + 1][..k] == files[..k];
      if value.Info? && value.calls.Callee.value == thisFile {
        result := result + [Info(NumberOfCalls(Some(thisFile), value.calls.TimesCalled - 1))];
      } else {
        result := result + [value];
      }
      k := k + 1;
    }
    assert files[..|files|] == files;
  }

  /** Only the records of the callee change, and only by the given amount. */
  lemma BumpChangesOnlyTheCallee<T>(values: seq<CallValue<T>>, callee: T, delta: int, k: nat)
    requires k < |values|
    ensures !IsRecordOf(values[k], callee) ==> BumpAll(values, callee, delta)[k] == values[k]
    ensures IsRecordOf(values[k], callee) ==>
      BumpAll(values, callee, delta)[k] == Info(NumberOfCalls(Some(callee), values[k].calls.TimesCalled + delta))
  {
  }

  /** Undoing a decrease with an increase restores the records of a callee that has a record. */
  lemma IncreaseUndoesDecrease<T>(callee: T, values: seq<CallValue<T>>)
    requires Mentions(values, callee)
    ensures Increased(callee, Decreased(callee, values)) == values
  {
    var k :| 0 <= k < |values| && IsRecordOf(values[k], callee);
    assert IsRecordOf(Decreased(callee, values)[k], callee);
    var r := Increased(callee, Decreased(callee, values));
    assert |r| == |values|;
    forall i | 0 <= i < |values|
      ensures r[i] == values[i]
    {
      if IsRecordOf(values[i], callee) {
        assert values[i] == Info(NumberOfCalls(Some(callee), values[i].calls.TimesCalled));
      }
    }
  }

  /** A decrease after an increase restores the records, except that a first call leaves a record of 0 calls. */
  lemma DecreaseUndoesIncrease<T>(callee: T, values: seq<CallValue<T>>)
    ensures Mentions(values, callee) ==> Decreased(callee, Increased(callee, values)) == values
    ensures !Mentions(values, callee) ==> Decreased(callee, Increased(callee, values)) == values + [Info(NumberOfCalls(Some(callee), 0))]
  {
    var r := Decreased(callee, Increased(callee, values));
    forall i | 0 <= i < |values|
      ensures r[i] == values[i]
    {
      if IsRecordOf(values[i], callee) {
        assert values[i] == Info(NumberOfCalls(Some(callee), values[i].calls.TimesCalled));
      }
    }
  }

  // ----- the recorded number of calls -----

  /** The largest count recorded for `callee`, and 0 when there is none: what `addCallBranch` computes. */
  function CallCount<T(==)>(values: seq<CallValue<T>>, callee: T): int
  {
    if |values| == 0 then 0
    else
      var v := values[|values| - 1];
      Max(CallCount(values[..|values| - 1], callee), if IsRecordOf(v, callee) then v.calls.TimesCalled else 0)
  }

  /** The counts of `callee` are at least `low`. */
  predicate CountsAtLeast<T(==)>(values: seq<CallValue<T>>, callee: T, low: int)
  {
    forall k :: 0 <= k < |values| && IsRecordOf(values[k], callee) ==> values[k].calls.TimesCalled >= low
  }

  /** Changing every count of the callee by `delta` changes the largest by `delta` (counts stay non-negative). */
  lemma {:induction false} CallCountOfBumped<T>(values: seq<CallValue<T>>, callee: T, delta: int)
    requires CountsAtLeast(values, callee, 0) && CountsAtLeast(values, callee, -delta)
    ensures CallCount(BumpAll(values, callee, delta), callee) ==
      if Mentions(values, callee) then CallCount(values, callee) + delta else 0
    ensures CallCount(values, callee) >= 0
  {
    if |values| > 0 {
      var init := values[..|values| - 1];
      var v := values[|values| - 1];
      assert BumpAll(values, callee, delta)[..|init|] == BumpAll(init, callee, delta);
      CallCountOfBumped(init, callee, delta);
      if Mentions(init, callee) {
        var k :| 0 <= k < |init| && IsRecordOf(init[k], callee);
        assert IsRecordOf(values[k], callee);
      }
      if !IsRecordOf(v, callee) && Mentions(values, callee) {
        var k :| 0 <= k < |values| && IsRecordOf(values[k], callee);
        assert k < |init| && IsRecordOf(init[k], callee);
      }
      if !Mentions(init, callee) {
        assert CallCount(init, callee) == 0 by {
          NoRecordNoCount(init, callee);
        }
      }
    }
  }

  lemma {:induction false} NoRecordNoCount<T>(values: seq<CallValue<T>>, callee: T)
    requires !Mentions(values, callee)
    ensures CallCount(values, callee) == 0
  {
    if |values| > 0 {
      var init := values[..|values| - 1];
      forall k | 0 <= k < |init|
        ensures !IsRecordOf(init[k], callee)
      {
        assert init[k] == values[k];
      }
      NoRecordNoCount(init, callee);
      assert !IsRecordOf(values[|values| - 1], callee);
    }
  }

  /** Each call raises the recorded count of the callee by one. */
  lemma IncreaseCountsOneMoreCall<T>(callee: T, values: seq<CallValue<T>>)
    requires CountsAtLeast(values, callee, 0)
    ensures CallCount(Increased(callee, values), callee) == CallCount(values, callee) + 1
  {
    CallCountOfBumped(values, callee, 1);
    var bumped := BumpAll(values, callee, 1);
    if !Mentions(values, callee) {
      NoRecordNoCount(values, callee);
      var r := Increased(callee, values);
      assert r == bumped + [Info(NumberOfCalls(Some(callee), 1))];
      assert r[..|r| - 1] == bumped;
      assert IsRecordOf(r[|r| - 1], callee) && r[|r| - 1].calls.TimesCalled == 1;
    } else {
      assert Increased(callee, values) == bumped;
    }
  }

  /** `addCallBranch`'s scan of the recorded calls. */
  method MaxTimesCalled<T(==)>(fn: T, values: seq<CallValue<T>>) returns (max: int)
    ensures max == CallCount(values, fn)
  {
    max := 0;
    var k := 0;
    while k < |values|
      invariant 0 <= k <= |values|
      invariant max == CallCount(values[..k], fn)
    {
      assert values[..k + 1][..k] == values[..k];
      var value := values[k];
      if value.Info? && value.calls.Callee == Some(fn) {
        max := Max(max, value.calls.TimesCalled);
      } else {
        max := Max(max, 0);
      }
      k := k + 1;
    }
    assert values[..|values|] == values;
  }

  // ----- arity and arguments -----

  /**
   * The arity check of `setNamedArguments`: the fewest arguments are the
   * parameters up to the trailing run of parameters with default values, the
   * most are all parameters. `hasDefault` tells for each formal parameter
   * whether it has an initial value.
   */
  method ArgumentBounds(hasDefault: seq<bool>) returns (argMin: int, argMax: int)
    ensures argMax == |hasDefault|
    ensures 0 <= argMin <= argMax
    ensures forall i :: argMin <= i < |hasDefault| ==> hasDefault[i]
    ensures argMin == 0 || !hasDefault[argMin - 1]
  {
    argMin, argMax := |hasDefault|, |hasDefault|;
    var i := |hasDefault| - 1;
    while i >= 0
      invariant -1 <= i < |hasDefault|
      invariant argMin == i + 1
      invariant forall j :: argMin <= j < |hasDefault| ==> hasDefault[j]
    {
      if !hasDefault[i] {
        break;
      }
      argMin := argMin - 1;
      i := i - 1;
    }
  }

  /** The "wrong number of arguments" warning is raised for a count outside the bounds. */
  method WrongNumberOfArguments(hasDefault: seq<bool>, actualCount: nat) returns (warn: bool)
    ensures warn <==> (actualCount > |hasDefault| || exists i :: actualCount <= i < |hasDefault| && !hasDefault[i])
  {
    var argMin, argMax := ArgumentBounds(hasDefault);
    warn := argMin > actualCount || argMax < actualCount;
    if argMin > actualCount {
      assert actualCount <= argMin - 1 < |hasDefault| && !hasDefault[argMin - 1];
    }
  }

  /** The variable name of the argument at an index; a negative index is not supported. */
  function Argument(index: int): (r: Result<string, string>)
    ensures r.Err? <==> index < 0
  {
    if index < 0 then Err(NegativeArgumentIndex)
    else Ok(".arg" + TypeConversion.NatToDigits(index))
  }

  /** Different arguments are stored in different variables. */
  lemma ArgumentNamesDistinct(i: int, j: int)
    requires Argument(i).Ok? && Argument(i) == Argument(j)
    ensures i == j
  {
    var a, b := TypeConversion.NatToDigits(i), TypeConversion.NatToDigits(j);
    assert ".arg" + a == ".arg" + b;
    assert a == (".arg" + a)[4..];
    assert b == (".arg" + b)[4..];
    assert TypeConversion.DecimalValue(a) == i;
  }

  // ----- call branches -----

  /** A function a call can reach: whether it is a method declaration and whether that has a body. */
  datatype FunctionValue = FunctionValue(name: string, isMethod: bool, hasBody: bool)

  /** Methods without a body cannot be called. */
  predicate Callable(f: FunctionValue) { !f.isMethod || f.hasBody }

  /** What `setCallBranching` decides for a call point. */
  datatype Branching<K> = Branching(warnings: nat, removedExtensions: set<K>, newBranches: map<K, FunctionValue>)

  /**
   * `setCallBranching`: a bodiless method is dropped with a warning; an
   * existing extension whose key is no longer resolved is removed, one that is
   * still resolved is kept as it is, and the remaining resolved functions get
   * new call branches.
   */
  method SetCallBranching<K>(functions: map<K, FunctionValue>, extensionKeys: set<K>) returns (b: Branching<K>)
    ensures b.warnings == |set k | k in functions && !Callable(functions[k])|
    ensures b.removedExtensions == set k | k in extensionKeys && !(k in functions && Callable(functions[k]))
    ensures b.newBranches == map k | k in functions && Callable(functions[k]) && k !in extensionKeys :: functions[k]
  {
    var newFunctions, warnings := DropBodiless(functions);
    var removed, branches := KeepExtensions(newFunctions, extensionKeys);
    b := Branching(warnings, removed, branches);
  }

  /** The first loop of `setCallBranching`: the callable functions, and one warning per bodiless method. */
  method DropBodiless<K>(functions: map<K, FunctionValue>) returns (newFunctions: map<K, FunctionValue>, warnings: nat)
    ensures newFunctions == map k | k in functions && Callable(functions[k]) :: functions[k]
    ensures warnings == |set k | k in functions && !Callable(functions[k])|
  {
    newFunctions, warnings := map[], 0;
    ghost var dropped: set<K> := {};
    var todo := functions.Keys;
    while todo != {}
      invariant todo <= functions.Keys
      invariant newFunctions == map k | k in functions && k !in todo && Callable(functions[k]) :: functions[k]
      invariant dropped == set k | k in functions && k !in todo && !Callable(functions[k])
      invariant warnings == |dropped|
      decreases |todo|
    {
      var key :| key in todo;
      if !Callable(functions[key]) {
        assert key !in dropped;
        dropped := dropped + {key};
        warnings := warnings + 1;
      } else {
        newFunctions := newFunctions[key := functions[key]];
      }
      todo := todo - {key};
    }
    assert dropped == set k | k in functions && !Callable(functions[k]);
  }

  /** The second loop of `setCallBranching`: extensions of unresolved keys go, keys already branched to need no new branch. */
  method KeepExtensions<K>(functions: map<K, FunctionValue>, extensionKeys: set<K>) returns (removed: set<K>, branches: map<K, FunctionValue>)
    ensures removed == extensionKeys - functions.Keys
    ensures branches == functions - extensionKeys
  {
    removed, branches := {}, functions;
    var keys := extensionKeys;
    ghost var done: set<K> := {};
    while keys != {}
      invariant keys == extensionKeys - done && done <= extensionKeys
      invariant removed == done - functions.Keys
      invariant branches == functions - done
      decreases keys
    {
      var branchKey :| branchKey in keys;
      if branchKey in branches {
        assert branches - {branchKey} == functions - (done + {branchKey});
        branches := branches - {branchKey};
      } else {
        removed := removed + {branchKey};
      }
      done := done + {branchKey};
      keys := keys - {branchKey};
    }
  }

  /** The number of recorded calls from which a function's calls share one graph. */
  const SharedThreshold: int := 2

  /** The resolver's sharing state: which functions share a graph, and the shared graphs created so far. */
  class CallBranches {
    var sharedFunctions: set<FunctionValue>
    var sharedProgramPoints: map<FunctionValue, nat>
    /** The number of program-point graphs built; each new graph is identified by this number. */
    var graphs: nat
    var callnum: nat

    ghost predicate Valid()
      reads this
    {
      sharedProgramPoints.Keys <= sharedFunctions && forall f :: f in sharedProgramPoints ==> sharedProgramPoints[f] < graphs
    }

    constructor ()
      ensures Valid()
      ensures sharedFunctions == {} && sharedProgramPoints == map[] && graphs == 0 && callnum == 0
    {
      sharedFunctions, sharedProgramPoints, graphs, callnum := {}, map[], 0, 0;
    }

    /** `ProgramPointGraph.From`: a new graph. */
    method NewGraph() returns (graph: nat)
      modifies this
      ensures graph == old(graphs) && graphs == old(graphs) + 1
      ensures sharedFunctions == old(sharedFunctions) && sharedProgramPoints == old(sharedProgramPoints) && callnum == old(callnum)
    {
      graph := graphs;
      graphs := graphs + 1;
    }

    /**
     * `addCallBranch`: the graph a call of `function` is analysed in. A
     * function whose recorded calls reach the threshold is marked shared (this
     * call still gets its own graph); every later call of a shared function
     * reuses the one graph built for it.
     */
    method AddCallBranch(fn: FunctionValue, calledFunctions: seq<CallValue<FunctionValue>>) returns (graph: nat)
      requires Valid()
      modifies this
      ensures Valid()
      ensures callnum == old(callnum) + 1
      ensures fn in old(sharedProgramPoints) ==>
        graph == old(sharedProgramPoints)[fn] && graphs == old(graphs) && sharedProgramPoints == old(sharedProgramPoints)
      ensures fn in old(sharedFunctions) && fn !in old(sharedProgramPoints) ==>
        graph == old(graphs) && sharedProgramPoints == old(sharedProgramPoints)[fn := graph]
      ensures fn !in old(sharedFunctions) ==> graph == old(graphs) && sharedProgramPoints == old(sharedProgramPoints)
      ensures sharedFunctions == old(sharedFunctions) +
        (if CallCount(calledFunctions, fn) >= SharedThreshold then {fn} else {})
      ensures fn in old(sharedFunctions) ==> sharedFunctions == old(sharedFunctions)
      ensures graphs == old(graphs) + (if fn in old(sharedProgramPoints) then 0 else 1)
    {
      callnum := callnum + 1;
      var max := MaxTimesCalled(fn, calledFunctions);
      var useSharedFunctions := max >= SharedThreshold;
      if fn in sharedFunctions || useSharedFunctions {
        if fn in sharedFunctions {
          if fn !in sharedProgramPoints {
            var g := NewGraph();
            sharedProgramPoints := sharedProgramPoints[fn := g];
          }
          graph := sharedProgramPoints[fn];
        } else {
          graph := NewGraph();
          sharedFunctions := sharedFunctions + {fn};
        }
      } else {
        graph := NewGraph();
      }
    }
  }

  /** Once a function is shared, two calls of it are analysed in the same graph. */
  method SharedCallsShareAGraph(branches: CallBranches, fn: FunctionValue, calls: seq<CallValue<FunctionValue>>)
    returns (first: nat, second: nat)
    requires branches.Valid() && fn in branches.sharedFunctions
    modifies branches
    ensures first == second
    ensures branches.graphs <= old(branches.graphs) + 1
  {
    first := branches.AddCallBranch(fn, calls);
    second := branches.AddCallBranch(fn, calls);
  }
}
