/**
 * Parts of the expression evaluator: the default integer keys of an
 * `array(...)` initialisation, the three-valued `isset` and `empty`, the
 * implicit creation of an array when an undefined variable is indexed, and the
 * resolution of the arrays an entry may hold.
 */
module ExpressionEvaluator {
  import opened Wrappers
  import opened CSharp
  import opened Values
  import TypeConversion

  // ----- default keys of array(...) -----

  /**
   * The key of one element of `array(...)`: none, or the integer and string
   * keys the index evaluator resolved together with its three verdicts.
   */
  datatype ArrayKey =
    | NoKey
    | Key(integers: set<Int32>, strings: set<string>, isAlwaysConcrete: bool, isAlwaysInteger: bool, isAlwaysLegal: bool)

  /** The index an element is written to: a set of concrete names, or any index. */
  datatype MemberIdentifier = Indices(names: set<string>) | AnyIndex

  function IndexNames(keys: set<Int32>): set<string>
  {
    set d | d in keys :: TypeConversion.ToStringInt(d)
  }

  /** The defaults that follow explicit integer keys: k+1 for each k >= 0 below the maximum, and 0 for a negative key. */
  function FollowingKeys(integers: set<Int32>): (r: set<Int32>)
    ensures forall d :: d in r ==> 0 <= d
  {
    (set v | v in integers && 0 <= v < MaxValue :: (v + 1) as Int32) +
    (if exists v :: v in integers && v < 0 then {0} else {})
  }

  /** The default integer keys after one element, given those before it. */
  function NextDefaults(current: set<Int32>, key: ArrayKey): set<Int32>
  {
    match key
    case NoKey => set d | d in current && d < MaxValue :: (d + 1) as Int32
    case Key(integers, _, _, isAlwaysInteger, _) =>
      if isAlwaysInteger then FollowingKeys(integers) else current + FollowingKeys(integers)
  }

  /** The index one element is written to, given the current default keys. */
  function Identifier(current: set<Int32>, key: ArrayKey): MemberIdentifier
  {
    match key
    case NoKey => Indices(IndexNames(current))
    case Key(integers, strings, isAlwaysConcrete, _, _) =>
      if isAlwaysConcrete then Indices(IndexNames(integers) + strings) else AnyIndex
  }

  /** The default keys after the given elements; they start as {0}. */
  function Defaults(keys: seq<ArrayKey>): set<Int32>
  {
    if |keys| == 0 then {0} else NextDefaults(Defaults(keys[..|keys| - 1]), keys[|keys| - 1])
  }

  /** The indices the elements are written to, in order. */
  function Identifiers(keys: seq<ArrayKey>): (r: seq<MemberIdentifier>)
    ensures |r| == |keys|
  {
    if |keys| == 0 then []
    else Identifiers(keys[..|keys| - 1]) + [Identifier(Defaults(keys[..|keys| - 1]), keys[|keys| - 1])]
  }

  /** The number of "possible illegal offset type" warnings. */
  function IllegalKeys(keys: seq<ArrayKey>): nat
  {
    if |keys| == 0 then 0
    else IllegalKeys(keys[..|keys| - 1]) + (if keys[|keys| - 1].Key? && !keys[|keys| - 1].isAlwaysLegal then 1 else 0)
  }

  /** `ArrayEx`: where each element of `array(...)` is written, and the warnings raised. */
  method ArrayEx(keys: seq<ArrayKey>) returns (identifiers: seq<MemberIdentifier>, warnings: nat)
    ensures identifiers == Identifiers(keys)
    ensures warnings == IllegalKeys(keys)
  {
    var currentIntegerIndices: set<Int32> := {0};
    identifiers, warnings := [], 0;
    var k := 0;
    while k < |keys|
      invariant 0 <= k <= |keys|
      invariant currentIntegerIndices == Defaults(keys[..k])
      invariant identifiers == Identifiers(keys[..k])
      invariant warnings == IllegalKeys(keys[..k])
    {
      assert keys[..k + 1][..k] == keys[..k];
      var key := keys[k];
      var identifier: MemberIdentifier;
      if key.Key? {
        var nextIntegerIndices := FollowingKeys(key.integers);
        identifier := if key.isAlwaysConcrete then Indices(IndexNames(key.integers) + key.strings) else AnyIndex;
        if key.isAlwaysInteger {
          currentIntegerIndices := nextIntegerIndices;
        } else {
          currentIntegerIndices := currentIntegerIndices + nextIntegerIndices;
        }
        if !key.isAlwaysLegal {
          warnings := warnings + 1;
        }
      } else {
        identifier := Indices(IndexNames(currentIntegerIndices));
        currentIntegerIndices := set d | d in currentIntegerIndices && d < MaxValue :: (d + 1) as Int32;
      }
      identifiers := identifiers + [identifier];
      k := k + 1;
    }
    assert keys[..|keys|] == keys;
  }

  /** The element at position k is written where the defaults before it say. */
  lemma {:induction false} IdentifierAt(keys: seq<ArrayKey>, k: nat)
    requires k < |keys|
    ensures Identifiers(keys)[k] == Identifier(Defaults(keys[..k]), keys[k])
    decreases |keys|
  {
    var init := keys[..|keys| - 1];
    if k < |init| {
      IdentifierAt(init, k);
      assert init[..k] == keys[..k];
    } else {
      assert init == keys[..k];
    }
  }

  /** Default keys are never negative. */
  lemma {:induction false} DefaultsNonNegative(keys: seq<ArrayKey>)
    ensures forall d :: d in Defaults(keys) ==> 0 <= d
  {
    if |keys| > 0 {
      DefaultsNonNegative(keys[..|keys| - 1]);
    }
  }

  /** Without explicit keys, the defaults after n elements are {n}. */
  lemma {:induction false} KeylessDefaults(keys: seq<ArrayKey>)
    requires |keys| <= MaxValue
    requires forall k :: 0 <= k < |keys| ==> keys[k].NoKey?
    ensures Defaults(keys) == {|keys| as Int32}
  {
    if |keys| > 0 {
      var init := keys[..|keys| - 1];
      KeylessDefaults(init);
      SuccessorOfSingleton(|init| as Int32);
    }
  }

  /** Without explicit keys, the n-th element is written to index n: `array(a, b, c)` has the keys 0, 1, 2. */
  lemma KeylessElementsCount(keys: seq<ArrayKey>)
    requires |keys| <= MaxValue
    requires forall k :: 0 <= k < |keys| ==> keys[k].NoKey?
    ensures forall k :: 0 <= k < |keys| ==> Identifiers(keys)[k] == Indices({TypeConversion.ToStringInt(k as Int32)})
  {
    forall k | 0 <= k < |keys|
      ensures Identifiers(keys)[k] == Indices({TypeConversion.ToStringInt(k as Int32)})
    {
      IdentifierAt(keys, k);
      KeylessDefaults(keys[..k]);
      var n: Int32 := k as Int32;
      assert IndexNames({n}) == {TypeConversion.ToStringInt(n)};
    }
  }

  lemma SuccessorOfSingleton(n: Int32)
    requires n < MaxValue
    ensures NextDefaults({n}, NoKey) == {(n + 1) as Int32}
  {
    var next := NextDefaults({n}, NoKey);
    assert (n + 1) as Int32 in next;
  }

  /** After an element with the single integer key k, a keyless element is written to k+1 (or to 0 when k is negative). */
  lemma KeyThenKeyless(keys: seq<ArrayKey>, k: Int32)
    requires k < MaxValue
    ensures var all := keys + [Key({k}, {}, true, true, true), NoKey];
      Identifiers(all)[|keys| + 1] == Indices({TypeConversion.ToStringInt(if k < 0 then 0 else (k + 1) as Int32)})
  {
    var all := keys + [Key({k}, {}, true, true, true), NoKey];
    IdentifierAt(all, |keys| + 1);
    var before := all[..|keys| + 1];
    assert before[..|before| - 1] == keys;
    var next: Int32 := if k < 0 then 0 else (k + 1) as Int32;
    assert FollowingKeys({k}) == {next};
    assert Defaults(before) == {next};
    assert IndexNames({next}) == {TypeConversion.ToStringInt(next)};
  }

  /** An element is written to "any index" exactly when its key is not always concrete. */
  lemma AnyIndexIffNotConcrete(current: set<Int32>, key: ArrayKey)
    ensures Identifier(current, key) == AnyIndex <==> key.Key? && !key.isAlwaysConcrete
  {
  }

  // ----- isset and empty -----

  /** A variable location: not defined at all, or defined with its possible values. */
  datatype Location = UndefinedLocation | DefinedLocation(values: seq<Value>)

  /** The location may be unset: it is not defined or may hold the undefined value. */
  predicate MayBeUnset(l: Location)
  {
    l.UndefinedLocation? || exists i :: 0 <= i < |l.values| && l.values[i].Undefined?
  }

  /** The location may hold a concrete defined value. */
  predicate MayBeSet(l: Location)
  {
    l.DefinedLocation? && exists i :: 0 <= i < |l.values| && !l.values[i].Undefined? && !l.values[i].IsAbstract()
  }

  /** The location may hold an abstract value, which may be null or not. */
  predicate MayBeAbstract(l: Location)
  {
    l.DefinedLocation? && exists i :: 0 <= i < |l.values| && l.values[i].IsAbstract()
  }

  predicate UnsetBefore(entries: seq<Location>, k: nat)
    requires k <= |entries|
  {
    exists j :: 0 <= j < k && MayBeUnset(entries[j])
  }

  predicate SetBefore(entries: seq<Location>, k: nat)
    requires k <= |entries|
  {
    exists j :: 0 <= j < k && MayBeSet(entries[j])
  }

  predicate AbstractBefore(entries: seq<Location>, k: nat)
    requires k <= |entries|
  {
    exists j :: 0 <= j < k && MayBeAbstract(entries[j])
  }

  /** The facts about the first k+1 locations are those about the first k and about location k. */
  lemma PrefixStep(entries: seq<Location>, k: nat)
    requires k < |entries|
    ensures UnsetBefore(entries, k + 1) <==> UnsetBefore(entries, k) || MayBeUnset(entries[k])
    ensures SetBefore(entries, k + 1) <==> SetBefore(entries, k) || MayBeSet(entries[k])
    ensures AbstractBefore(entries, k + 1) <==> AbstractBefore(entries, k) || MayBeAbstract(entries[k])
  {
    if UnsetBefore(entries, k + 1) {
      var j :| 0 <= j < k + 1 && MayBeUnset(entries[j]);
      if j < k { assert UnsetBefore(entries, k); }
    }
    if SetBefore(entries, k + 1) {
      var j :| 0 <= j < k + 1 && MayBeSet(entries[j]);
      if j < k { assert SetBefore(entries, k); }
    }
    if AbstractBefore(entries, k + 1) {
      var j :| 0 <= j < k + 1 && MayBeAbstract(entries[j]);
      if j < k { assert AbstractBefore(entries, k); }
    }
  }

  predicate UndefinedAmong(values: seq<Value>, i: nat)
    requires i <= |values|
  {
    exists n :: 0 <= n < i && values[n].Undefined?
  }

  predicate ConcreteAmong(values: seq<Value>, i: nat)
    requires i <= |values|
  {
    exists n :: 0 <= n < i && !values[n].Undefined? && !values[n].IsAbstract()
  }

  /** The `isset` of the given locations. */
  function IssetResult(entries: seq<Location>): BoolResult
  {
    var unset := UnsetBefore(entries, |entries|);
    var isSet := SetBefore(entries, |entries|);
    if AbstractBefore(entries, |entries|) then AnyBoolean
    else if unset == isSet then AnyBoolean
    else Definite(isSet)
  }

  /** `IssetEx`: stops with "any boolean" as soon as the answer cannot be definite. */
  method IssetEx(entries: seq<Location>) returns (r: BoolResult)
    ensures r == IssetResult(entries)
  {
    var isAlwaysSet, isAlwaysUnset := true, true;
    var k := 0;
    while k < |entries|
      invariant 0 <= k <= |entries|
      invariant isAlwaysSet <==> !UnsetBefore(entries, k)
      invariant isAlwaysUnset <==> !SetBefore(entries, k)
      invariant !AbstractBefore(entries, k)
      invariant isAlwaysSet || isAlwaysUnset
    {
      var entry := entries[k];
      PrefixStep(entries, k);
      PrefixStep(entries, k);
      if entry.DefinedLocation? {
        var values := entry.values;
        var i := 0;
        while i < |values|
          invariant 0 <= i <= |values|
          invariant isAlwaysSet <==> !(UnsetBefore(entries, k) || UndefinedAmong(values, i))
          invariant isAlwaysUnset <==> !(SetBefore(entries, k) || ConcreteAmong(values, i))
          invariant forall n :: 0 <= n < i ==> !values[n].IsAbstract()
          invariant isAlwaysSet || isAlwaysUnset
        {
          var value := values[i];
          assert UndefinedAmong(values, i + 1) <==> UndefinedAmong(values, i) || value.Undefined?;
          assert ConcreteAmong(values, i + 1) <==> ConcreteAmong(values, i) || (!value.Undefined? && !value.IsAbstract());
          if value.Undefined? {
            if isAlwaysSet {
              isAlwaysSet := false;
              if !isAlwaysUnset {
                assert MayBeUnset(entry);
                if SetBefore(entries, k) {
                  assert SetBefore(entries, |entries|);
                } else {
                  assert MayBeSet(entry);
                }
                assert UnsetBefore(entries, |entries|);
                return AnyBoolean;
              }
            }
          } else if value.IsAbstract() {
            assert MayBeAbstract(entries[k]);
            assert AbstractBefore(entries, |entries|);
            return AnyBoolean;
          } else {
            if isAlwaysUnset {
              isAlwaysUnset := false;
              if !isAlwaysSet {
                assert MayBeSet(entry);
                if UnsetBefore(entries, k) {
                  assert UnsetBefore(entries, |entries|);
                } else {
                  assert MayBeUnset(entry);
                }
                assert SetBefore(entries, |entries|);
                return AnyBoolean;
              }
            }
          }
          i := i + 1;
        }
        assert MayBeUnset(entry) <==> UndefinedAmong(values, |values|);
        assert MayBeSet(entry) <==> ConcreteAmong(values, |values|);
        assert !MayBeAbstract(entry);
      } else {
        assert MayBeUnset(entry) && !MayBeSet(entry) && !MayBeAbstract(entry);
        if isAlwaysSet {
          isAlwaysSet := false;
          if !isAlwaysUnset {
            assert UnsetBefore(entries, |entries|) && SetBefore(entries, |entries|);
            return AnyBoolean;
          }
        }
      }
      k := k + 1;
    }
    if isAlwaysSet == isAlwaysUnset {
      r := AnyBoolean;
    } else {
      r := Definite(isAlwaysSet);
    }
  }

  /** What the evaluator guarantees of an `isset` call: at least one location, and a defined location has a value. */
  predicate WellFormedIsset(entries: seq<Location>)
  {
    |entries| > 0 && forall j :: 0 <= j < |entries| && entries[j].DefinedLocation? ==> |entries[j].values| > 0
  }

  /**
   * `isset` is definitely true iff every location is defined and holds only
   * concrete defined values, and definitely false iff no location may hold a
   * defined value.
   */
  lemma IssetAnswers(entries: seq<Location>)
    requires WellFormedIsset(entries)
    ensures IssetResult(entries) == Definite(true) <==>
      forall j :: 0 <= j < |entries| ==> (entries[j].DefinedLocation? &&
        forall i :: 0 <= i < |entries[j].values| ==> !entries[j].values[i].Undefined? && !entries[j].values[i].IsAbstract())
    ensures IssetResult(entries) == Definite(false) <==>
      forall j :: 0 <= j < |entries| ==> (entries[j].UndefinedLocation? ||
        forall i :: 0 <= i < |entries[j].values| ==> entries[j].values[i].Undefined?)
  {
    var e0 := entries[0];
    if e0.DefinedLocation? {
      assert e0.values[0] == e0.values[0];
      if e0.values[0].Undefined? {
        assert MayBeUnset(e0);
      } else if e0.values[0].IsAbstract() {
        assert MayBeAbstract(e0);
      } else {
        assert MayBeSet(e0);
      }
    } else {
      assert MayBeUnset(e0);
    }
    if forall j :: 0 <= j < |entries| ==> (entries[j].UndefinedLocation? ||
        forall i :: 0 <= i < |entries[j].values| ==> entries[j].values[i].Undefined?) {
      assert MayBeUnset(e0);
    }
  }

  /** The `empty` of a location, given how each value converts to a boolean (None: it cannot be decided). */
  function EmptyResult(location: Location, toBoolean: Value -> Option<bool>): BoolResult
  {
    if location.UndefinedLocation? then Definite(true)
    else
      var values := location.values;
      if exists i :: 0 <= i < |values| && toBoolean(values[i]).None? then AnyBoolean
      else
        var truthy := exists i :: 0 <= i < |values| && toBoolean(values[i]) == Some(true);
        var falsy := exists i :: 0 <= i < |values| && toBoolean(values[i]) == Some(false);
        if truthy && falsy then AnyBoolean else Definite(!truthy)
  }

  /** `EmptyEx`. */
  method EmptyEx(location: Location, toBoolean: Value -> Option<bool>) returns (r: BoolResult)
    ensures r == EmptyResult(location, toBoolean)
  {
    if location.DefinedLocation? {
      var values := location.values;
      var isAlwaysEmpty, isNeverEmpty := true, true;
      var i := 0;
      while i < |values|
        invariant 0 <= i <= |values|
        invariant forall n :: 0 <= n < i ==> toBoolean(values[n]).Some?
        invariant isAlwaysEmpty <==> !exists n :: 0 <= n < i && toBoolean(values[n]) == Some(true)
        invariant isNeverEmpty <==> !exists n :: 0 <= n < i && toBoolean(values[n]) == Some(false)
        invariant isAlwaysEmpty || isNeverEmpty
      {
        var booleanValue := toBoolean(values[i]);
        if booleanValue.Some? {
          if booleanValue.value {
            if isAlwaysEmpty {
              isAlwaysEmpty := false;
              if !isNeverEmpty {
                return AnyBoolean;
              }
            }
          } else {
            if isNeverEmpty {
              isNeverEmpty := false;
              if !isAlwaysEmpty {
                return AnyBoolean;
              }
            }
          }
        } else {
          return AnyBoolean;
        }
        i := i + 1;
      }
      if isAlwaysEmpty {
        r := Definite(true);
      } else {
        r := Definite(false);
      }
    } else {
      r := Definite(true);
    }
  }

  /**
   * `empty` is definitely true iff the location is undefined or every value
   * converts to false, and definitely false iff it is defined with values that
   * all convert to true.
   */
  lemma EmptyAnswers(location: Location, toBoolean: Value -> Option<bool>)
    ensures EmptyResult(location, toBoolean) == Definite(true) <==>
      location.UndefinedLocation? || forall i :: 0 <= i < |location.values| ==> toBoolean(location.values[i]) == Some(false)
    ensures EmptyResult(location, toBoolean) == Definite(false) <==>
      location.DefinedLocation? && |location.values| > 0 &&
      forall i :: 0 <= i < |location.values| ==> toBoolean(location.values[i]) == Some(true)
  {
    if location.DefinedLocation? {
      var values := location.values;
      if forall i :: 0 <= i < |values| ==> toBoolean(values[i]) == Some(false) {
        assert !exists i :: 0 <= i < |values| && toBoolean(values[i]).None?;
        assert !exists i :: 0 <= i < |values| && toBoolean(values[i]) == Some(true);
      }
      if |values| > 0 && forall i :: 0 <= i < |values| ==> toBoolean(values[i]) == Some(true) {
        assert toBoolean(values[0]) == Some(true);
        assert !exists i :: 0 <= i < |values| && toBoolean(values[i]).None?;
        assert !exists i :: 0 <= i < |values| && toBoolean(values[i]) == Some(false);
      }
      if EmptyResult(location, toBoolean) == Definite(true) {
        forall i | 0 <= i < |values|
          ensures toBoolean(values[i]) == Some(false)
        {
          var o := toBoolean(values[i]);
          assert o.Some?;
          assert o != Some(true);
          assert !o.value;
        }
      }
      if EmptyResult(location, toBoolean) == Definite(false) {
        var t :| 0 <= t < |values| && toBoolean(values[t]) == Some(true);
        forall i | 0 <= i < |values|
          ensures toBoolean(values[i]) == Some(true)
        {
          var o := toBoolean(values[i]);
          assert o.Some?;
          assert o != Some(false);
          assert o.value;
        }
      }
    }
  }

  // ----- indexing an undefined variable -----

  /** The values of a variable that is indexed for writing: the first undefined value becomes the new array, the other undefined values go. */
  function WithNewArray(values: seq<Value>, newArray: nat): seq<Value>
  {
    if |values| == 0 then []
    else
      var init := values[..|values| - 1];
      var last := values[|values| - 1];
      if !last.Undefined? then WithNewArray(init, newArray) + [last]
      else if Undefined in init then WithNewArray(init, newArray)
      else WithNewArray(init, newArray) + [Array(newArray)]
  }

  /** The result holds exactly the defined values and, if some value was undefined, the new array. */
  lemma {:induction false} WithNewArrayContents(values: seq<Value>, newArray: nat)
    ensures forall v :: v in WithNewArray(values, newArray) <==>
      (v in values && !v.Undefined?) || (v == Array(newArray) && Undefined in values)
    ensures Undefined !in values ==> WithNewArray(values, newArray) == values
  {
    if |values| > 0 {
      var init := values[..|values| - 1];
      WithNewArrayContents(init, newArray);
      assert values == init + [values[|values| - 1]];
    }
  }

  /**
   * `ResolveIndexedVariable`: one warning per `$this` among the possible names;
   * the entry is rewritten only when some value was undefined.
   */
  method ResolveIndexedVariable(names: seq<string>, values: seq<Value>, newArray: nat)
    returns (warnings: nat, entry: seq<Value>, written: bool)
    ensures warnings == multiset(names)["this"]
    ensures written <==> Undefined in values
    ensures entry == WithNewArray(values, newArray)
  {
    warnings := 0;
    var k := 0;
    while k < |names|
      invariant 0 <= k <= |names|
      invariant warnings == multiset(names[..k])["this"]
    {
      assert names[..k + 1] == names[..k] + [names[k]];
      if names[k] == "this" {
        warnings := warnings + 1;
      }
      k := k + 1;
    }
    assert names[..|names|] == names;
    var newValues: seq<Value> := [];
    var isEntryUnchanged := true;
    k := 0;
    while k < |values|
      invariant 0 <= k <= |values|
      invariant newValues == WithNewArray(values[..k], newArray)
      invariant isEntryUnchanged <==> Undefined !in values[..k]
    {
      assert values[..k + 1][..k] == values[..k];
      assert values[..k + 1] == values[..k] + [values[k]];
      var value := values[k];
      if value.Undefined? {
        if isEntryUnchanged {
          newValues := newValues + [Array(newArray)];
          isEntryUnchanged := false;
        }
      } else {
        newValues := newValues + [value];
      }
      k := k + 1;
    }
    assert values[..|values|] == values;
    written := !isEntryUnchanged;
    if isEntryUnchanged {
      WithNewArrayContents(values, newArray);
      entry := values;
    } else {
      entry := newValues;
    }
  }

  // ----- arrays of an entry -----

  /** The concrete arrays among the values, in order. */
  function ArraysIn(values: seq<Value>): seq<nat>
  {
    if |values| == 0 then []
    else
      var last := values[|values| - 1];
      ArraysIn(values[..|values| - 1]) + (if last.Array? then [last.arrayId] else [])
  }

  lemma {:induction false} ArraysInContents(values: seq<Value>)
    ensures forall a :: a in ArraysIn(values) <==> Array(a) in values
    ensures |ArraysIn(values)| <= |values|
  {
    if |values| > 0 {
      ArraysInContents(values[..|values| - 1]);
      assert values == values[..|values| - 1] + [values[|values| - 1]];
    }
  }

  /** `ResolveArraysForIndex`: the concrete arrays, whether every value is an array, and whether none is "any array". */
  method ResolveArraysForIndex(values: seq<Value>) returns (arrays: seq<nat>, isAlwaysArray: bool, isAlwaysConcrete: bool)
    ensures arrays == ArraysIn(values)
    ensures isAlwaysArray <==> forall i :: 0 <= i < |values| ==> values[i].Array? || values[i].AnyArray?
    ensures isAlwaysConcrete <==> AnyArray !in values
  {
    arrays, isAlwaysArray, isAlwaysConcrete := [], true, true;
    var k := 0;
    while k < |values|
      invariant 0 <= k <= |values|
      invariant arrays == ArraysIn(values[..k])
      invariant isAlwaysArray <==> forall i :: 0 <= i < k ==> values[i].Array? || values[i].AnyArray?
      invariant isAlwaysConcrete <==> AnyArray !in values[..k]
    {
      assert values[..k + 1][..k] == values[..k];
      assert values[..k + 1] == values[..k] + [values[k]];
      var value := values[k];
      if value.Array? {
        arrays := arrays + [value.arrayId];
      } else if value.AnyArray? {
        isAlwaysConcrete := false;
      } else {
        isAlwaysArray := false;
      }
      k := k + 1;
    }
    assert values[..|values|] == values;
  }
}
