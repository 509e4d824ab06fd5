/**
 * The virtual-reference memory model: every variable holds a list of
 * virtual references, each naming one memory entry. Array indexes and
 * object fields are meta variables whose names encode the array or object
 * and the index or field; the model reads them back from those names.
 */
module VirtualReferenceModel {
  import opened Wrappers
  import opened CSharp
  import Values

  // ----- storage names -----

  predicate StartsWith(s: string, prefix: string) {
    |prefix| <= |s| && s[..|prefix|] == prefix
  }

  function IndexPrefix(arr: nat): string {
    "$arr" + NatToString(arr) + "["
  }

  function FieldPrefix(obj: nat): string {
    "$obj" + NatToString(obj) + "->"
  }

  /** The meta variables the snapshot creates, by what they store. */
  datatype MetaKey =
    | IndexKey(arr: nat, index: string)
    | FieldKey(obj: nat, field: string)
    | FunctionKey(functionName: string)
    | TypeKey(typeName: string)
    | ObjectInfoKey(infoObject: nat)
    | ArrayInfoKey(infoArray: nat)

  /** `getIndex`, `getFieldStorage`, `getFunctionStorage`, `getTypeStorage`, `getObjectInfoStorage`, `getArrayInfoStorage`. */
  function MetaName(k: MetaKey): string {
    match k
      case IndexKey(a, s) => "$arr" + NatToString(a) + "[" + s + "]"
      case FieldKey(o, f) => "$obj" + NatToString(o) + "->" + f
      case FunctionKey(n) => "$function-" + n
      case TypeKey(n) => "$type:" + n
      case ObjectInfoKey(o) => "$obj" + NatToString(o) + "#info"
      case ArrayInfoKey(a) => "$arr" + NatToString(a) + "#info"
  }

  function MetaNames(keys: seq<MetaKey>): (r: seq<string>)
    ensures |r| == |keys|
    decreases |keys|
  {
    if |keys| == 0 then [] else MetaNames(keys[..|keys| - 1]) + [MetaName(keys[|keys| - 1])]
  }

  /**
   * One meta variable seen by `iterateIndexes`: the text between the array's
   * prefix and the last character; a name that is exactly the prefix makes
   * `Substring` throw.
   */
  function IteratedIndex(arr: nat, name: string): (r: Result<Option<string>, string>)
    ensures !StartsWith(name, IndexPrefix(arr)) <==> r == Ok(None)
  {
    var p := IndexPrefix(arr);
    if !StartsWith(name, p) then Ok(None)
    else if |name| == |p| then Err(ArgumentOutOfRangeExceptionName)
    else Ok(Some(name[|p|..|name| - 1]))
  }

  /** One meta variable seen by `iterateFields`: the text after the object's prefix. */
  function IteratedField(obj: nat, name: string): (r: Option<string>)
    ensures r.None? <==> !StartsWith(name, FieldPrefix(obj))
  {
    var p := FieldPrefix(obj);
    if StartsWith(name, p) then Some(name[|p|..]) else None
  }

  /** `iterateIndexes` over the meta variables, in the container's order. */
  function IterateIndexes(arr: nat, names: seq<string>): Result<seq<string>, string>
    decreases |names|
  {
    if |names| == 0 then Ok([])
    else
      match IterateIndexes(arr, names[..|names| - 1])
        case Err(e) => Err(e)
        case Ok(found) =>
          match IteratedIndex(arr, names[|names| - 1])
            case Err(e) => Err(e)
            case Ok(None) => Ok(found)
            case Ok(Some(s)) => Ok(found + [s])
  }

  /** `iterateFields` over the meta variables, in the container's order. */
  function IterateFields(obj: nat, names: seq<string>): seq<string>
    decreases |names|
  {
    if |names| == 0 then []
    else
      var found := IterateFields(obj, names[..|names| - 1]);
      match IteratedField(obj, names[|names| - 1])
        case None => found
        case Some(f) => found + [f]
  }

  /** The indexes of one array among the keys, in order. */
  function IndexesOf(arr: nat, keys: seq<MetaKey>): seq<string>
    decreases |keys|
  {
    if |keys| == 0 then []
    else
      var last := keys[|keys| - 1];
      IndexesOf(arr, keys[..|keys| - 1]) + (if last.IndexKey? && last.arr == arr then [last.index] else [])
  }

  /** The fields of one object among the keys, in order. */
  function FieldsOf(obj: nat, keys: seq<MetaKey>): seq<string>
    decreases |keys|
  {
    if |keys| == 0 then []
    else
      var last := keys[|keys| - 1];
      FieldsOf(obj, keys[..|keys| - 1]) + (if last.FieldKey? && last.obj == obj then [last.field] else [])
  }

  predicate AllDigits(d: string) {
    forall i :: 0 <= i < |d| ==> IsDigit(d[i])
  }

  /**
   * A number followed by a character that is not a digit is delimited: a
   * name of that shape starts with another of that shape only if both
   * numbers and both delimiters are the same.
   */
  lemma Delimited(x: string, d1: string, c1: char, d2: string, c2: char, rest: string)
    requires AllDigits(d1) && AllDigits(d2) && !IsDigit(c1) && !IsDigit(c2)
    requires StartsWith(x + d2 + [c2] + rest, x + d1 + [c1])
    ensures d1 == d2 && c1 == c2
  {
    var big, p := x + d2 + [c2] + rest, x + d1 + [c1];
    var n := |x|;
    assert forall i :: 0 <= i < |p| ==> big[i] == p[i] by {
      forall i | 0 <= i < |p| ensures big[i] == p[i] {
        assert big[..|p|][i] == p[i];
      }
    }
    var m := if |d1| < |d2| then |d1| else |d2|;
    assert big[n + m] == p[n + m];
    assert |d1| == |d2|;
    forall i | 0 <= i < |d1| ensures d1[i] == d2[i] {
      assert big[n + i] == d2[i] && p[n + i] == d1[i];
    }
    assert big[n + |d1|] == c2 && p[n + |d1|] == c1;
  }

  /** The digits of a number are digits. */
  lemma NumberDigits(n: nat)
    ensures AllDigits(NatToString(n))
  {
  }

  /** Only the storage names of this array's indexes start with its prefix, and each gives back its index. */
  lemma IndexNameRoundTrip(arr: nat, k: MetaKey)
    ensures k.IndexKey? && k.arr == arr ==> IteratedIndex(arr, MetaName(k)) == Ok(Some(k.index))
    ensures !(k.IndexKey? && k.arr == arr) ==> IteratedIndex(arr, MetaName(k)) == Ok(None)
  {
    var p := IndexPrefix(arr);
    var d := NatToString(arr);
    NumberDigits(arr);
    var name := MetaName(k);
    match k {
      case IndexKey(a, s) =>
        var da := NatToString(a);
        NumberDigits(a);
        assert name == "$arr" + da + ['['] + (s + "]");
        assert p == "$arr" + d + ['['];
        if a == arr {
          assert name[..|p|] == p;
          assert name[|p|..|name| - 1] == s;
        } else if StartsWith(name, p) {
          Delimited("$arr", d, '[', da, '[', s + "]");
          NatToStringInjective(a, arr);
        }
      case ArrayInfoKey(a) =>
        var da := NatToString(a);
        NumberDigits(a);
        assert name == "$arr" + da + ['#'] + "info";
        if StartsWith(name, p) {
          Delimited("$arr", d, '[', da, '#', "info");
        }
      case FieldKey(_, _) =>
        assert name[1] == 'o' && p[1] == 'a';
      case ObjectInfoKey(_) =>
        assert name[1] == 'o' && p[1] == 'a';
      case FunctionKey(_) =>
        assert name[1] == 'f' && p[1] == 'a';
      case TypeKey(_) =>
        assert name[1] == 't' && p[1] == 'a';
    }
  }

  /** Only the storage names of this object's fields start with its prefix, and each gives back its field. */
  lemma FieldNameRoundTrip(obj: nat, k: MetaKey)
    ensures k.FieldKey? && k.obj == obj ==> IteratedField(obj, MetaName(k)) == Some(k.field)
    ensures !(k.FieldKey? && k.obj == obj) ==> IteratedField(obj, MetaName(k)).None?
  {
    var p := FieldPrefix(obj);
    var d := NatToString(obj);
    NumberDigits(obj);
    var name := MetaName(k);
    match k {
      case FieldKey(o, f) =>
        var dob := NatToString(o);
        NumberDigits(o);
        assert name == "$obj" + dob + ['-'] + (">" + f);
        assert p == "$obj" + d + ['-'] + ">";
        if o == obj {
          assert name[..|p|] == p;
          assert name[|p|..] == f;
        } else if StartsWith(name, p) {
          assert StartsWith(name, "$obj" + d + ['-']) by {
            assert (p)[..|"$obj" + d + ['-']|] == "$obj" + d + ['-'];
            assert name[..|"$obj" + d + ['-']|] == p[..|"$obj" + d + ['-']|];
          }
          Delimited("$obj", d, '-', dob, '-', ">" + f);
          NatToStringInjective(o, obj);
        }
      case ObjectInfoKey(o) =>
        var dob := NatToString(o);
        NumberDigits(o);
        assert name == "$obj" + dob + ['#'] + "info";
        if StartsWith(name, p) {
          assert StartsWith(name, "$obj" + d + ['-']) by {
            assert name[..|"$obj" + d + ['-']|] == p[..|"$obj" + d + ['-']|];
          }
          Delimited("$obj", d, '-', dob, '#', "info");
        }
      case IndexKey(_, _) =>
        assert name[1] == 'a' && p[1] == 'o';
      case ArrayInfoKey(_) =>
        assert name[1] == 'a' && p[1] == 'o';
      case FunctionKey(_) =>
        assert name[1] == 'f' && p[1] == 'o';
      case TypeKey(_) =>
        assert name[1] == 't' && p[1] == 'o';
    }
  }

  /** Iterating an array's indexes over the meta variables yields exactly the indexes stored for that array, in order. */
  lemma {:induction false} IterateIndexesRoundTrip(arr: nat, keys: seq<MetaKey>)
    ensures IterateIndexes(arr, MetaNames(keys)) == Ok(IndexesOf(arr, keys))
    decreases |keys|
  {
    if |keys| > 0 {
      var init := keys[..|keys| - 1];
      IterateIndexesRoundTrip(arr, init);
      var last := keys[|keys| - 1];
      IndexNameRoundTrip(arr, last);
      var names := MetaNames(keys);
      assert names == MetaNames(init) + [MetaName(last)];
      assert names[..|names| - 1] == MetaNames(init);
      assert names[|names| - 1] == MetaName(last);
      assert IterateIndexes(arr, names[..|names| - 1]) == Ok(IndexesOf(arr, init));
      if last.IndexKey? && last.arr == arr {
        assert IteratedIndex(arr, names[|names| - 1]) == Ok(Some(last.index));
        assert IndexesOf(arr, keys) == IndexesOf(arr, init) + [last.index];
      } else {
        assert IteratedIndex(arr, names[|names| - 1]) == Ok(None);
        assert IndexesOf(arr, keys) == IndexesOf(arr, init) + [];
        assert IndexesOf(arr, init) + [] == IndexesOf(arr, init);
        assert IterateIndexes(arr, names) == Ok(IndexesOf(arr, init));
      }
    }
  }

  /** Iterating an object's fields over the meta variables yields exactly the fields stored for that object, in order. */
  lemma {:induction false} IterateFieldsRoundTrip(obj: nat, keys: seq<MetaKey>)
    ensures IterateFields(obj, MetaNames(keys)) == FieldsOf(obj, keys)
    decreases |keys|
  {
    if |keys| > 0 {
      var init := keys[..|keys| - 1];
      IterateFieldsRoundTrip(obj, init);
      var last := keys[|keys| - 1];
      FieldNameRoundTrip(obj, last);
      var names := MetaNames(keys);
      assert names == MetaNames(init) + [MetaName(last)];
      assert names[..|names| - 1] == MetaNames(init);
      assert names[|names| - 1] == MetaName(last);
    }
  }

  // ----- variables and virtual references -----

  /** `VariableKind`. */
  datatype VariableKind = Global | Local | GlobalControl | LocalControl | Meta

  /** `repairKind`: global controls and meta variables keep their kind; others are global when forced or in global scope. */
  function RepairKind(kind: VariableKind, forceGlobal: bool, isGlobalScope: bool): (r: VariableKind)
    ensures kind == GlobalControl || kind == Meta ==> r == kind
    ensures kind != GlobalControl && kind != Meta ==> (r == Global <==> forceGlobal || isGlobalScope || kind == Global)
    ensures r == kind || r == Global
  {
    if kind == GlobalControl || kind == Meta then kind
    else if forceGlobal || isGlobalScope then Global
    else kind
  }

  lemma RepairKindIsIdempotent(kind: VariableKind, forceGlobal: bool, isGlobalScope: bool)
    ensures RepairKind(RepairKind(kind, forceGlobal, isGlobalScope), forceGlobal, isGlobalScope) ==
      RepairKind(kind, forceGlobal, isGlobalScope)
  {
  }

  /** A virtual reference: the variable it was newRef for and the context stamp at that time. */
  datatype VirtualReference = VirtualReference(name: string, kind: VariableKind, stamp: int)

  /** A variable of one container, by its (repaired) kind and name. */
  datatype VariableKey = VariableKey(kind: VariableKind, name: string)

  type Entry = set<Values.Value>

  /** `getThisObjectStorage`: the local variable `this`. */
  const ThisObjectKey := VariableKey(Local, "this")

  predicate Stored(data: map<VirtualReference, Entry>, refs: seq<VirtualReference>) {
    forall k :: 0 <= k < |refs| ==> refs[k] in data
  }

  /** The union of the entries of the references. */
  function Union(data: map<VirtualReference, Entry>, refs: seq<VirtualReference>): (r: Entry)
    requires Stored(data, refs)
    ensures forall v :: v in r <==> exists k :: 0 <= k < |refs| && v in data[refs[k]]
    decreases |refs|
  {
    if |refs| == 0 then {}
    else
      var init := refs[..|refs| - 1];
      var r := Union(data, init) + data[refs[|refs| - 1]];
      assert forall v :: v in r ==> exists k :: 0 <= k < |refs| && v in data[refs[k]] by {
        forall v | v in r ensures exists k :: 0 <= k < |refs| && v in data[refs[k]] {
          if v in Union(data, init) {
            var k :| 0 <= k < |init| && v in data[init[k]];
            assert refs[k] == init[k];
          } else {
            assert v in data[refs[|refs| - 1]];
          }
        }
      }
      assert forall v :: (exists k :: 0 <= k < |refs| && v in data[refs[k]]) ==> v in r by {
        forall v | exists k :: 0 <= k < |refs| && v in data[refs[k]] ensures v in r {
          var k :| 0 <= k < |refs| && v in data[refs[k]];
          if k < |init| { assert init[k] == refs[k]; }
        }
      }
      r
  }

  /** `resolveReferences`: no reference reads undefined, one reads its entry, several read the union. */
  function Resolve(data: map<VirtualReference, Entry>, refs: seq<VirtualReference>): (r: Entry)
    requires Stored(data, refs)
    ensures |refs| == 0 ==> r == {Values.Undefined}
    ensures |refs| == 1 ==> r == data[refs[0]]
    ensures |refs| > 1 ==> forall v :: v in r <==> exists k :: 0 <= k < |refs| && v in data[refs[k]]
  {
    if |refs| == 0 then {Values.Undefined}
    else if |refs| == 1 then data[refs[0]]
    else Union(data, refs)
  }

  /** `weakUpdate`: every reference's entry merged with the update. */
  function WeakUpdated(data: map<VirtualReference, Entry>, refs: seq<VirtualReference>, update: Entry): (r: map<VirtualReference, Entry>)
    requires Stored(data, refs)
    ensures r.Keys == data.Keys
    ensures forall ref :: ref in data ==> r[ref] == (if ref in refs then data[ref] + update else data[ref])
    decreases |refs|
  {
    if |refs| == 0 then data
    else
      var before := WeakUpdated(data, refs[..|refs| - 1], update);
      var last := refs[|refs| - 1];
      assert forall ref :: ref in refs <==> ref in refs[..|refs| - 1] || ref == last by {
        assert refs == refs[..|refs| - 1] + [last];
      }
      before[last := before[last] + update]
  }

  /**
   * `assign` to a variable whose references are `refs`: a variable without
   * one gets a new reference at the current stamp and is written strongly,
   * as is one with a single reference; one with several is updated weakly.
   */
  function Assigned(refs: seq<VirtualReference>, data: map<VirtualReference, Entry>, key: VariableKey, stamp: int, entry: Entry):
    (r: (seq<VirtualReference>, map<VirtualReference, Entry>))
    requires Stored(data, refs)
    ensures Stored(r.1, r.0) && data.Keys <= r.1.Keys
    ensures |refs| == 0 ==> r.0 == [VirtualReference(key.name, key.kind, stamp)]
    ensures |refs| > 0 ==> r.0 == refs
  {
    if |refs| == 0 then
      var newRef := VirtualReference(key.name, key.kind, stamp);
      ([newRef], data[newRef := entry])
    else if |refs| == 1 then (refs, data[refs[0] := entry])
    else (refs, WeakUpdated(data, refs, entry))
  }

  /** The value just assigned is what the variable reads: exactly, after a strong update, and together with the old values after a weak one. */
  lemma AssignedIsRead(refs: seq<VirtualReference>, data: map<VirtualReference, Entry>, key: VariableKey, stamp: int, entry: Entry)
    requires Stored(data, refs)
    ensures var (refs', data') := Assigned(refs, data, key, stamp, entry);
      |refs| <= 1 ==> Resolve(data', refs') == entry
    ensures var (refs', data') := Assigned(refs, data, key, stamp, entry);
      |refs| > 1 ==> Resolve(data', refs') == Resolve(data, refs) + entry
  {
    if |refs| > 1 {
      WeakUpdateIsRead(data, refs, entry);
    }
  }

  /** After a weak update the references read their old values and the update. */
  lemma WeakUpdateIsRead(data: map<VirtualReference, Entry>, refs: seq<VirtualReference>, update: Entry)
    requires Stored(data, refs) && |refs| > 1
    ensures Resolve(WeakUpdated(data, refs, update), refs) == Resolve(data, refs) + update
  {
    var data' := WeakUpdated(data, refs, update);
    forall v | v in Resolve(data', refs) ensures v in Resolve(data, refs) + update {
      WeakReadFrom(data, refs, update, v);
    }
    forall v | v in Resolve(data, refs) + update ensures v in Resolve(data', refs) {
      WeakReadTo(data, refs, update, v);
    }
  }

  lemma WeakReadFrom(data: map<VirtualReference, Entry>, refs: seq<VirtualReference>, update: Entry, v: Values.Value)
    requires Stored(data, refs) && |refs| > 1 && v in Resolve(WeakUpdated(data, refs, update), refs)
    ensures v in Resolve(data, refs) + update
  {
    var data' := WeakUpdated(data, refs, update);
    var k :| 0 <= k < |refs| && v in data'[refs[k]];
    assert data'[refs[k]] == data[refs[k]] + update;
  }

  lemma WeakReadTo(data: map<VirtualReference, Entry>, refs: seq<VirtualReference>, update: Entry, v: Values.Value)
    requires Stored(data, refs) && |refs| > 1 && v in Resolve(data, refs) + update
    ensures v in Resolve(WeakUpdated(data, refs, update), refs)
  {
    var data' := WeakUpdated(data, refs, update);
    if v in Resolve(data, refs) {
      var k :| 0 <= k < |refs| && v in data[refs[k]];
      assert data'[refs[k]] == data[refs[k]] + update;
    } else {
      assert data'[refs[0]] == data[refs[0]] + update;
    }
  }

  /** A weak update loses nothing: every reference still reads its old values. */
  lemma WeakUpdateKeepsValues(data: map<VirtualReference, Entry>, refs: seq<VirtualReference>, update: Entry, ref: VirtualReference)
    requires Stored(data, refs) && ref in data
    ensures data[ref] <= WeakUpdated(data, refs, update)[ref]
  {
  }

  /** The variable containers and entries of one snapshot. */
  class VirtualSnapshot {
    /** The references of every variable of every container. */
    var references: map<VariableKey, seq<VirtualReference>>
    /** The memory entries of the references. */
    var data: map<VirtualReference, Entry>
    var currentContextStamp: int
    /** `SnapshotStamp`, unique to the snapshot. */
    const snapshotStamp: int

    ghost predicate Valid()
      reads this
    {
      forall key :: key in references ==> Stored(data, references[key])
    }

    constructor (stamp: int)
      ensures Valid() && references == map[] && data == map[] && currentContextStamp == 0 && snapshotStamp == stamp
    {
      references, data, currentContextStamp, snapshotStamp := map[], map[], 0, stamp;
    }

    function IsGlobalScope(): (r: bool)
      reads this
      ensures r <==> currentContextStamp == 0
    {
      currentContextStamp == 0
    }

    /** The container a variable of this kind lives in, in the current scope. */
    function KeyOf(name: string, kind: VariableKind): (r: VariableKey)
      reads this
      ensures r.name == name && r.kind == RepairKind(kind, false, IsGlobalScope())
    {
      VariableKey(RepairKind(kind, IsGlobalScope(), IsGlobalScope()), name)
    }

    /** `readValue` of a variable: a variable that does not exist reads undefined. */
    function ReadValue(name: string, kind: VariableKind): (r: Entry)
      requires Valid()
      reads this
      ensures KeyOf(name, kind) !in references ==> r == {Values.Undefined}
      ensures KeyOf(name, kind) in references ==> r == Resolve(data, references[KeyOf(name, kind)])
    {
      var key := KeyOf(name, kind);
      if key in references then Resolve(data, references[key]) else {Values.Undefined}
    }

    /** `startMemoryTransaction` resets the context stamp: the snapshot is in global scope until extended as a call. */
    method StartMemoryTransaction()
      modifies this
      ensures IsGlobalScope()
      ensures references == old(references) && data == old(data)
    {
      currentContextStamp := 0;
    }

    /**
     * `extendAsCallMemory`: the called context is local, stamped by this
     * snapshot. The containers after `ExtendBy` with the caller's, which is
     * not part of this model, are the inputs `extendedReferences` and
     * `extendedData`; the `this` object, when given, is then assigned to the
     * local variable `this`.
     */
    method ExtendAsCallMemory(extendedReferences: map<VariableKey, seq<VirtualReference>>, extendedData: map<VirtualReference, Entry>, thisObject: Option<Entry>)
      requires forall key | key in extendedReferences :: Stored(extendedData, extendedReferences[key])
      modifies this
      ensures Valid()
      ensures currentContextStamp == snapshotStamp
      ensures thisObject.None? ==> references == extendedReferences && data == extendedData
      ensures thisObject.Some? ==>
        var key := ThisObjectKey;
        var refs := if key in extendedReferences then extendedReferences[key] else [];
        var (refs', data') := Assigned(refs, extendedData, key, snapshotStamp, thisObject.value);
        references == extendedReferences[key := refs'] && data == data'
    {
      currentContextStamp := snapshotStamp;
      references, data := extendedReferences, extendedData;
      if thisObject.Some? {
        AssignKey(ThisObjectKey, thisObject.value);
      }
    }

    /**
     * `extendMemory`: the stamp of the last input, or the old one without
     * inputs. The containers after `ExtendBy` with every input, which is not
     * part of this model, are the inputs `extendedReferences` and
     * `extendedData`.
     */
    method ExtendMemory(inputStamps: seq<int>, extendedReferences: map<VariableKey, seq<VirtualReference>>, extendedData: map<VirtualReference, Entry>)
      requires forall key | key in extendedReferences :: Stored(extendedData, extendedReferences[key])
      modifies this
      ensures Valid()
      ensures currentContextStamp == if |inputStamps| == 0 then old(currentContextStamp) else inputStamps[|inputStamps| - 1]
      ensures references == extendedReferences && data == extendedData
    {
      references, data := extendedReferences, extendedData;
      var i := 0;
      while i < |inputStamps|
        invariant 0 <= i <= |inputStamps|
        invariant currentContextStamp == if i == 0 then old(currentContextStamp) else inputStamps[i - 1]
        invariant references == extendedReferences && data == extendedData
      {
        currentContextStamp := inputStamps[i];
        i := i + 1;
      }
    }

    /** `weakUpdate`: merges the update into each reference's entry, one by one. */
    method WeakUpdate(refs: seq<VirtualReference>, update: Entry)
      requires Stored(data, refs)
      modifies this
      ensures data == WeakUpdated(old(data), refs, update)
      ensures references == old(references) && currentContextStamp == old(currentContextStamp)
    {
      var i := 0;
      while i < |refs|
        invariant 0 <= i <= |refs|
        invariant Stored(old(data), refs[..i])
        invariant data == WeakUpdated(old(data), refs[..i], update)
        invariant references == old(references) && currentContextStamp == old(currentContextStamp)
      {
        assert refs[..i + 1][..i] == refs[..i];
        assert refs[..i + 1][i] == refs[i];
        data := data[refs[i] := data[refs[i]] + update];
        i := i + 1;
      }
      assert refs[..i] == refs;
    }

    /** `assign` to a variable: its references found or created in its container, then written as `Assigned` says. */
    method Assign(name: string, entry: Entry, kind: VariableKind)
      requires Valid()
      modifies this
      ensures Valid()
      ensures var key := old(KeyOf(name, kind));
        var refs := if key in old(references) then old(references)[key] else [];
        var (refs', data') := Assigned(refs, old(data), key, old(currentContextStamp), entry);
        references == old(references)[key := refs'] && data == data'
      ensures currentContextStamp == old(currentContextStamp)
    {
      AssignKey(KeyOf(name, kind), entry);
    }

    /** `assign` to the variable of a given key. */
    method AssignKey(key: VariableKey, entry: Entry)
      requires Valid()
      modifies this
      ensures Valid()
      ensures var refs := if key in old(references) then old(references)[key] else [];
        var (refs', data') := Assigned(refs, old(data), key, old(currentContextStamp), entry);
        references == old(references)[key := refs'] && data == data'
      ensures currentContextStamp == old(currentContextStamp)
    {
      var refs := if key in references then references[key] else [];
      if |refs| == 0 {
        var newRef := VirtualReference(key.name, key.kind, currentContextStamp);
        references := references[key := [newRef]];
        data := data[newRef := entry];
      } else if |refs| == 1 {
        references := references[key := refs];
        data := data[refs[0] := entry];
      } else {
        references := references[key := refs];
        WeakUpdate(refs, entry);
      }
      assert forall k :: k in references ==> Stored(data, references[k]) by {
        forall k | k in references ensures Stored(data, references[k]) {
          if k != key { assert Stored(old(data), references[k]); }
        }
      }
    }

    /** `assign` to a list of references: without a reference there is nowhere to write. */
    method AssignReferences(refs: seq<VirtualReference>, entry: Entry)
      requires Valid() && Stored(data, refs)
      modifies this
      ensures Valid()
      ensures |refs| == 0 ==> data == old(data)
      ensures |refs| == 1 ==> data == old(data)[refs[0] := entry]
      ensures |refs| > 1 ==> data == WeakUpdated(old(data), refs, entry)
      ensures references == old(references) && currentContextStamp == old(currentContextStamp)
    {
      if |refs| == 1 {
        data := data[refs[0] := entry];
      } else if |refs| > 1 {
        WeakUpdate(refs, entry);
      }
      assert forall k :: k in references ==> Stored(data, references[k]) by {
        forall k | k in references ensures Stored(data, references[k]) {
          assert Stored(old(data), references[k]);
        }
      }
    }
  }

}
