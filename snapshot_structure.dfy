/**
 * The structure of a snapshot of the copy memory model: index data,
 * descriptors, the arrays of each call level and the declarations, with
 * the memory entries of the snapshot data beside them. While the
 * structure is locked every structural change is refused.
 */
module CopyStructure {
  import opened Wrappers
  import opened MemoryIndexes
  import Values

  // The messages of the errors this module reports.
  const StructureLocked := "Snapshot structure is locked in this mode."
  const MissingAliasValue := "Missing alias value"

  datatype StructureState = StructureState(
    locked: bool,
    indexData: map<MemoryIndex, IndexDefinition>,
    entries: map<MemoryIndex, Entry>,
    arrayDescriptors: map<nat, ArrayDescriptor>,
    objectDescriptors: map<nat, ObjectDescriptor>,
    arrays: seq<set<nat>>,
    functionDecl: map<string, set<nat>>,
    classDecl: map<string, set<nat>>)

  /** `arrays` with `a` added to (or removed from) the set of `level`; the level must be on the stack. */
  function Registered(arrays: seq<set<nat>>, level: int, a: nat, add: bool): (r: Option<seq<set<nat>>>)
    ensures r.Some? <==> 0 <= level < |arrays|
    ensures r.Some? ==> |r.value| == |arrays| && (add ==> a in r.value[level]) && (!add ==> a !in r.value[level])
    ensures r.Some? ==> forall l :: 0 <= l < |arrays| && l != level ==> r.value[l] == arrays[l]
  {
    if 0 <= level < |arrays| then Some(arrays[level := if add then arrays[level] + {a} else arrays[level] - {a}]) else None
  }

  class SnapshotStructure {
    var locked: bool
    var indexData: map<MemoryIndex, IndexDefinition>
    /** The memory entries of the snapshot data this structure belongs to. */
    var entries: map<MemoryIndex, Entry>
    var arrayDescriptors: map<nat, ArrayDescriptor>
    var objectDescriptors: map<nat, ObjectDescriptor>
    /** The arrays living at each call level of the memory stack. */
    var arrays: seq<set<nat>>
    var functionDecl: map<string, set<nat>>
    var classDecl: map<string, set<nat>>

    function Contents(): StructureState
      reads this
    {
      StructureState(locked, indexData, entries, arrayDescriptors, objectDescriptors, arrays, functionDecl, classDecl)
    }

    /**
     * A structure with only the global level, over the given snapshot data:
     * the unknown variable and the unknown control variable of the global
     * level are its only indexes, and both hold the undefined value.
     */
    constructor CreateGlobal(snapshotEntries: map<MemoryIndex, Entry>)
      ensures Contents() == StructureState(false,
        map[VariableUnknown(GlobalCallLevel) := EmptyDefinition, ControlUnknown(GlobalCallLevel) := EmptyDefinition],
        snapshotEntries[VariableUnknown(GlobalCallLevel) := {Values.Undefined}][ControlUnknown(GlobalCallLevel) := {Values.Undefined}],
        map[], map[], [{}], map[], map[])
    {
      locked := false;
      indexData := map[VariableUnknown(GlobalCallLevel) := EmptyDefinition, ControlUnknown(GlobalCallLevel) := EmptyDefinition];
      entries := snapshotEntries[VariableUnknown(GlobalCallLevel) := {Values.Undefined}][ControlUnknown(GlobalCallLevel) := {Values.Undefined}];
      arrayDescriptors := map[];
      objectDescriptors := map[];
      arrays := [{}];
      functionDecl := map[];
      classDecl := map[];
    }

    /** A structure of its own with the same contents over the given snapshot data; it is not locked. */
    method Copy(snapshotEntries: map<MemoryIndex, Entry>) returns (r: SnapshotStructure)
      ensures fresh(r)
      ensures r.Contents() == Contents().(locked := false, entries := snapshotEntries)
    {
      r := new SnapshotStructure.CreateGlobal(snapshotEntries);
      r.entries := snapshotEntries;
      r.arrayDescriptors := arrayDescriptors;
      r.objectDescriptors := objectDescriptors;
      r.indexData := indexData;
      r.functionDecl := functionDecl;
      r.classDecl := classDecl;
      r.arrays := arrays;
    }

    /**
     * A copy over the given snapshot data with one more call level: the new
     * level has no arrays, and its unknown variable and unknown control
     * variable are defined and hold the undefined value. The copy is
     * defined before it is linked to its snapshot, so the lock plays no part.
     */
    method CopyAndAddLocalLevel(snapshotEntries: map<MemoryIndex, Entry>) returns (r: SnapshotStructure)
      ensures fresh(r)
      ensures r.Contents() == Contents().(
        locked := false,
        indexData := indexData[VariableUnknown(|arrays|) := EmptyDefinition][ControlUnknown(|arrays|) := EmptyDefinition],
        entries := snapshotEntries[VariableUnknown(|arrays|) := {Values.Undefined}][ControlUnknown(|arrays|) := {Values.Undefined}],
        arrays := arrays + [{}])
    {
      r := Copy(snapshotEntries);
      r.arrays := arrays + [{}];
      var level := |arrays|;
      var ok := r.NewIndex(VariableUnknown(level));
      ok := r.NewIndex(ControlUnknown(level));
    }

    /** Structural changes are refused while the structure is locked. */
    method LockedTest() returns (r: Result<bool, string>)
      ensures r.Err? <==> locked
    {
      if locked {
        return Err(StructureLocked);
      }
      r := Ok(true);
    }

    /**
     * The declarations of two structures are the same: as many function and
     * class names, and the same declarations under each.
     */
    function CompareDeclarations(other: SnapshotStructure): (r: bool)
      reads this, other
      ensures r <==> functionDecl == other.functionDecl && classDecl == other.classDecl
      ensures r ==> |functionDecl.Keys| == |other.functionDecl.Keys| && |classDecl.Keys| == |other.classDecl.Keys|
    {
      if |functionDecl.Keys| == |other.functionDecl.Keys| && |classDecl.Keys| == |other.classDecl.Keys| then
        functionDecl == other.functionDecl && classDecl == other.classDecl
      else
        false
    }

    // ---- Indexes ----

    /** Defines `index` with empty data and an undefined memory entry. */
    method NewIndex(index: MemoryIndex) returns (ok: bool)
      modifies this
      ensures ok <==> !old(locked)
      ensures !ok ==> Contents() == old(Contents())
      ensures ok ==> Contents() == old(Contents()).(
        indexData := old(indexData)[index := EmptyDefinition],
        entries := old(entries)[index := {Values.Undefined}])
    {
      var test := LockedTest();
      if test.Err? {
        return false;
      }
      indexData := indexData[index := EmptyDefinition];
      entries := entries[index := {Values.Undefined}];
      ok := true;
    }

    /** Removes `index` from the structure and its entry from the data. */
    method RemoveIndex(index: MemoryIndex) returns (ok: bool)
      modifies this
      ensures ok <==> !old(locked)
      ensures !ok ==> Contents() == old(Contents())
      ensures ok ==> Contents() == old(Contents()).(indexData := old(indexData) - {index}, entries := old(entries) - {index})
    {
      var test := LockedTest();
      if test.Err? {
        return false;
      }
      indexData := indexData - {index};
      entries := entries - {index};
      ok := true;
    }

    /**
     * Sets the memory entry of `index`. An undefined index is defined first
     * when the structure is not locked; when it is locked the write is
     * silently dropped.
     */
    method SetMemoryEntry(index: MemoryIndex, entry: Entry)
      modifies this
      ensures old(index in indexData) ==> Contents() == old(Contents()).(entries := old(entries)[index := entry])
      ensures old(index !in indexData) && !old(locked) ==> Contents() == old(Contents()).(
        indexData := old(indexData)[index := EmptyDefinition],
        entries := old(entries)[index := entry])
      ensures old(index !in indexData) && old(locked) ==> Contents() == old(Contents())
    {
      if index in indexData {
        entries := entries[index := entry];
      } else if !locked {
        indexData := indexData[index := EmptyDefinition];
        entries := entries[index := entry];
      }
    }

    // ---- Objects ----

    /** The objects of `index`; an undefined index, or one without an object container, holds none. */
    function GetObjects(index: MemoryIndex): (r: set<nat>)
      reads this
      ensures index !in indexData ==> r == {}
      ensures index in indexData && indexData[index].objects.Some? ==> r == indexData[index].objects.value
      ensures index in indexData && indexData[index].objects.None? ==> r == {}
    {
      if index in indexData && indexData[index].objects.Some? then indexData[index].objects.value else {}
    }

    /** Sets the descriptor of an object. */
    method SetObjectDescriptor(obj: nat, descriptor: ObjectDescriptor) returns (ok: bool)
      modifies this
      ensures ok <==> !old(locked)
      ensures !ok ==> Contents() == old(Contents())
      ensures ok ==> Contents() == old(Contents()).(objectDescriptors := old(objectDescriptors)[obj := descriptor])
    {
      var test := LockedTest();
      if test.Err? {
        return false;
      }
      objectDescriptors := objectDescriptors[obj := descriptor];
      ok := true;
    }

    /** Sets the objects of `index`, defining it when needed. */
    method SetObjects(index: MemoryIndex, objects: set<nat>) returns (ok: bool)
      modifies this
      ensures ok <==> !old(locked)
      ensures !ok ==> Contents() == old(Contents())
      ensures ok ==> GetObjects(index) == objects
      ensures ok ==> Contents() == old(Contents()).(
        indexData := old(indexData)[index := DefinitionOf(old(indexData), index).(objects := Some(objects))])
    {
      var test := LockedTest();
      if test.Err? {
        return false;
      }
      indexData := indexData[index := DefinitionOf(indexData, index).(objects := Some(objects))];
      ok := true;
    }

    // ---- Arrays ----

    /** Sets the descriptor of an array. */
    method SetArrayDescriptor(arrayValue: nat, descriptor: ArrayDescriptor) returns (ok: bool)
      modifies this
      ensures ok <==> !old(locked)
      ensures !ok ==> Contents() == old(Contents())
      ensures ok ==> Contents() == old(Contents()).(arrayDescriptors := old(arrayDescriptors)[arrayValue := descriptor])
    {
      var test := LockedTest();
      if test.Err? {
        return false;
      }
      arrayDescriptors := arrayDescriptors[arrayValue := descriptor];
      ok := true;
    }

    /**
     * Makes `index` hold `arrayValue`, unregisters the array from the level
     * of its previous parent and registers it at the level of `index`. A
     * locked structure refuses; a level outside the memory stack is an error
     * raised after the earlier steps were done.
     */
    method SetArray(index: MemoryIndex, arrayValue: nat) returns (ok: bool)
      modifies this
      ensures old(locked) ==> !ok && Contents() == old(Contents())
      ensures !old(locked) ==> indexData == old(indexData)[index := DefinitionOf(old(indexData), index).(arrayValue := Some(arrayValue))]
      ensures !old(locked) ==>
        var oldParent := if arrayValue in old(arrayDescriptors) then old(arrayDescriptors)[arrayValue].parent else None;
        var removed := if oldParent.None? then Some(old(arrays)) else Registered(old(arrays), IndexCallLevel(oldParent.value), arrayValue, false);
        && (ok <==> removed.Some? && Registered(removed.value, IndexCallLevel(index), arrayValue, true).Some?)
        && (ok ==> arrays == Registered(removed.value, IndexCallLevel(index), arrayValue, true).value)
        && (!ok ==> arrays == if removed.Some? then removed.value else old(arrays))
      ensures Contents() == old(Contents()).(indexData := indexData, arrays := arrays)
    {
      var test := LockedTest();
      if test.Err? {
        return false;
      }
      indexData := indexData[index := DefinitionOf(indexData, index).(arrayValue := Some(arrayValue))];
      if arrayValue in arrayDescriptors && arrayDescriptors[arrayValue].parent.Some? {
        var removed := Registered(arrays, IndexCallLevel(arrayDescriptors[arrayValue].parent.value), arrayValue, false);
        if removed.None? {
          return false;
        }
        arrays := removed.value;
      }
      var added := Registered(arrays, IndexCallLevel(index), arrayValue, true);
      if added.None? {
        return false;
      }
      arrays := added.value;
      ok := true;
    }

    /**
     * Drops the descriptor of `arrayValue`, makes `index` hold no array and
     * unregisters the array from the level of `index`. A locked structure
     * refuses; a level outside the memory stack is an error raised last.
     */
    method RemoveArray(index: MemoryIndex, arrayValue: nat) returns (ok: bool)
      modifies this
      ensures old(locked) ==> !ok && Contents() == old(Contents())
      ensures !old(locked) ==> (ok <==> 0 <= IndexCallLevel(index) < |old(arrays)|)
      ensures !old(locked) ==> Contents() == old(Contents()).(
        arrayDescriptors := old(arrayDescriptors) - {arrayValue},
        indexData := old(indexData)[index := DefinitionOf(old(indexData), index).(arrayValue := None)],
        arrays := if ok then Registered(old(arrays), IndexCallLevel(index), arrayValue, false).value else old(arrays))
    {
      var test := LockedTest();
      if test.Err? {
        return false;
      }
      arrayDescriptors := arrayDescriptors - {arrayValue};
      indexData := indexData[index := DefinitionOf(indexData, index).(arrayValue := None)];
      var removed := Registered(arrays, IndexCallLevel(index), arrayValue, false);
      if removed.None? {
        return false;
      }
      arrays := removed.value;
      ok := true;
    }

    // ---- Declarations ----

    /** Adds a declaration of a function. */
    method SetFunction(name: string, declaration: nat) returns (ok: bool)
      modifies this
      ensures ok <==> !old(locked)
      ensures !ok ==> Contents() == old(Contents())
      ensures ok ==> Contents() == old(Contents()).(
        functionDecl := old(functionDecl)[name := (if name in old(functionDecl) then old(functionDecl)[name] else {}) + {declaration}])
    {
      var test := LockedTest();
      if test.Err? {
        return false;
      }
      functionDecl := functionDecl[name := (if name in functionDecl then functionDecl[name] else {}) + {declaration}];
      ok := true;
    }

    /** Adds a declaration of a class. */
    method SetClass(name: string, declaration: nat) returns (ok: bool)
      modifies this
      ensures ok <==> !old(locked)
      ensures !ok ==> Contents() == old(Contents())
      ensures ok ==> Contents() == old(Contents()).(
        classDecl := old(classDecl)[name := (if name in old(classDecl) then old(classDecl)[name] else {}) + {declaration}])
    {
      var test := LockedTest();
      if test.Err? {
        return false;
      }
      classDecl := classDecl[name := (if name in classDecl then classDecl[name] else {}) + {declaration}];
      ok := true;
    }

    predicate IsFunctionDefined(name: string)
      reads this
    {
      name in functionDecl
    }

    predicate IsClassDefined(name: string)
      reads this
    {
      name in classDecl
    }

    // ---- Aliases ----

    /** The aliases of `index`, if it is defined and has any. */
    function TryGetAliases(index: MemoryIndex): (r: Option<MemoryAlias>)
      reads this
      ensures r.Some? <==> index in indexData && indexData[index].aliases.Some?
      ensures r.Some? ==> r.value == indexData[index].aliases.value
    {
      AliasesOf(indexData, index)
    }

    /** The aliases of `index`; an index without aliases is an error. */
    method GetAliases(index: MemoryIndex) returns (r: Result<MemoryAlias, string>)
      ensures r.Ok? <==> TryGetAliases(index).Some?
      ensures r.Ok? ==> r.value == indexData[index].aliases.value
    {
      var a := TryGetAliases(index);
      if a.None? {
        return Err(MissingAliasValue);
      }
      r := Ok(a.value);
    }

    /** Sets the aliases of `index`, defining it when needed. */
    method SetAlias(index: MemoryIndex, alias: MemoryAlias) returns (ok: bool)
      modifies this
      ensures ok <==> !old(locked)
      ensures !ok ==> Contents() == old(Contents())
      ensures ok ==> TryGetAliases(index) == Some(alias)
      ensures ok ==> Contents() == old(Contents()).(indexData := WithAliases(old(indexData), index, Some(alias)))
    {
      var test := LockedTest();
      if test.Err? {
        return false;
      }
      indexData := indexData[index := DefinitionOf(indexData, index).(aliases := Some(alias))];
      ok := true;
    }

    /** Clears the aliases of `index`, defining it when needed. */
    method RemoveAlias(index: MemoryIndex) returns (ok: bool)
      modifies this
      ensures ok <==> !old(locked)
      ensures !ok ==> Contents() == old(Contents())
      ensures ok ==> TryGetAliases(index).None?
      ensures ok ==> Contents() == old(Contents()).(indexData := WithAliases(old(indexData), index, None))
    {
      var test := LockedTest();
      if test.Err? {
        return false;
      }
      indexData := indexData[index := DefinitionOf(indexData, index).(aliases := None)];
      ok := true;
    }
  }

  /** A locked structure refuses a run of structural changes, one after another, and stays as it was. */
  method LockedStructureRefusesChanges(s: SnapshotStructure, index: MemoryIndex, alias: MemoryAlias)
    requires s.locked
    modifies s
    ensures s.Contents() == old(s.Contents())
  {
    var a := s.NewIndex(index);
    var b := s.SetAlias(index, alias);
    var c := s.RemoveAlias(index);
    var d := s.SetArray(index, 0);
    var e := s.RemoveArray(index, 0);
    var f := s.RemoveIndex(index);
    assert !a && !b && !c && !d && !e && !f;
  }
}
