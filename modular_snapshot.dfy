/**
 * The snapshot of the modular copy memory model: its alias operations,
 * the creation of fields, array indexes, arrays and objects on the
 * structure container, and its call-level rules.
 *
 * Two copies of the snapshot exist. The newer one excludes an index from
 * its own aliases; the older one does not (the `...AsWritten` methods) and
 * carries the call-level rules of `extend`, `extendAsCall` and
 * `mergeWithCallLevel`. Both share `DestroyAliases`, `CreateField` and
 * `CreateIndex`.
 */
module ModularSnapshot {
  import opened Wrappers
  import opened MemoryIndexes
  import opened MemoryAliases
  import opened TrackingStructure
  import Values
  import CSharp

  // The messages of the errors this module reports.
  const FieldAlreadyDefined := "Field is already defined"
  const IndexAlreadyDefined := "Index is already defined"
  const ArrayAlreadyAssociated := "Variable already has associated array value."
  const MissingArrayDescriptor := "Missing array descriptor"

  /** Only the index definitions differ, and changes are only appended. */
  predicate OnlyDefsAndChanges(before: State, after: State) {
    && after.localLevel == before.localLevel && after.memoryStack == before.memoryStack
    && after.arrayDescriptors == before.arrayDescriptors && after.objectDescriptors == before.objectDescriptors
    && after.functionDecl == before.functionDecl && after.classDecl == before.classDecl
    && after.definitionAdded == before.definitionAdded
    && before.changes <= after.changes
  }

  lemma OnlyDefsAndChangesTransitive(a: State, b: State, c: State)
    requires OnlyDefsAndChanges(a, b) && OnlyDefsAndChanges(b, c)
    ensures OnlyDefsAndChanges(a, c)
  {
    assert c.changes[..|b.changes|][..|a.changes|] == c.changes[..|a.changes|];
  }

  /** The data after closing a temporary array: the entry of a temporary parent is emptied. */
  function TemporaryClosed(data: map<MemoryIndex, Entry>, parent: Option<MemoryIndex>): map<MemoryIndex, Entry> {
    if parent.Some? && parent.value.root.TemporaryRoot? then data[parent.value := {}] else data
  }

  /** What `extend` does with its inputs. */
  datatype ExtendAction = NoExtend | ExtendSnapshot | MergeSnapshots

  /** No input does nothing, one input is copied, several are merged. */
  function ExtendActionFor(inputs: nat): (r: ExtendAction)
    ensures r == NoExtend <==> inputs == 0
    ensures r == ExtendSnapshot <==> inputs == 1
    ensures r == MergeSnapshots <==> inputs > 1
  {
    if inputs == 1 then ExtendSnapshot else if inputs > 1 then MergeSnapshots else NoExtend
  }

  /** The largest of 0 and the given call levels. */
  method MaxCallLevel(levels: seq<int>) returns (r: int)
    ensures r >= GlobalCallLevel
    ensures forall l :: l in levels ==> l <= r
    ensures r == GlobalCallLevel || r in levels
  {
    r := GlobalCallLevel;
    for k := 0 to |levels|
      invariant r >= GlobalCallLevel
      invariant forall j :: 0 <= j < k ==> levels[j] <= r
      invariant r == GlobalCallLevel || r in levels[..k]
    {
      if levels[k] > r {
        r := levels[k];
      }
    }
    assert levels[..|levels|] == levels;
  }

  /** Adds to `target` every element of `source` other than `targetIndex`. */
  method AddAllAliases(targetIndex: MemoryIndex, source: seq<MemoryIndex>, target: set<MemoryIndex>) returns (r: set<MemoryIndex>)
    ensures r == target + Without(source, targetIndex)
    ensures targetIndex !in target ==> targetIndex !in r
  {
    r := target;
    for k := 0 to |source|
      invariant r == target + Without(source[..k], targetIndex)
    {
      assert source[..k + 1] == source[..k] + [source[k]];
      if source[k] != targetIndex {
        r := r + {source[k]};
      }
    }
    assert source[..|source|] == source;
  }

  /** Removes every must alias from the may set. */
  method RemoveMustFromMay(must: set<MemoryIndex>, may: set<MemoryIndex>) returns (r: set<MemoryIndex>)
    ensures r == may - must
    ensures r * must == {}
  {
    r := may;
    var todo := must;
    while todo != {}
      invariant todo <= must
      invariant r == may - (must - todo)
      decreases todo
    {
      var m :| m in todo;
      if m in r {
        r := r - {m};
      }
      todo := todo - {m};
    }
  }

  class ModularSnapshot {
    const structure: TrackingStructureContainer
    /** The memory entries of the current data container. */
    var data: map<MemoryIndex, Entry>
    var callLevel: int
    /** The call level at the start of the current transaction. */
    var oldCallLevel: int

    /** The snapshot invariant: no index is its own alias. */
    ghost predicate Valid()
      reads this, structure
    {
      AliasesSelfFree(structure.indexDefinitions)
    }

    /** A snapshot of global code over the given structure. */
    constructor (s: TrackingStructureContainer)
      ensures structure == s && data == map[]
      ensures callLevel == GlobalCallLevel && oldCallLevel == GlobalCallLevel
    {
      structure := s;
      data := map[];
      callLevel := GlobalCallLevel;
      oldCallLevel := GlobalCallLevel;
    }

    // ---- Aliases ----

    /**
     * Adds a must alias and a may alias (either may be absent) to the entry of
     * `index`, creating the entry when there is none.
     */
    method AddAlias(index: MemoryIndex, mustAlias: Option<MemoryIndex>, mayAlias: Option<MemoryIndex>)
      requires Valid()
      modifies structure
      ensures Valid()
      ensures structure.Contents() == old(structure.Contents()).(
        defs := WithAliases(old(structure.indexDefinitions), index,
                            Some(AliasAdded(index, CurrentAlias(old(structure.indexDefinitions), index), mustAlias, mayAlias))),
        changes := old(structure.changes) + [ModifiedIndex(index)])
    {
      var alias := CurrentAlias(structure.indexDefinitions, index);
      var must := alias.must;
      var may := alias.may;
      if mustAlias.Some? && mustAlias.value != index {
        must := must + {mustAlias.value};
        if mustAlias.value in may {
          may := may - {mustAlias.value};
        }
      }
      if mayAlias.Some? && mayAlias.value != index && mayAlias.value !in must {
        may := may + {mayAlias.value};
      }
      assert MemoryAlias(must, may) == AliasAdded(index, alias, mustAlias, mayAlias);
      assert SelfFree(index, alias);
      structure.SetAlias(index, Some(MemoryAlias(must, may)));
    }

    /** Adds sequences of must and may aliases to the entry of `index`; must aliases are then removed from the may set. */
    method AddAliases(index: MemoryIndex, mustAliases: Option<seq<MemoryIndex>>, mayAliases: Option<seq<MemoryIndex>>)
      requires Valid()
      modifies structure
      ensures Valid()
      ensures structure.Contents() == old(structure.Contents()).(
        defs := WithAliases(old(structure.indexDefinitions), index,
                            Some(AliasesAdded(index, CurrentAlias(old(structure.indexDefinitions), index), mustAliases, mayAliases))),
        changes := old(structure.changes) + [ModifiedIndex(index)])
    {
      var alias := CurrentAlias(structure.indexDefinitions, index);
      var must := alias.must;
      var may := alias.may;
      if mustAliases.Some? {
        must := AddAllAliases(index, mustAliases.value, must);
      }
      if mayAliases.Some? {
        may := AddAllAliases(index, mayAliases.value, may);
      }
      may := RemoveMustFromMay(must, may);
      assert MemoryAlias(must, may) == AliasesAdded(index, alias, mustAliases, mayAliases);
      assert SelfFree(index, alias);
      structure.SetAlias(index, Some(MemoryAlias(must, may)));
    }

    /** Detaches one partner, whose alias entry is `e`, from `index`. */
    method DetachPartner(index: MemoryIndex, p: MemoryIndex, e: MemoryAlias, asMust: bool)
      requires structure.TryGetAliases(p) == Some(e)
      modifies structure
      ensures structure.indexDefinitions == WithAliases(old(structure.indexDefinitions), p, Detached(Some(e), index, asMust))
      ensures structure.Contents() == old(structure.Contents()).(defs := structure.indexDefinitions, changes := structure.changes)
      ensures |structure.changes| >= |old(structure.changes)| && structure.changes[..|old(structure.changes)|] == old(structure.changes)
    {
      if (asMust && |e.must| == 1 && |e.may| == 0) || (!asMust && |e.must| == 0 && |e.may| == 1) {
        structure.RemoveAlias(p);
      } else if asMust {
        structure.SetAlias(p, Some(MemoryAlias(e.must - {index}, e.may)));
      } else {
        structure.SetAlias(p, Some(MemoryAlias(e.must, e.may - {index})));
      }
    }

    /**
     * Detaches each of `partners` from `index`, as a must alias or as a may
     * alias. A partner without an alias entry is an error; the partners
     * visited before it are already detached.
     */
    method DetachPartners(index: MemoryIndex, partners: set<MemoryIndex>, asMust: bool) returns (ok: bool)
      requires Valid()
      modifies structure
      ensures Valid()
      ensures ok <==> AllAliased(old(structure.indexDefinitions), partners)
      ensures ok ==> structure.indexDefinitions == DetachedAll(old(structure.indexDefinitions), index, partners, asMust)
      ensures OnlyDefsAndChanges(old(structure.Contents()), structure.Contents())
    {
      ghost var d0 := structure.indexDefinitions;
      ghost var c0 := structure.Contents();
      var todo := partners;
      ghost var done: set<MemoryIndex> := {};
      while todo != {}
        invariant todo + done == partners && todo * done == {}
        invariant structure.indexDefinitions == DetachedAll(d0, index, done, asMust)
        invariant AllAliased(d0, done)
        invariant OnlyDefsAndChanges(c0, structure.Contents())
        decreases todo
      {
        var p :| p in todo;
        ghost var before := structure.Contents();
        var detached := DetachNext(index, p, d0, done, asMust);
        OnlyDefsAndChangesTransitive(c0, before, structure.Contents());
        if !detached {
          DetachedAllSelfFree(d0, index, done, asMust);
          return false;
        }
        todo := todo - {p};
        done := done + {p};
      }
      DetachedAllSelfFree(d0, index, done, asMust);
      ok := true;
    }

    /** One step of `DetachPartners`: partner `p`, after the partners in `done`. */
    method DetachNext(index: MemoryIndex, p: MemoryIndex, ghost d0: map<MemoryIndex, IndexDefinition>,
                      ghost done: set<MemoryIndex>, asMust: bool) returns (ok: bool)
      requires p !in done
      requires structure.indexDefinitions == DetachedAll(d0, index, done, asMust)
      modifies structure
      ensures ok <==> p in d0 && d0[p].aliases.Some?
      ensures !ok ==> structure.indexDefinitions == old(structure.indexDefinitions)
      ensures ok ==> structure.indexDefinitions == DetachedAll(d0, index, done + {p}, asMust)
      ensures OnlyDefsAndChanges(old(structure.Contents()), structure.Contents())
    {
      var current := structure.GetAliases(p);
      if current.Err? {
        return false;
      }
      assert p in d0 && structure.indexDefinitions[p] == d0[p];
      DetachedAllStep(d0, index, done, p, asMust);
      DetachPartner(index, p, current.value, asMust);
      ok := true;
    }

    /**
     * Detaches `index` from all its partners: first from the entries of its
     * must aliases, then from those of its may aliases. The entry of `index`
     * itself is left as it is.
     */
    method DestroyAliases(index: MemoryIndex) returns (ok: bool)
      requires Valid()
      modifies structure
      ensures Valid()
      ensures ok <==> CanDestroy(old(structure.indexDefinitions), index)
      ensures ok ==> structure.indexDefinitions == DestroyedAliases(old(structure.indexDefinitions), index)
      ensures AliasesOf(old(structure.indexDefinitions), index).None? ==> structure.Contents() == old(structure.Contents())
      ensures structure.Contents() == old(structure.Contents()).(defs := structure.indexDefinitions, changes := structure.changes)
      ensures |structure.changes| >= |old(structure.changes)| && structure.changes[..|old(structure.changes)|] == old(structure.changes)
    {
      var aliases := structure.TryGetAliases(index);
      if aliases.None? {
        return true;
      }
      ok := DetachPartners(index, aliases.value.must, true);
      if ok {
        ok := DetachPartners(index, aliases.value.may, false);
      }
    }

    /**
     * Destroys the aliases of `index`, then gives it exactly the given must
     * and may aliases other than itself (the may set is not cleared of must
     * aliases).
     */
    method MustSetAliases(index: MemoryIndex, mustAliases: seq<MemoryIndex>, mayAliases: seq<MemoryIndex>) returns (ok: bool)
      requires Valid()
      modifies structure
      ensures Valid()
      ensures ok <==> CanDestroy(old(structure.indexDefinitions), index)
      ensures ok ==> structure.TryGetAliases(index) == Some(MustSet(index, mustAliases, mayAliases))
      ensures ok ==> structure.indexDefinitions
                     == WithAliases(DestroyedAliases(old(structure.indexDefinitions), index), index, Some(MustSet(index, mustAliases, mayAliases)))
      ensures structure.Contents() == old(structure.Contents()).(defs := structure.indexDefinitions, changes := structure.changes)
    {
      ok := DestroyAliases(index);
      if !ok {
        return;
      }
      var must := AddAllAliases(index, mustAliases, {});
      var may := AddAllAliases(index, mayAliases, {});
      assert MemoryAlias(must, may) == MustSet(index, mustAliases, mayAliases);
      structure.SetAlias(index, Some(MemoryAlias(must, may)));
    }

    /** `AddAlias` of the older snapshot: `index` may become its own alias. */
    method AddAliasAsWritten(index: MemoryIndex, mustAlias: Option<MemoryIndex>, mayAlias: Option<MemoryIndex>)
      modifies structure
      ensures structure.Contents() == old(structure.Contents()).(
        defs := WithAliases(old(structure.indexDefinitions), index,
                            Some(AliasAddedAsWritten(CurrentAlias(old(structure.indexDefinitions), index), mustAlias, mayAlias))),
        changes := old(structure.changes) + [ModifiedIndex(index)])
    {
      var alias := CurrentAlias(structure.indexDefinitions, index);
      var must := alias.must;
      var may := alias.may;
      if mustAlias.Some? {
        must := must + {mustAlias.value};
        if mustAlias.value in may {
          may := may - {mustAlias.value};
        }
      }
      if mayAlias.Some? && mayAlias.value !in must {
        may := may + {mayAlias.value};
      }
      assert MemoryAlias(must, may) == AliasAddedAsWritten(alias, mustAlias, mayAlias);
      structure.SetAlias(index, Some(MemoryAlias(must, may)));
    }

    /** `AddAliases` of the older snapshot: all given aliases are added, `index` included. */
    method AddAliasesAsWritten(index: MemoryIndex, mustAliases: Option<seq<MemoryIndex>>, mayAliases: Option<seq<MemoryIndex>>)
      modifies structure
      ensures structure.Contents() == old(structure.Contents()).(
        defs := WithAliases(old(structure.indexDefinitions), index,
                            Some(AliasesAddedAsWritten(CurrentAlias(old(structure.indexDefinitions), index), mustAliases, mayAliases))),
        changes := old(structure.changes) + [ModifiedIndex(index)])
    {
      var alias := CurrentAlias(structure.indexDefinitions, index);
      var must := alias.must + OptionalElements(mustAliases);
      var may := alias.may + OptionalElements(mayAliases);
      may := RemoveMustFromMay(must, may);
      structure.SetAlias(index, Some(MemoryAlias(must, may)));
    }

    // ---- Fields, indexes, arrays and objects ----

    /**
     * Creates the field `fieldName` of object `obj` described by
     * `descriptor`; a field of that name that already exists is an error.
     */
    method CreateField(fieldName: string, obj: nat, descriptor: ObjectDescriptor) returns (r: Result<MemoryIndex, string>)
      modifies structure
      ensures r.Err? <==> fieldName in descriptor.fields
      ensures r.Err? ==> structure.Contents() == old(structure.Contents())
      ensures r.Ok? ==> r.value == FieldIndex(obj, fieldName) && structure.IsDefined(r.value)
      ensures r.Ok? ==> obj in structure.objectDescriptors && structure.objectDescriptors[obj].fields.Keys == descriptor.fields.Keys + {fieldName}
      ensures r.Ok? ==> structure.Contents() == old(structure.Contents()).(
        defs := Inserted(old(structure.indexDefinitions), r.value),
        changes := old(structure.changes) + InsertionChanges(old(structure.indexDefinitions), r.value),
        objectDescriptors := old(structure.objectDescriptors)[obj := descriptor.(fields := descriptor.fields[fieldName := r.value])])
    {
      if fieldName in descriptor.fields {
        return Err(FieldAlreadyDefined);
      }
      var fieldIndex := FieldIndex(obj, fieldName);
      structure.NewIndex(fieldIndex);
      structure.SetObjectDescriptor(obj, descriptor.(fields := descriptor.fields[fieldName := fieldIndex]));
      r := Ok(fieldIndex);
    }

    /**
     * Creates the index `indexName` of array `arrayValue` described by
     * `descriptor`; a name that already exists is an error, and so is an
     * array without a parent index.
     */
    method CreateIndex(indexName: string, arrayValue: nat, descriptor: ArrayDescriptor) returns (r: Result<MemoryIndex, string>)
      modifies structure
      ensures r.Err? <==> indexName in descriptor.indexes || descriptor.parent.None?
      ensures r.Err? ==> structure.Contents() == old(structure.Contents())
      ensures r.Ok? ==> r.value == ChildIndex(descriptor.parent.value, indexName) && structure.IsDefined(r.value)
      ensures r.Ok? ==> arrayValue in structure.arrayDescriptors && structure.arrayDescriptors[arrayValue].indexes.Keys == descriptor.indexes.Keys + {indexName}
      ensures r.Ok? ==> structure.Contents() == old(structure.Contents()).(
        defs := Inserted(old(structure.indexDefinitions), r.value),
        changes := old(structure.changes) + InsertionChanges(old(structure.indexDefinitions), r.value)
                   + [ModifiedIndex(descriptor.parent.value)],
        arrayDescriptors := old(structure.arrayDescriptors)[arrayValue := descriptor.(indexes := descriptor.indexes[indexName := r.value])])
    {
      if indexName in descriptor.indexes {
        return Err(IndexAlreadyDefined);
      }
      if descriptor.parent.None? {
        return Err(CSharp.NullReferenceMessage);
      }
      var newIndex := ChildIndex(descriptor.parent.value, indexName);
      structure.NewIndex(newIndex);
      structure.SetArrayDescriptor(arrayValue, descriptor.(indexes := descriptor.indexes[indexName := newIndex]));
      r := Ok(newIndex);
    }

    /**
     * Makes `parentIndex` hold the freshly allocated array `value`: its
     * descriptor gets `parentIndex` as parent and a new unknown index whose
     * entry is undefined. A parent that already holds an array is an error,
     * and so is an array without a descriptor. The single `data` map stands
     * both for the current data that the closing of a temporary parent empties
     * and for the writeable data where the new entries go.
     */
    method CreateArray(parentIndex: MemoryIndex, value: nat) returns (r: Result<nat, string>)
      modifies this, structure
      ensures old(structure.HasArray(parentIndex)) ==> r.Err? && structure.Contents() == old(structure.Contents()) && data == old(data)
      ensures r.Ok? ==> r.value == value && structure.TryGetArray(parentIndex) == Some(value)
      ensures r.Ok? ==> (value in old(structure.arrayDescriptors) && structure.arrayDescriptors ==
        old(structure.arrayDescriptors)[value := old(structure.arrayDescriptors)[value].(parent := Some(parentIndex), unknown := UnknownChild(parentIndex))])
      ensures r.Ok? ==> UnknownChild(parentIndex) in data && data[UnknownChild(parentIndex)] == {Values.Undefined}
      ensures r.Ok? ==> data == TemporaryClosed(old(data), old(structure.arrayDescriptors)[value].parent)[UnknownChild(parentIndex) := {Values.Undefined}]
      ensures r.Ok? ==> structure.IsDefined(UnknownChild(parentIndex))
      ensures structure.localLevel == old(structure.localLevel) && structure.objectDescriptors == old(structure.objectDescriptors)
      ensures structure.functionDecl == old(structure.functionDecl) && structure.classDecl == old(structure.classDecl)
      ensures callLevel == old(callLevel) && oldCallLevel == old(oldCallLevel)
    {
      if structure.HasArray(parentIndex) {
        return Err(ArrayAlreadyAssociated);
      }
      if value !in structure.arrayDescriptors {
        return Err(MissingArrayDescriptor);
      }
      var oldDescriptor := structure.arrayDescriptors[value];
      if oldDescriptor.parent.Some? && oldDescriptor.parent.value.root.TemporaryRoot? {
        data := data[oldDescriptor.parent.value := {}];
      }
      var newDescriptor := oldDescriptor.(parent := Some(parentIndex), unknown := UnknownChild(parentIndex));
      structure.NewIndex(newDescriptor.unknown);
      var ok := structure.SetArray(parentIndex, value);
      if !ok {
        return Err(StackLevelOutOfRange);
      }
      structure.SetArrayDescriptor(value, newDescriptor);
      data := data[newDescriptor.unknown := {Values.Undefined}];
      r := Ok(value);
    }

    /**
     * Gives a new object its descriptor, with no fields and a defined unknown
     * field; an object that already has a descriptor is left as it is.
     */
    method InitializeObject(obj: nat, typeName: string)
      requires Valid()
      modifies structure
      ensures Valid()
      ensures old(obj in structure.objectDescriptors) ==> structure.Contents() == old(structure.Contents())
      ensures old(obj !in structure.objectDescriptors) ==> structure.Contents() == old(structure.Contents()).(
        objectDescriptors := old(structure.objectDescriptors)[obj := ObjectDescriptor(typeName, ObjectUnknown(obj), map[])],
        defs := Inserted(old(structure.indexDefinitions), ObjectUnknown(obj)),
        changes := old(structure.changes) + InsertionChanges(old(structure.indexDefinitions), ObjectUnknown(obj)))
    {
      if obj !in structure.objectDescriptors {
        var descriptor := ObjectDescriptor(typeName, ObjectUnknown(obj), map[]);
        structure.NewIndex(descriptor.unknown);
        structure.SetObjectDescriptor(obj, descriptor);
      }
    }

    /** Removes the undefined value from the entry of `index`, when the entry holds it. */
    method RemoveUndefinedFromMemoryEntry(index: MemoryIndex)
      modifies this
      ensures index in old(data) && Values.Undefined in old(data[index]) ==> data == old(data)[index := old(data[index]) - {Values.Undefined}]
      ensures !(index in old(data) && Values.Undefined in old(data[index])) ==> data == old(data)
      ensures callLevel == old(callLevel) && oldCallLevel == old(oldCallLevel)
    {
      if index in data && Values.Undefined in data[index] {
        data := data[index := data[index] - {Values.Undefined}];
      }
    }

    // ---- Call levels (older snapshot) ----

    /** A transaction remembers the call level it started with. */
    method StartTransaction()
      modifies this
      ensures oldCallLevel == old(callLevel) && callLevel == old(callLevel) && data == old(data)
    {
      oldCallLevel := callLevel;
    }

    /**
     * Entering a call puts the snapshot one level below its caller, except
     * that a shared function called again keeps the non-global level of its
     * previous call.
     */
    method ExtendAsCall(callerLevel: int)
      modifies this
      ensures old(oldCallLevel) == GlobalCallLevel || old(oldCallLevel) == callerLevel + 1 ==> callLevel == callerLevel + 1
      ensures old(oldCallLevel) != GlobalCallLevel && old(oldCallLevel) != callerLevel + 1 ==> callLevel == old(oldCallLevel)
      ensures oldCallLevel == old(oldCallLevel) && data == old(data)
    {
      callLevel := callerLevel + 1;
      if oldCallLevel != callLevel && oldCallLevel != GlobalCallLevel {
        callLevel := oldCallLevel;
      }
    }

    /**
     * Takes the call level of the first input, then copies or merges the
     * inputs. No input at all is an error (the first input is read).
     */
    method Extend(inputLevels: seq<int>) returns (r: Result<ExtendAction, string>)
      modifies this
      ensures r.Err? <==> |inputLevels| == 0
      ensures r.Err? ==> callLevel == old(callLevel)
      ensures r.Ok? ==> callLevel == inputLevels[0] && r.value == ExtendActionFor(|inputLevels|)
      ensures oldCallLevel == old(oldCallLevel) && data == old(data)
    {
      if |inputLevels| == 0 {
        return Err(CSharp.IndexOutsideBoundsMessage);
      }
      callLevel := inputLevels[0];
      r := Ok(ExtendActionFor(|inputLevels|));
    }

    /**
     * Merges the outputs of a call back into the caller. The merge itself runs
     * at the lower of the caller's level and the first output's level (the
     * returned value); afterwards the snapshot is at the caller's level. No
     * output at all is an error.
     */
    method MergeWithCallLevel(callerLevel: int, outputLevels: seq<int>) returns (r: Result<int, string>)
      modifies this
      ensures r.Err? <==> |outputLevels| == 0
      ensures r.Ok? ==> callLevel == callerLevel
      ensures r.Ok? ==> r.value == (if callerLevel > outputLevels[0] then outputLevels[0] else callerLevel)
      ensures r.Ok? ==> r.value <= callerLevel && r.value <= outputLevels[0]
      ensures oldCallLevel == old(oldCallLevel) && data == old(data)
    {
      callLevel := callerLevel;
      var tempCallLevel := callLevel;
      if |outputLevels| == 0 {
        return Err(CSharp.IndexOutsideBoundsMessage);
      }
      if callerLevel > outputLevels[0] {
        var refreshed := Extend([callerLevel]);
        callLevel := outputLevels[0];
      }
      r := Ok(callLevel);
      callLevel := tempCallLevel;
    }
  }
}
