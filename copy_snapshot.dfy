/**
 * The snapshot of the copy memory model: its call context (the caller
 * snapshot, the call level and the `$this` object), the rules that keep the
 * contexts of merged snapshots consistent, global declarations, and the
 * alias, index and field operations it performs on its structure.
 *
 * The snapshot adds aliases exactly as it is given them: it does not keep
 * an index out of its own alias entry.
 */
module CopyModel {
  import opened Wrappers
  import opened MemoryIndexes
  import opened MemoryAliases
  import opened CopyStructure
  import Values
  import CSharp

  // The messages of the errors this module reports.
  const DifferentCallContexts := "Call outputs don't have the same call context."
  const FunctionNotDefined := "Function is not defined in this context."
  const FunctionAlreadyDefined := "Function is already defined in this context."
  const ClassAlreadyDefined := "Class is already defined in this context."
  const MissingMemoryEntry := "Missing memory entry"
  const FieldAlreadyDefined := "Field is already defined"
  const IndexAlreadyDefined := "Index is already defined"

  const GlobalLevel: int := 0

  /** Why snapshots cannot be merged, in the order the checks are made. */
  datatype MergeError = DifferentCallContext | DifferentCallLevel | DifferentThisObject

  /**
   * The caller context the loop of `mergeWithCallLevel` settles on, starting
   * from `parent`: a context is taken from the first output while none is
   * known yet, and every later output must have that same context.
   * `None` is the error for outputs whose contexts differ.
   */
  function CommonCallerContext(contexts: seq<Snapshot?>, parent: Snapshot?): (r: Option<Snapshot?>)
    decreases |contexts|
    ensures parent != null ==> (r.Some? <==> forall i :: 0 <= i < |contexts| ==> contexts[i] == parent)
    ensures parent != null && r.Some? ==> r.value == parent
    ensures r.Some? && r.value != null ==> parent == null || parent == r.value
    ensures r.Some? && r.value != null ==> forall i :: 0 <= i < |contexts| ==> contexts[i] == null || contexts[i] == r.value
    ensures r.Some? && r.value == null ==> parent == null && forall i :: 0 <= i < |contexts| ==> contexts[i] == null
    ensures parent == null && (forall i :: 0 <= i < |contexts| ==> contexts[i] == null) ==> r == Some(null)
  {
    if |contexts| == 0 then Some(parent)
    else if parent == null then CommonCallerContext(contexts[1..], contexts[0])
    else if contexts[0] != parent then None
    else CommonCallerContext(contexts[1..], parent)
  }

  /** Call outputs that all come from the same caller are accepted with that caller. */
  lemma {:induction false} SameCallerAccepted(contexts: seq<Snapshot?>, c: Snapshot)
    requires forall i :: 0 <= i < |contexts| ==> contexts[i] == c
    ensures |contexts| > 0 ==> CommonCallerContext(contexts, null) == Some(c as Snapshot?)
  {
    if |contexts| > 0 {
      assert CommonCallerContext(contexts, null) == CommonCallerContext(contexts[1..], c);
    }
  }

  /** An output without a caller context ahead of ones with a context is not an error. */
  lemma LeadingGlobalOutputAccepted(c: Snapshot)
    ensures CommonCallerContext([null, c], null) == Some(c as Snapshot?)
  {
    assert [null, c][1..] == [c];
    assert [c][1..] == [];
  }

  /**
   * The first thing in which `s` differs from the context `(callerContext,
   * callLevel, thisObject)`, checked in the order of the source.
   */
  function Mismatch(caller: Snapshot?, level: int, thisObject: Option<Entry>, s: Snapshot): (r: Option<MergeError>)
    reads s
    ensures r.None? <==> s.callerContext == caller && s.callLevel == level && s.thisObject == thisObject
  {
    if s.callerContext != caller then Some(DifferentCallContext)
    else if s.callLevel != level then Some(DifferentCallLevel)
    else if s.thisObject != thisObject then Some(DifferentThisObject)
    else None
  }

  /**
   * `commitTransaction` as written: `Data.Equals(oldData)`, with the data of
   * the transaction compared by content.
   */
  function CommitResultAsWritten(oldData: CopyStructure.StructureState, data: CopyStructure.StructureState): bool {
    data == oldData
  }

  /** A transaction that changes the data is reported as one without a change, and one that changes nothing as a change. */
  lemma CommitResultAsWrittenInverted(oldData: CopyStructure.StructureState, data: CopyStructure.StructureState)
    requires data != oldData
    ensures !CommitResultAsWritten(oldData, data) && CommitResultAsWritten(oldData, oldData)
  {
  }

  /** What a commit reports by the contract of `SnapshotBase`: whether the content differs from the previous one. */
  function CommitResult(oldData: CopyStructure.StructureState, data: CopyStructure.StructureState): (r: bool)
    ensures r <==> data != oldData
  {
    !CommitResultAsWritten(oldData, data)
  }

  /** The corrected commit reports a change exactly for a changed transaction, and never for an empty one. */
  lemma CommitResultReportsChange(oldData: CopyStructure.StructureState, data: CopyStructure.StructureState)
    ensures !CommitResult(oldData, oldData)
    ensures data != oldData ==> CommitResult(oldData, data)
  {
  }

  class Snapshot {
    /** The snapshot the call was made from; null for global code. */
    var callerContext: Snapshot?
    var callLevel: int
    var thisObject: Option<Entry>
    /** The data of the snapshot; it is replaced, not updated, when the snapshot is extended or merged. */
    var structure: SnapshotStructure

    /** A snapshot of global code with empty data. */
    constructor ()
      ensures callerContext == null && callLevel == GlobalLevel && thisObject.None?
      ensures fresh(structure) && !structure.locked && structure.arrays == [{}]
    {
      callerContext := null;
      thisObject := None;
      callLevel := GlobalLevel;
      structure := new SnapshotStructure.CreateGlobal(map[]);
    }

    // ---- Calls and merges ----

    /** Enters a call made from `caller`: one level deeper, with the caller and the `$this` object recorded. */
    method ExtendAsCall(caller: Snapshot, callThis: Option<Entry>)
      modifies this
      ensures callerContext == caller && callLevel == old(caller.callLevel) + 1 && thisObject == callThis
      ensures fresh(structure) && structure.Contents() == old(caller.structure.Contents()).(locked := false)
    {
      var data := caller.structure.Copy(caller.structure.entries);
      callerContext := caller;
      callLevel := caller.callLevel + 1;
      thisObject := callThis;
      structure := data;
    }

    /** Continues from a single input: its context and a copy of its data. */
    method ExtendSnapshot(input: Snapshot)
      modifies this
      ensures callerContext == old(input.callerContext) && callLevel == old(input.callLevel) && thisObject == old(input.thisObject)
      ensures fresh(structure) && structure.Contents() == old(input.structure.Contents()).(locked := false)
    {
      var data := input.structure.Copy(input.structure.entries);
      callerContext := input.callerContext;
      callLevel := input.callLevel;
      thisObject := input.thisObject;
      structure := data;
    }

    /**
     * Merges snapshots of the same context. Every input must have the
     * caller context, call level and `$this` of the first; the first input
     * that differs decides the error. On success the snapshot takes that
     * context and the merged data.
     */
    method MergeSnapshots(inputs: seq<Snapshot>, merged: SnapshotStructure) returns (r: Result<bool, MergeError>)
      requires |inputs| > 0
      modifies this
      ensures r.Ok? <==> forall i :: 0 <= i < |inputs| ==> old(Mismatch(inputs[0].callerContext, inputs[0].callLevel, inputs[0].thisObject, inputs[i])).None?
      ensures r.Err? ==> exists k :: 0 <= k < |inputs| && old(Mismatch(inputs[0].callerContext, inputs[0].callLevel, inputs[0].thisObject, inputs[k])) == Some(r.error)
                                    && forall i :: 0 <= i < k ==> old(Mismatch(inputs[0].callerContext, inputs[0].callLevel, inputs[0].thisObject, inputs[i])).None?
      ensures r.Err? ==> callerContext == old(callerContext) && callLevel == old(callLevel) && thisObject == old(thisObject) && structure == old(structure)
      ensures r.Ok? ==> callerContext == old(inputs[0].callerContext) && callLevel == old(inputs[0].callLevel)
                        && thisObject == old(inputs[0].thisObject) && structure == merged
    {
      var caller := inputs[0].callerContext;
      var level := inputs[0].callLevel;
      var self := inputs[0].thisObject;
      for i := 1 to |inputs|
        invariant forall j :: 0 <= j < i ==> Mismatch(caller, level, self, inputs[j]).None?
      {
        var m := Mismatch(caller, level, self, inputs[i]);
        if m.Some? {
          return Err(m.value);
        }
      }
      callerContext := caller;
      callLevel := level;
      thisObject := self;
      structure := merged;
      r := Ok(true);
    }

    /** No input leaves the snapshot as it is, one input is copied, several are merged. */
    method Extend(inputs: seq<Snapshot>, merged: SnapshotStructure) returns (r: Result<bool, MergeError>)
      modifies this
      ensures |inputs| == 0 ==> r.Ok? && callerContext == old(callerContext) && callLevel == old(callLevel)
                                && thisObject == old(thisObject) && structure == old(structure)
      ensures |inputs| == 1 ==> r.Ok? && callerContext == old(inputs[0].callerContext) && callLevel == old(inputs[0].callLevel)
                                && thisObject == old(inputs[0].thisObject) && fresh(structure)
      ensures |inputs| > 1 && r.Ok? ==> callerContext == old(inputs[0].callerContext) && callLevel == old(inputs[0].callLevel)
                                        && thisObject == old(inputs[0].thisObject) && structure == merged
    {
      if |inputs| == 1 {
        ExtendSnapshot(inputs[0]);
      } else if |inputs| > 1 {
        r := MergeSnapshots(inputs, merged);
        return;
      }
      r := Ok(true);
    }

    /**
     * Returns from a call: the outputs must agree on their caller, and the
     * snapshot takes the caller's own context, level and `$this` with the
     * merged data. Outputs whose contexts differ are an error, and so is a
     * set of outputs none of which has a caller.
     */
    method MergeWithCallLevel(outputs: seq<Snapshot>, merged: SnapshotStructure) returns (r: Result<bool, string>)
      modifies this
      ensures var c := CommonCallerContext(old(CallerContexts(outputs)), null);
              && (r.Ok? <==> c.Some? && c.value != null)
              && (r.Ok? ==> callerContext == old(c.value.callerContext) && callLevel == old(c.value.callLevel)
                            && thisObject == old(c.value.thisObject) && structure == merged)
      ensures r.Err? ==> callerContext == old(callerContext) && callLevel == old(callLevel) && thisObject == old(thisObject) && structure == old(structure)
    {
      ghost var contexts := CallerContexts(outputs);
      var parent: Snapshot? := null;
      for i := 0 to |outputs|
        invariant CommonCallerContext(contexts, null) == CommonCallerContext(contexts[i..], parent)
      {
        assert contexts[i..][1..] == contexts[i + 1..];
        if parent == null {
          parent := outputs[i].callerContext;
        } else if outputs[i].callerContext != parent {
          return Err(DifferentCallContexts);
        }
      }
      assert contexts[|outputs|..] == [];
      if parent == null {
        return Err(CSharp.NullReferenceMessage);
      }
      callerContext := parent.callerContext;
      callLevel := parent.callLevel;
      thisObject := parent.thisObject;
      structure := merged;
      r := Ok(true);
    }

    // ---- Functions and classes ----

    /** The declarations of a function; an undeclared function is an error. */
    function ResolveFunction(name: string): (r: Result<set<nat>, string>)
      reads this, structure
      ensures r.Ok? <==> name in structure.functionDecl
      ensures r.Ok? ==> r.value == structure.functionDecl[name]
    {
      if structure.IsFunctionDefined(name) then Ok(structure.functionDecl[name]) else Err(FunctionNotDefined)
    }

    /** Declares a function; a name that is already declared is an error, and so is a locked structure. */
    method DeclareFunction(name: string, declaration: nat) returns (r: Result<bool, string>)
      modifies structure
      ensures r.Ok? <==> name !in old(structure.functionDecl) && !old(structure.locked)
      ensures r.Err? ==> structure.Contents() == old(structure.Contents())
      ensures r.Ok? ==> structure.Contents() == old(structure.Contents()).(functionDecl := old(structure.functionDecl)[name := {declaration}])
      ensures r.Ok? ==> ResolveFunction(name) == Ok({declaration})
    {
      if structure.IsFunctionDefined(name) {
        return Err(FunctionAlreadyDefined);
      }
      var ok := structure.SetFunction(name, declaration);
      if !ok {
        return Err(StructureLocked);
      }
      assert {} + {declaration} == {declaration};
      r := Ok(true);
    }

    /** Declares a class; a name that is already declared is an error, and so is a locked structure. */
    method DeclareClass(name: string, declaration: nat) returns (r: Result<bool, string>)
      modifies structure
      ensures r.Ok? <==> name !in old(structure.classDecl) && !old(structure.locked)
      ensures r.Err? ==> structure.Contents() == old(structure.Contents())
      ensures r.Ok? ==> structure.Contents() == old(structure.Contents()).(classDecl := old(structure.classDecl)[name := {declaration}])
    {
      if structure.IsClassDefined(name) {
        return Err(ClassAlreadyDefined);
      }
      var ok := structure.SetClass(name, declaration);
      if !ok {
        return Err(StructureLocked);
      }
      assert {} + {declaration} == {declaration};
      r := Ok(true);
    }

    // ---- Objects ----

    /**
     * Whether `index` surely references one object: its entry holds exactly
     * one value and it holds exactly one object. An index without an entry
     * is an error.
     */
    function HasMustReference(index: MemoryIndex): (r: Result<bool, string>)
      reads this, structure
      ensures r.Ok? <==> index in structure.entries
      ensures r.Ok? ==> (r.value <==> |structure.entries[index]| == 1 && |structure.GetObjects(index)| == 1)
    {
      if index !in structure.entries then Err(MissingMemoryEntry)
      else Ok(|structure.entries[index]| == 1 && |structure.GetObjects(index)| == 1)
    }

    /** A must reference names a single object and a single value. */
    lemma MustReferenceIsSingle(index: MemoryIndex)
      requires HasMustReference(index) == Ok(true)
      ensures exists o :: structure.GetObjects(index) == {o}
      ensures exists v :: structure.entries[index] == {v}
    {
      SingletonSet(structure.GetObjects(index));
      SingletonSet(structure.entries[index]);
    }

    // ---- Aliases ----

    /**
     * Adds one must alias and one may alias to the entry of `index`, creating
     * the entry when there is none; `index` itself is not excluded. A locked
     * structure refuses.
     */
    method AddAlias(index: MemoryIndex, mustAlias: Option<MemoryIndex>, mayAlias: Option<MemoryIndex>) returns (ok: bool)
      modifies structure
      ensures ok <==> !old(structure.locked)
      ensures !ok ==> structure.Contents() == old(structure.Contents())
      ensures ok ==> structure.Contents() == old(structure.Contents()).(
        indexData := WithAliases(old(structure.indexData), index, Some(AliasAddedAsWritten(CurrentAlias(old(structure.indexData), index), mustAlias, mayAlias))))
      ensures ok && mustAlias.Some? ==> (var a := structure.TryGetAliases(index).value; mustAlias.value in a.must && mustAlias.value !in a.may)
    {
      var current := structure.TryGetAliases(index);
      var alias := if current.Some? then current.value else NoAliases;
      ok := structure.SetAlias(index, AliasAddedAsWritten(alias, mustAlias, mayAlias));
    }

    /** Adds sequences of must and may aliases to the entry of `index`; the result has no index both must and may. */
    method AddAliases(index: MemoryIndex, mustAliases: Option<seq<MemoryIndex>>, mayAliases: Option<seq<MemoryIndex>>) returns (ok: bool)
      modifies structure
      ensures ok <==> !old(structure.locked)
      ensures !ok ==> structure.Contents() == old(structure.Contents())
      ensures ok ==> structure.Contents() == old(structure.Contents()).(
        indexData := WithAliases(old(structure.indexData), index, Some(AliasesAddedAsWritten(CurrentAlias(old(structure.indexData), index), mustAliases, mayAliases))))
      ensures ok ==> Disjoint(structure.TryGetAliases(index).value)
    {
      var current := structure.TryGetAliases(index);
      var alias := if current.Some? then current.value else NoAliases;
      ok := structure.SetAlias(index, AliasesAddedAsWritten(alias, mustAliases, mayAliases));
    }

    /** Replaces the entry `e` of partner `p` by its entry detached from `index`. */
    method DetachPartner(index: MemoryIndex, p: MemoryIndex, e: MemoryAlias, asMust: bool) returns (ok: bool)
      requires structure.TryGetAliases(p) == Some(e)
      modifies structure
      ensures ok <==> !old(structure.locked)
      ensures !ok ==> structure.Contents() == old(structure.Contents())
      ensures ok ==> structure.Contents() == old(structure.Contents()).(
        indexData := WithAliases(old(structure.indexData), p, Detached(Some(e), index, asMust)))
    {
      if (asMust && |e.must| == 1 && |e.may| == 0) || (!asMust && |e.must| == 0 && |e.may| == 1) {
        ok := structure.RemoveAlias(p);
      } else if asMust {
        ok := structure.SetAlias(p, MemoryAlias(e.must - {index}, e.may));
      } else {
        ok := structure.SetAlias(p, MemoryAlias(e.must, e.may - {index}));
      }
    }

    /**
     * Detaches each of `partners` from `index`. A partner without an alias
     * entry is an error, and so is a locked structure with a partner to
     * visit; the partners visited before are already detached.
     */
    method DetachPartners(index: MemoryIndex, partners: set<MemoryIndex>, asMust: bool) returns (ok: bool)
      modifies structure
      ensures ok <==> AllAliased(old(structure.indexData), partners) && (partners == {} || !old(structure.locked))
      ensures ok ==> structure.indexData == DetachedAll(old(structure.indexData), index, partners, asMust)
      ensures old(structure.locked) ==> structure.Contents() == old(structure.Contents())
      ensures structure.Contents() == old(structure.Contents()).(indexData := structure.indexData)
    {
      ghost var d0 := structure.indexData;
      ghost var c0 := structure.Contents();
      var todo := partners;
      ghost var done: set<MemoryIndex> := {};
      while todo != {}
        invariant todo + done == partners && todo * done == {}
        invariant structure.indexData == DetachedAll(d0, index, done, asMust)
        invariant AllAliased(d0, done)
        invariant c0.locked ==> done == {}
        invariant structure.Contents() == c0.(indexData := structure.indexData)
        decreases todo
      {
        var p :| p in todo;
        var current := structure.GetAliases(p);
        if current.Err? {
          assert p in partners && !(p in d0 && d0[p].aliases.Some?);
          return false;
        }
        assert p in d0 && structure.indexData[p] == d0[p];
        DetachedAllStep(d0, index, done, p, asMust);
        ok := DetachPartner(index, p, current.value, asMust);
        if !ok {
          assert p in partners && c0.locked;
          return false;
        }
        todo := todo - {p};
        done := done + {p};
      }
      ok := true;
    }

    /**
     * Detaches `index` from all its partners, first from its must aliases,
     * then from its may aliases; an index without aliases is left alone.
     */
    method DestroyAliases(index: MemoryIndex) returns (ok: bool)
      modifies structure
      ensures ok <==> CanDestroy(old(structure.indexData), index)
                      && (!old(structure.locked) || AliasesOf(old(structure.indexData), index).None?
                          || AliasesOf(old(structure.indexData), index).value == NoAliases)
      ensures ok ==> structure.indexData == DestroyedAliases(old(structure.indexData), index)
      ensures old(structure.locked) || AliasesOf(old(structure.indexData), index).None? ==> structure.Contents() == old(structure.Contents())
      ensures structure.Contents() == old(structure.Contents()).(indexData := structure.indexData)
    {
      var aliases := structure.TryGetAliases(index);
      if aliases.None? {
        return true;
      }
      ok := DetachPartners(index, aliases.value.must, true);
      if ok {
        ok := DetachPartners(index, aliases.value.may, false);
      }
    }

    /** Destroys the aliases of `index`, then gives it exactly the given must and may aliases. */
    method MustSetAliases(index: MemoryIndex, mustAliases: seq<MemoryIndex>, mayAliases: seq<MemoryIndex>) returns (ok: bool)
      modifies structure
      ensures ok ==> structure.indexData == WithAliases(DestroyedAliases(old(structure.indexData), index), index,
                                                        Some(MemoryAlias(Elements(mustAliases), Elements(mayAliases))))
      ensures ok ==> structure.TryGetAliases(index) == Some(MemoryAlias(Elements(mustAliases), Elements(mayAliases)))
      ensures ok ==> !old(structure.locked)
      ensures structure.Contents() == old(structure.Contents()).(indexData := structure.indexData)
    {
      ok := DestroyAliases(index);
      if !ok {
        return;
      }
      ok := structure.SetAlias(index, MemoryAlias(Elements(mustAliases), Elements(mayAliases)));
    }

    // ---- Fields and indexes ----

    /**
     * Creates the field `fieldName` of object `obj` described by
     * `descriptor`: the field is defined with an undefined entry and the
     * descriptor gains that name. An existing name is an error.
     */
    method CreateField(fieldName: string, obj: nat, descriptor: ObjectDescriptor) returns (r: Result<MemoryIndex, string>)
      modifies structure
      ensures r.Err? <==> fieldName in descriptor.fields || old(structure.locked)
      ensures r.Err? ==> structure.Contents() == old(structure.Contents())
      ensures r.Ok? ==> r.value == FieldIndex(obj, fieldName)
      ensures r.Ok? ==> structure.Contents() == old(structure.Contents()).(
        indexData := old(structure.indexData)[r.value := EmptyDefinition],
        entries := old(structure.entries)[r.value := {Values.Undefined}],
        objectDescriptors := old(structure.objectDescriptors)[obj := descriptor.(fields := descriptor.fields[fieldName := r.value])])
    {
      if fieldName in descriptor.fields {
        return Err(FieldAlreadyDefined);
      }
      var fieldIndex := FieldIndex(obj, fieldName);
      var ok := structure.NewIndex(fieldIndex);
      if !ok {
        return Err(StructureLocked);
      }
      ok := structure.SetObjectDescriptor(obj, descriptor.(fields := descriptor.fields[fieldName := fieldIndex]));
      r := Ok(fieldIndex);
    }

    /**
     * Creates the index `indexName` of array `arrayValue` described by
     * `descriptor`, as a child of the array's parent index. An existing
     * name is an error, and so is an array without a parent index.
     */
    method CreateIndex(indexName: string, arrayValue: nat, descriptor: ArrayDescriptor) returns (r: Result<MemoryIndex, string>)
      modifies structure
      ensures r.Err? <==> indexName in descriptor.indexes || descriptor.parent.None? || old(structure.locked)
      ensures r.Err? ==> structure.Contents() == old(structure.Contents())
      ensures r.Ok? ==> r.value == ChildIndex(descriptor.parent.value, indexName)
      ensures r.Ok? ==> structure.Contents() == old(structure.Contents()).(
        indexData := old(structure.indexData)[r.value := EmptyDefinition],
        entries := old(structure.entries)[r.value := {Values.Undefined}],
        arrayDescriptors := old(structure.arrayDescriptors)[arrayValue := descriptor.(indexes := descriptor.indexes[indexName := r.value])])
    {
      if indexName in descriptor.indexes {
        return Err(IndexAlreadyDefined);
      }
      if descriptor.parent.None? {
        return Err(CSharp.NullReferenceMessage);
      }
      var newIndex := ChildIndex(descriptor.parent.value, indexName);
      var ok := structure.NewIndex(newIndex);
      if !ok {
        return Err(StructureLocked);
      }
      ok := structure.SetArrayDescriptor(arrayValue, descriptor.(indexes := descriptor.indexes[indexName := newIndex]));
      r := Ok(newIndex);
    }
  }

  /** The caller contexts of the given snapshots, in order. */
  function CallerContexts(snapshots: seq<Snapshot>): (r: seq<Snapshot?>)
    reads snapshots
    ensures |r| == |snapshots| && forall i :: 0 <= i < |snapshots| ==> r[i] == snapshots[i].callerContext
  {
    if |snapshots| == 0 then [] else CallerContexts(snapshots[..|snapshots| - 1]) + [snapshots[|snapshots| - 1].callerContext]
  }

  /** A set with exactly one element is a singleton. */
  lemma SingletonSet<T>(s: set<T>)
    requires |s| == 1
    ensures exists x :: s == {x}
  {
    var x :| x in s;
    assert |s - {x}| == 0;
    assert s - {x} == {};
    assert s == {x};
  }
}
