/**
 * The tracking merge of the modular copy memory model: finding the common
 * ancestor of change-tracker chains, collecting the changes made since, and
 * turning the changed indexes into a queue of merge and delete operations.
 *
 * A change tracker records what one snapshot changed relative to its
 * predecessor. Trackers are numbered as they are created, and a tracker's
 * predecessor (and any call tracker it links to) is older, so following the
 * links always reaches a tracker with a smaller number or none at all.
 */
module TrackingMerge {
  import opened Wrappers
  import opened MemoryIndexes
  import TrackingStructure

  // The messages of the errors this module reports.
  const MissingArrayDescriptor := "Missing array descriptor"
  const ReadonlyUndefinedIndex := "Error merging structure in readonly mode - undefined index"
  const ReadonlyTargetDescriptor := "Error merging structure in readonly mode - target descriptor"
  const ReadonlyNewIndex := "Error merging structure in readonly mode - adding new index into collection"
  const DifferentCallLevels := "Current implementation of merge can only handle same stack level of source snapshots."

  /** How a tracker is connected to its predecessor; only two kinds steer the merge. */
  datatype Connection = CallExtend | SubprogramMerge | OtherConnection

  class ChangeTracker {
    const id: nat
    const previous: ChangeTracker?
    const callLevel: int
    const connection: Connection
    const indexChanges: set<MemoryIndex>
    const functionChanges: Option<set<string>>
    const classChanges: Option<set<string>>
    /** The trackers a subprogram merge links to, by the identity of the calling snapshot. */
    const callTrackers: map<nat, ChangeTracker>

    constructor (id: nat, previous: ChangeTracker?, callLevel: int, connection: Connection,
                 indexChanges: set<MemoryIndex>, functionChanges: Option<set<string>>,
                 classChanges: Option<set<string>>, callTrackers: map<nat, ChangeTracker>)
      ensures this.id == id && this.previous == previous && this.callLevel == callLevel
      ensures this.connection == connection && this.indexChanges == indexChanges
      ensures this.functionChanges == functionChanges && this.classChanges == classChanges
      ensures this.callTrackers == callTrackers
    {
      this.id := id;
      this.previous := previous;
      this.callLevel := callLevel;
      this.connection := connection;
      this.indexChanges := indexChanges;
      this.functionChanges := functionChanges;
      this.classChanges := classChanges;
      this.callTrackers := callTrackers;
    }
  }

  /** A measure on trackers: no tracker ranks 0, and a tracker ranks above every older one. */
  function Rank(t: ChangeTracker?): nat {
    if t == null then 0 else t.id + 1
  }

  /** Along `previous`, the numbers strictly decrease. */
  predicate Ordered(t: ChangeTracker?)
    decreases Rank(t)
  {
    t == null || (Rank(t.previous) < Rank(t) && Ordered(t.previous))
  }

  /** The trackers reachable from `t` along `previous`, `t` included. */
  function Chain(t: ChangeTracker?): (r: set<ChangeTracker?>)
    requires Ordered(t)
    ensures null !in r
    decreases Rank(t)
  {
    if t == null then {} else {t} + Chain(t.previous)
  }

  lemma {:induction false} ChainRank(x: ChangeTracker?, t: ChangeTracker?)
    requires Ordered(t) && x in Chain(t)
    ensures x != null && Rank(x) <= Rank(t)
    ensures x != t ==> Rank(x) < Rank(t)
    decreases Rank(t)
  {
    if x != t {
      ChainRank(x, t.previous);
    }
  }

  /** The index changes recorded by a set of trackers. */
  ghost function IndexUnion(ts: set<ChangeTracker?>): set<MemoryIndex> {
    set t, i | t in ts && t != null && i in t.indexChanges :: i
  }

  ghost function FunctionUnion(ts: set<ChangeTracker?>): set<string> {
    set t, n | t in ts && t != null && t.functionChanges.Some? && n in t.functionChanges.value :: n
  }

  ghost function ClassUnion(ts: set<ChangeTracker?>): set<string> {
    set t, n | t in ts && t != null && t.classChanges.Some? && n in t.classChanges.value :: n
  }

  function Given(s: Option<set<string>>): set<string> {
    if s.Some? then s.value else {}
  }

  lemma UnionsStep(ts: set<ChangeTracker?>, t: ChangeTracker)
    ensures IndexUnion(ts + {t}) == IndexUnion(ts) + t.indexChanges
    ensures FunctionUnion(ts + {t}) == FunctionUnion(ts) + Given(t.functionChanges)
    ensures ClassUnion(ts + {t}) == ClassUnion(ts) + Given(t.classChanges)
  {
  }

  /** `changes`, `functions` and `classes` are what the trackers of `ts` record. */
  ghost predicate Unions(ts: set<ChangeTracker?>, changes: set<MemoryIndex>, functions: set<string>, classes: set<string>) {
    changes == IndexUnion(ts) && functions == FunctionUnion(ts) && classes == ClassUnion(ts)
  }

  lemma UnionsKept(ts: set<ChangeTracker?>, changes: set<MemoryIndex>, functions: set<string>, classes: set<string>, t: ChangeTracker)
    requires Unions(ts, changes, functions, classes)
    ensures Unions(ts + {t}, changes + t.indexChanges, functions + Given(t.functionChanges), classes + Given(t.classChanges))
  {
    UnionsStep(ts, t);
  }

  /**
   * The trackers of the first chain newer than the start of the second
   * one: the walk passes them before it first swaps the two chains.
   */
  ghost function Early(a: ChangeTracker?, b: ChangeTracker?): set<ChangeTracker?>
    requires Ordered(a)
  {
    set t | t in Chain(a) && Rank(t) >= Rank(b)
  }

  /**
   * The collected changes of a merge: the whole change tree, the changed
   * functions and classes, and one change tree per source snapshot.
   */
  datatype Collected = Collected(changeTree: set<MemoryIndex>, functionChanges: set<string>,
                                 classChanges: set<string>, changes: seq<set<MemoryIndex>>, queue: seq<Operation>)

  class TrackingMergeWorker {
    var changeTree: set<MemoryIndex>
    var functionChanges: set<string>
    var classChanges: set<string>
    var changes: seq<set<MemoryIndex>>
    /** The operations still to be processed, first in front. */
    var queue: seq<Operation>
    /** The structure the merge builds; a data-only merge may not write it. */
    const target: TrackingStructure.TrackingStructureContainer
    const isStructureWriteable: bool

    constructor (target: TrackingStructure.TrackingStructureContainer, isStructureWriteable: bool)
      ensures changeTree == {} && functionChanges == {} && classChanges == {} && changes == [] && queue == []
      ensures this.target == target && this.isStructureWriteable == isStructureWriteable
    {
      changeTree := {};
      functionChanges := {};
      classChanges := {};
      changes := [];
      queue := [];
      this.target := target;
      this.isStructureWriteable := isStructureWriteable;
    }

    /** Appends the change tree of one more source. */
    method AddSourceTree()
      modifies this
      ensures Contents() == old(Contents()).(changes := old(changes) + [{}])
    {
      changes := changes + [{}];
    }

    /** Adds `delta` to every per-source change tree. */
    method AddToAllTrees(delta: set<MemoryIndex>)
      modifies this
      ensures |changes| == |old(changes)|
      ensures forall k :: 0 <= k < |changes| ==> changes[k] == old(changes[k]) + delta
      ensures changeTree == old(changeTree) && functionChanges == old(functionChanges) && classChanges == old(classChanges)
      ensures queue == old(queue)
    {
      var k := 0;
      while k < |changes|
        invariant 0 <= k <= |changes| == |old(changes)|
        invariant forall j :: 0 <= j < k ==> changes[j] == old(changes[j]) + delta
        invariant forall j :: k <= j < |changes| ==> changes[j] == old(changes[j])
        invariant changeTree == old(changeTree) && functionChanges == old(functionChanges) && classChanges == old(classChanges)
        invariant queue == old(queue)
      {
        changes := changes[k := changes[k] + delta];
        k := k + 1;
      }
    }

    /** Adds the changes of one tracker to the collected changes; `toAll` adds its index changes to every source's tree. */
    method Collect(t: ChangeTracker, current: nat, toAll: bool)
      requires current < |changes|
      modifies this
      ensures changeTree == old(changeTree) + t.indexChanges
      ensures functionChanges == old(functionChanges) + Given(t.functionChanges)
      ensures classChanges == old(classChanges) + Given(t.classChanges)
      ensures |changes| == |old(changes)|
      ensures changes[current] == old(changes[current]) + t.indexChanges
      ensures forall k :: 0 <= k < |changes| && k != current ==>
        changes[k] == old(changes[k]) + (if toAll then t.indexChanges else {})
      ensures queue == old(queue)
    {
      changes := changes[current := changes[current] + t.indexChanges];
      changeTree := changeTree + t.indexChanges;
      functionChanges := functionChanges + Given(t.functionChanges);
      classChanges := classChanges + Given(t.classChanges);
      if toAll {
        AddToAllTrees(t.indexChanges);
      }
    }

    /** The collected changes. */
    function Contents(): Collected
      reads this
    {
      Collected(changeTree, functionChanges, classChanges, changes, queue)
    }

    /**
     * The collected changes are those of `start` plus `indexes`,
     * `functions` and `classes`; the trees of sources other than
     * `current` gained only `late`.
     */
    predicate Gained(start: Collected, current: nat, indexes: set<MemoryIndex>, functions: set<string>,
                     classes: set<string>, late: set<MemoryIndex>)
      reads this
    {
      && changeTree == start.changeTree + indexes
      && functionChanges == start.functionChanges + functions
      && classChanges == start.classChanges + classes
      && |changes| == |start.changes| && current < |changes|
      && changes[current] == start.changes[current] + indexes
      && (forall k :: 0 <= k < |changes| && k != current ==> changes[k] == start.changes[k] + late)
      && queue == start.queue
    }

    /**
     * One step of the common-ancestor walk: swaps the trackers when the
     * first is older (or absent), then collects the changes of the first
     * one and steps back from it.
     */
    method StepOver(ghost start: Collected, ghost a: ChangeTracker?, ghost b: ChangeTracker?,
                    x: ChangeTracker?, y: ChangeTracker?, swapped: bool, current: nat,
                    ghost done: set<ChangeTracker?>, ghost late: set<ChangeTracker?>,
                    ghost indexes: set<MemoryIndex>, ghost functions: set<string>, ghost classes: set<string>,
                    ghost lateIndexes: set<MemoryIndex>)
      returns (x': ChangeTracker?, y': ChangeTracker?, swapped': bool,
               ghost done': set<ChangeTracker?>, ghost late': set<ChangeTracker?>,
               ghost indexes': set<MemoryIndex>, ghost functions': set<string>, ghost classes': set<string>,
               ghost lateIndexes': set<MemoryIndex>)
      requires Walk(a, b, x, y, swapped, done, late) && x != y
      requires Unions(done, indexes, functions, classes) && lateIndexes == IndexUnion(late)
      requires Gained(start, current, indexes, functions, classes, lateIndexes)
      modifies this
      ensures Rank(x') + Rank(y') < Rank(x) + Rank(y)
      ensures Walk(a, b, x', y', swapped', done', late')
      ensures Unions(done', indexes', functions', classes') && lateIndexes' == IndexUnion(late')
      ensures Gained(start, current, indexes', functions', classes', lateIndexes')
    {
      x', y', swapped' := x, y, swapped;
      if x' == null || (y' != null && x'.id < y'.id) {
        SwapKeepsWalk(a, b, x', y', swapped', done, late);
        x', y' := y', x';
        swapped' := true;
      }
      StepKeepsWalk(a, b, x', y', swapped', done, late);
      UnionsKept(done, indexes, functions, classes, x');
      done' := done + {x'};
      indexes', functions', classes' := indexes + x'.indexChanges, functions + Given(x'.functionChanges), classes + Given(x'.classChanges);
      if swapped' {
        UnionsStep(late, x');
        late', lateIndexes' := late + {x'}, lateIndexes + x'.indexChanges;
      } else {
        late', lateIndexes' := late, lateIndexes;
      }
      CollectGained(start, x', current, swapped', indexes, functions, classes, lateIndexes);
      x' := x'.previous;
    }

    /** `Collect`, stated in terms of what the collected changes gained since `start`. */
    method CollectGained(ghost start: Collected, t: ChangeTracker, current: nat, toAll: bool,
                         ghost indexes: set<MemoryIndex>, ghost functions: set<string>, ghost classes: set<string>,
                         ghost late: set<MemoryIndex>)
      requires Gained(start, current, indexes, functions, classes, late)
      modifies this
      ensures Gained(start, current, indexes + t.indexChanges, functions + Given(t.functionChanges),
                     classes + Given(t.classChanges), if toAll then late + t.indexChanges else late)
    {
      Collect(t, current, toAll);
    }

    /**
     * Steps back along whichever of the two trackers is newer until both
     * coincide. The chain of the result is exactly the set of trackers the
     * two chains share. Every tracker stepped over adds its changes to the
     * change tree, to the declaration changes and to the current source's
     * tree `changes[current]`; once the walk has swapped the chains, the
     * index changes also go to every source's tree.
     */
    method GetFirstCommonAncestor(a: ChangeTracker?, b: ChangeTracker?, current: nat) returns (r: ChangeTracker?)
      requires Ordered(a) && Ordered(b) && current < |changes|
      modifies this
      ensures Ordered(r) && Chain(r) == Chain(a) * Chain(b)
      ensures var stepped := (Chain(a) + Chain(b)) - Chain(r);
        && changeTree == old(changeTree) + IndexUnion(stepped)
        && functionChanges == old(functionChanges) + FunctionUnion(stepped)
        && classChanges == old(classChanges) + ClassUnion(stepped)
        && |changes| == |old(changes)|
        && changes[current] == old(changes[current]) + IndexUnion(stepped)
        && (forall k :: 0 <= k < |changes| && k != current ==>
             changes[k] == old(changes[k]) + IndexUnion(stepped - Early(a, b)))
        && queue == old(queue)
    {
      ghost var start := Contents();
      var trackerA, trackerB := a, b;
      var swapped := false;
      ghost var done: set<ChangeTracker?> := {};
      ghost var late: set<ChangeTracker?> := {};
      ghost var indexes, functions, classes, lateIndexes := {}, {}, {}, {};
      while trackerA != trackerB
        invariant Walk(a, b, trackerA, trackerB, swapped, done, late)
        invariant Unions(done, indexes, functions, classes) && lateIndexes == IndexUnion(late)
        invariant Gained(start, current, indexes, functions, classes, lateIndexes)
        decreases Rank(trackerA) + Rank(trackerB)
      {
        trackerA, trackerB, swapped, done, late, indexes, functions, classes, lateIndexes :=
          StepOver(start, a, b, trackerA, trackerB, swapped, current, done, late, indexes, functions, classes, lateIndexes);
      }
      WalkEnd(a, b, trackerA, swapped, done, late);
      r := trackerA;
    }

    /**
     * Collects the changes made by one function body: walks back from
     * `tracker` while the trackers stay at its call level. A subprogram
     * merge is not collected and leads on to its call tracker for
     * `callSnapshot`, if it has one; any other tracker is collected, and a
     * call extension ends the walk.
     */
    method CollectSingleFunctionChanges(callSnapshot: nat, tracker: ChangeTracker, current: nat)
      requires Linked(tracker, callSnapshot) && current < |changes|
      modifies this
      ensures var walked := FunctionWalk(tracker, callSnapshot, tracker.callLevel);
        Gained(old(Contents()), current, IndexUnion(walked), FunctionUnion(walked), ClassUnion(walked), {})
    {
      ghost var start := Contents();
      var level := tracker.callLevel;
      var t: ChangeTracker? := tracker;
      var finished := false;
      ghost var done: set<ChangeTracker?> := {};
      ghost var indexes, functions, classes := {}, {}, {};
      while !finished && t != null && t.callLevel == level
        invariant Linked(t, callSnapshot)
        invariant FunctionWalk(tracker, callSnapshot, level) == done + (if finished then {} else FunctionWalk(t, callSnapshot, level))
        invariant Unions(done, indexes, functions, classes)
        invariant Gained(start, current, indexes, functions, classes, {})
        decreases Rank(t)
      {
        if t.connection != SubprogramMerge {
          finished := t.connection == CallExtend;
          UnionsKept(done, indexes, functions, classes, t);
          CollectGained(start, t, current, false, indexes, functions, classes, {});
          done := done + {t};
          indexes, functions, classes := indexes + t.indexChanges, functions + Given(t.functionChanges), classes + Given(t.classChanges);
          t := t.previous;
        } else if callSnapshot in t.callTrackers {
          t := t.callTrackers[callSnapshot];
        } else {
          t := t.previous;
        }
      }
    }

    /**
     * Enqueues the operations for the changed children of `node`: each
     * child gets the operation `ChildOperation` plans and the container is
     * edited as `ChildContainer` says, child by child; then, if the
     * unknown child changed, one operation merges the sources' unknown
     * indexes into the target's. `createIndexes` is whether the merge may
     * create target indexes.
     */
    method CreateAndEnqueueOperations(container: TargetContainer, node: TreeNode, containers: seq<SourceContainer>,
                                      alwaysDefined: bool, createIndexes: bool)
      modifies this, container
      ensures queue == old(queue)
        + PlannedOperations(node.children, containers, old(container.indexes), container.owner, createIndexes, alwaysDefined)
        + UnknownOperation(node, containers, container.unknown)
      ensures container.indexes == PlannedContainer(node.children, containers, old(container.indexes), container.owner, createIndexes)
      ensures Contents() == old(Contents()).(queue := queue)
    {
      EnqueueChildren(container, node.children, containers, alwaysDefined, createIndexes);
      EnqueueUnknown(container, node, containers);
    }

    /** The operations for the changed named children, one child after another. */
    method EnqueueChildren(container: TargetContainer, children: seq<ChildNode>, containers: seq<SourceContainer>,
                           alwaysDefined: bool, createIndexes: bool)
      modifies this, container
      ensures queue == old(queue)
        + PlannedOperations(children, containers, old(container.indexes), container.owner, createIndexes, alwaysDefined)
      ensures container.indexes == PlannedContainer(children, containers, old(container.indexes), container.owner, createIndexes)
      ensures Contents() == old(Contents()).(queue := queue)
    {
      ghost var planned := PlannedOperations(children, containers, container.indexes, container.owner, createIndexes, alwaysDefined);
      ghost var final := PlannedContainer(children, containers, container.indexes, container.owner, createIndexes);
      var i := 0;
      while i < |children|
        invariant 0 <= i <= |children|
        invariant queue + PlannedOperations(children[i..], containers, container.indexes, container.owner, createIndexes, alwaysDefined)
                  == old(queue) + planned
        invariant PlannedContainer(children[i..], containers, container.indexes, container.owner, createIndexes) == final
        invariant Contents() == old(Contents()).(queue := queue)
      {
        EnqueueStep(container, children, i, containers, alwaysDefined, createIndexes);
        i := i + 1;
      }
    }

    /** `EnqueueChild` for child `i`, stated in terms of the plan for the children from `i` on. */
    method EnqueueStep(container: TargetContainer, children: seq<ChildNode>, i: nat, containers: seq<SourceContainer>,
                       alwaysDefined: bool, createIndexes: bool)
      requires i < |children|
      modifies this, container
      ensures queue + PlannedOperations(children[i + 1..], containers, container.indexes, container.owner, createIndexes, alwaysDefined)
              == old(queue) + PlannedOperations(children[i..], containers, old(container.indexes), container.owner, createIndexes, alwaysDefined)
      ensures PlannedContainer(children[i + 1..], containers, container.indexes, container.owner, createIndexes)
              == PlannedContainer(children[i..], containers, old(container.indexes), container.owner, createIndexes)
      ensures Contents() == old(Contents()).(queue := queue)
    {
      PlannedUnfold(children, i, containers, container.indexes, container.owner, createIndexes, alwaysDefined);
      EnqueueChild(container, children[i], containers, alwaysDefined, createIndexes);
    }

    /** The operation for the unknown child, when it changed; its sources are the sources' unknown indexes. */
    method EnqueueUnknown(container: TargetContainer, node: TreeNode, containers: seq<SourceContainer>)
      modifies this
      ensures queue == old(queue) + UnknownOperation(node, containers, container.unknown)
      ensures Contents() == old(Contents()).(queue := queue)
    {
      if node.any.Some? {
        var sources: seq<OperationSource> := [];
        for k := 0 to |containers|
          invariant sources == UnknownSources(containers[..k])
        {
          sources := sources + [OperationSource(containers[k].unknown, containers[k].context, false)];
          assert containers[..k + 1][..k] == containers[..k];
        }
        assert containers[..|containers|] == containers;
        queue := queue + [Operation(container.unknown, sources, true, false, node.any)];
      }
    }

    /** The step of `CreateAndEnqueueOperations` for one child. */
    method EnqueueChild(container: TargetContainer, child: ChildNode, containers: seq<SourceContainer>,
                        alwaysDefined: bool, createIndexes: bool)
      modifies this, container
      ensures var op := ChildOperation(child, containers, old(container.indexes), container.owner, createIndexes, alwaysDefined);
        queue == old(queue) + (if op.Some? then [op.value] else [])
      ensures container.indexes == ChildContainer(child, containers, old(container.indexes), container.owner, createIndexes)
      ensures Contents() == old(Contents()).(queue := queue)
    {
      var sources, undefined, defined := CollectIndexes(child.name, containers);
      if defined {
        if child.name in container.indexes {
          queue := queue + [Operation(container.indexes[child.name], sources, undefined || !alwaysDefined, false, Some(child.node))];
        } else if createIndexes {
          var targetIndex := ChildIndex(container.owner, child.name);
          container.indexes := container.indexes[child.name := targetIndex];
          queue := queue + [Operation(targetIndex, sources, undefined || !alwaysDefined, false, Some(child.node))];
        }
      } else if child.name in container.indexes {
        queue := queue + [Operation(container.indexes[child.name], sources, undefined, true, Some(child.node))];
        container.indexes := container.indexes - {child.name};
      }
    }

    /**
     * Processes a delete operation: when the target index holds an array,
     * enqueues a delete operation for every child index of the array, then
     * one for its unknown index, marked undefined. An array without a
     * descriptor is an error; an undefined index needs nothing.
     */
    method ProcessDeleteOperation(op: Operation) returns (ok: bool)
      modifies this
      ensures ok <==> !HoldsArray(target.indexDefinitions, op.target)
                      || target.indexDefinitions[op.target].arrayValue.value in target.arrayDescriptors
      ensures !ok || !HoldsArray(target.indexDefinitions, op.target) ==> Contents() == old(Contents())
      ensures ok && HoldsArray(target.indexDefinitions, op.target) ==>
        var d := target.arrayDescriptors[target.indexDefinitions[op.target].arrayValue.value];
        && |queue| == |old(queue)| + |d.indexes| + 1
        && queue[..|old(queue)|] == old(queue)
        && queue[|queue| - 1] == DeleteOperation(d.unknown, true)
        && Ops(queue[|old(queue)|..|queue| - 1]) == ChildDeletes(d, d.indexes.Keys)
        && Contents() == old(Contents()).(queue := queue)
    {
      if !HoldsArray(target.indexDefinitions, op.target) {
        return true;
      }
      var arrayValue := target.indexDefinitions[op.target].arrayValue.value;
      if arrayValue !in target.arrayDescriptors {
        return false;
      }
      var d := target.arrayDescriptors[arrayValue];
      ghost var added := EnqueueChildDeletes(d);
      queue := queue + [DeleteOperation(d.unknown, true)];
      assert queue[|old(queue)|..|queue| - 1] == added;
      ok := true;
    }

    /** Enqueues a delete operation for every child index of the array `d` describes. */
    method EnqueueChildDeletes(d: ArrayDescriptor) returns (ghost added: seq<Operation>)
      modifies this
      ensures queue == old(queue) + added && |added| == |d.indexes|
      ensures Ops(added) == ChildDeletes(d, d.indexes.Keys)
      ensures Contents() == old(Contents()).(queue := queue)
    {
      var deletes := ChildDeleteOperations(d);
      queue := queue + deletes;
      added := deletes;
    }

    /**
     * The part of processing a merge operation that concerns the target
     * index itself: a target index that is not defined is created, which
     * in a read-only merge is an error; an array in some source needs a
     * target array descriptor, which a read-only merge cannot create
     * either. `sourceArrays` are the arrays of the sources' indexes.
     */
    method ProcessMergeOperation(op: Operation, sourceArrays: seq<Option<nat>>) returns (r: Result<ArrayMerge, string>)
      requires |sourceArrays| == |op.sources|
      modifies target
      ensures old(target.IsDefined(op.target)) ==> target.Contents() == old(target.Contents())
      ensures !old(target.IsDefined(op.target)) && !isStructureWriteable ==> r.Err? && target.Contents() == old(target.Contents())
      ensures !old(target.IsDefined(op.target)) && isStructureWriteable ==> target.Contents() == old(target.Contents()).(
        defs := old(target.indexDefinitions)[op.target := EmptyDefinition],
        changes := old(target.changes) + [TrackingStructure.InsertedIndex(op.target)])
      ensures var held := HoldsArray(old(target.indexDefinitions), op.target);
        var targetArray := if held then old(target.indexDefinitions)[op.target].arrayValue else None;
        var containsArray := exists k :: 0 <= k < |sourceArrays| && sourceArrays[k].Some?;
        r.Err? <==> (!old(target.IsDefined(op.target)) && !isStructureWriteable)
                    || (held && targetArray.value !in old(target.arrayDescriptors))
                    || (containsArray && !held && !isStructureWriteable)
      ensures r.Ok? ==> (r.value.containsArray <==> exists k :: 0 <= k < |sourceArrays| && sourceArrays[k].Some?)
      ensures r.Ok? ==> (r.value.alwaysDefined <==> !op.isUndefined && forall k :: 0 <= k < |sourceArrays| ==> sourceArrays[k].Some?)
      ensures r.Ok? && HoldsArray(old(target.indexDefinitions), op.target) ==>
        r.value.targetArray == old(target.indexDefinitions)[op.target].arrayValue
        && r.value.descriptor == Some(old(target.arrayDescriptors)[r.value.targetArray.value])
      ensures r.Ok? && !HoldsArray(old(target.indexDefinitions), op.target) ==>
        r.value.descriptor.None? && (r.value.containsArray ==> isStructureWriteable)
        && (r.value.targetArray.Some? ==> exists k :: 0 <= k < |sourceArrays| && sourceArrays[k] == r.value.targetArray && op.sources[k].index == op.target)
    {
      var containsArray, alwaysDefined, targetArray := MergedArraySources(op, sourceArrays);
      var descriptor: Option<ArrayDescriptor> := None;
      if target.IsDefined(op.target) {
        var arrayValue := target.indexDefinitions[op.target].arrayValue;
        if arrayValue.Some? {
          if arrayValue.value !in target.arrayDescriptors {
            return Err(MissingArrayDescriptor);
          }
          targetArray := arrayValue;
          descriptor := Some(target.arrayDescriptors[arrayValue.value]);
        }
      } else if isStructureWriteable {
        target.NewIndex(op.target);
      } else {
        return Err(ReadonlyUndefinedIndex);
      }
      if containsArray && descriptor.None? && !isStructureWriteable {
        return Err(ReadonlyTargetDescriptor);
      }
      r := Ok(ArrayMerge(containsArray, alwaysDefined, targetArray, descriptor));
    }
  }


  /**
   * The state of the common-ancestor walk from `a` and `b` at trackers `x`
   * and `y`: the trackers stepped over so far (`done`), those stepped over
   * after the first swap (`late`), and what the two chains still share.
   */
  ghost predicate Walk(a: ChangeTracker?, b: ChangeTracker?, x: ChangeTracker?, y: ChangeTracker?,
                       swapped: bool, done: set<ChangeTracker?>, late: set<ChangeTracker?>)
  {
    && Ordered(a) && Ordered(b) && Ordered(x) && Ordered(y)
    && Chain(x) * Chain(y) == Chain(a) * Chain(b)
    && done * (Chain(x) + Chain(y)) == {}
    && done + Chain(x) + Chain(y) == Chain(a) + Chain(b)
    && (!swapped ==> y == b && late == {} && Chain(x) <= Chain(a) && done == Chain(a) - Chain(x))
    && (!swapped ==> forall t :: t in done ==> Rank(t) >= Rank(b))
    && (swapped ==> Early(a, b) <= done && late == done - Early(a, b))
  }

  lemma SwapKeepsWalk(a: ChangeTracker?, b: ChangeTracker?, x: ChangeTracker?, y: ChangeTracker?,
                      swapped: bool, done: set<ChangeTracker?>, late: set<ChangeTracker?>)
    requires Walk(a, b, x, y, swapped, done, late) && x != y
    requires x == null || (y != null && x.id < y.id)
    ensures Walk(a, b, y, x, true, done, late)
  {
    if !swapped {
      FirstSwap(a, b, x, done);
    }
  }

  lemma StepKeepsWalk(a: ChangeTracker?, b: ChangeTracker?, x: ChangeTracker?, y: ChangeTracker?,
                      swapped: bool, done: set<ChangeTracker?>, late: set<ChangeTracker?>)
    requires Walk(a, b, x, y, swapped, done, late) && x != y && x != null
    requires y == null || x.id >= y.id
    ensures Rank(x.previous) < Rank(x)
    ensures Walk(a, b, x.previous, y, swapped, done + {x}, if swapped then late + {x} else late)
  {
    StepLeavesShared(x, y);
    if !swapped {
      assert Chain(a) - Chain(x.previous) == (Chain(a) - Chain(x)) + {x};
    } else {
      assert x !in Early(a, b);
    }
  }

  lemma WalkEnd(a: ChangeTracker?, b: ChangeTracker?, r: ChangeTracker?,
                swapped: bool, done: set<ChangeTracker?>, late: set<ChangeTracker?>)
    requires Walk(a, b, r, r, swapped, done, late)
    ensures Chain(r) == Chain(a) * Chain(b)
    ensures done == (Chain(a) + Chain(b)) - Chain(r)
    ensures late == done - Early(a, b)
  {
  }

  /** At the first swap, the walk has passed every tracker of the first chain newer than the second start. */
  lemma FirstSwap(a: ChangeTracker?, b: ChangeTracker?, trackerA: ChangeTracker?, done: set<ChangeTracker?>)
    requires Ordered(a) && Ordered(trackerA)
    requires done == Chain(a) - Chain(trackerA)
    requires forall t :: t in done ==> Rank(t) >= Rank(b)
    requires Rank(trackerA) < Rank(b)
    ensures Early(a, b) == done
  {
    forall t | t in Early(a, b)
      ensures t in done
    {
      if t !in done {
        ChainRank(t, trackerA);
      }
    }
  }

  /**
   * Stepping back from the newer of two distinct trackers keeps the
   * trackers they share, and the tracker stepped over is on neither
   * remaining chain.
   */
  lemma StepLeavesShared(x: ChangeTracker?, y: ChangeTracker?)
    requires Ordered(x) && Ordered(y) && x != y && x != null
    requires y == null || x.id >= y.id
    ensures x !in Chain(y) && x !in Chain(x.previous)
    ensures Chain(x) == {x} + Chain(x.previous)
    ensures Chain(x) * Chain(y) == Chain(x.previous) * Chain(y)
  {
    if x in Chain(y) {
      ChainRank(x, y);
    }
    if x in Chain(x.previous) {
      ChainRank(x, x.previous);
    }
  }

  // ---- Function bodies ----

  /**
   * Along `previous`, and along the call tracker for `s` where there is
   * one, the numbers strictly decrease.
   */
  predicate Linked(t: ChangeTracker?, s: nat)
    decreases Rank(t)
  {
    t == null ||
    (&& Rank(t.previous) < Rank(t) && Linked(t.previous, s)
     && (s in t.callTrackers ==> Rank(t.callTrackers[s]) < Rank(t) && Linked(t.callTrackers[s], s)))
  }

  /**
   * The trackers whose changes the body of a function called from snapshot
   * `s` made, walking back from `t` and staying at call level `level`.
   */
  ghost function FunctionWalk(t: ChangeTracker?, s: nat, level: int): set<ChangeTracker?>
    requires Linked(t, s)
    decreases Rank(t)
  {
    if t == null || t.callLevel != level then {}
    else if t.connection == SubprogramMerge then
      (if s in t.callTrackers then FunctionWalk(t.callTrackers[s], s, level) else FunctionWalk(t.previous, s, level))
    else if t.connection == CallExtend then {t}
    else {t} + FunctionWalk(t.previous, s, level)
  }

  /**
   * Every tracker of a function walk is at the function's call level, is
   * not a subprogram merge and is no newer than where the walk started;
   * a call extension on the walk is its oldest tracker, so the walk stops
   * there.
   */
  lemma {:induction false} FunctionWalkMembers(t: ChangeTracker?, s: nat, level: int, x: ChangeTracker?)
    requires Linked(t, s) && x in FunctionWalk(t, s, level)
    ensures x != null && x.callLevel == level && x.connection != SubprogramMerge && Rank(x) <= Rank(t)
    ensures x != null && x.connection == CallExtend ==>
      forall y :: y in FunctionWalk(t, s, level) ==> Rank(x) <= Rank(y)
    decreases Rank(t)
  {
    if t.connection == SubprogramMerge {
      if s in t.callTrackers {
        FunctionWalkMembers(t.callTrackers[s], s, level, x);
      } else {
        FunctionWalkMembers(t.previous, s, level, x);
      }
    } else if t.connection != CallExtend && x != t {
      FunctionWalkMembers(t.previous, s, level, x);
    }
  }

  // ---- Operations ----

  /** One source of an operation: an index of a source snapshot, possibly merged with its whole subtree. */
  datatype OperationSource = OperationSource(index: MemoryIndex, context: nat, wholeSubtree: bool)

  /** A node of the tree of changed indexes: its changed named children and, if it changed, the unknown child. */
  datatype TreeNode = TreeNode(children: seq<ChildNode>, any: Option<TreeNode>)
  datatype ChildNode = ChildNode(name: string, node: TreeNode)

  /** A queued merge or delete operation. */
  datatype Operation = Operation(target: MemoryIndex, sources: seq<OperationSource>, isUndefined: bool,
                                 isDelete: bool, node: Option<TreeNode>)

  function DeleteOperation(index: MemoryIndex, isUndefined: bool): Operation {
    Operation(index, [], isUndefined, true, None)
  }

  /** A container of named indexes in one source snapshot (a stack level's variables, an array, an object). */
  datatype SourceContainer = SourceContainer(context: nat, indexes: map<string, MemoryIndex>, unknown: MemoryIndex)

  /** Some source has the child. */
  predicate HasChild(name: string, containers: seq<SourceContainer>) {
    exists k :: 0 <= k < |containers| && name in containers[k].indexes
  }

  /** Some source lacks the child. */
  predicate LacksChild(name: string, containers: seq<SourceContainer>) {
    exists k :: 0 <= k < |containers| && name !in containers[k].indexes
  }

  /** What a source contributes to the operation for a child: its index, or its unknown index with the whole subtree. */
  function SourceFor(name: string, c: SourceContainer): (r: OperationSource)
    ensures r.context == c.context
    ensures r.wholeSubtree <==> name !in c.indexes
    ensures r.index == if name in c.indexes then c.indexes[name] else c.unknown
  {
    if name in c.indexes then OperationSource(c.indexes[name], c.context, false)
    else OperationSource(c.unknown, c.context, true)
  }

  /** The sources of the operation for a child, one per source container, in order. */
  function SourcesFor(name: string, containers: seq<SourceContainer>): (r: seq<OperationSource>)
    ensures |r| == |containers|
    ensures forall k :: 0 <= k < |containers| ==> r[k] == SourceFor(name, containers[k])
  {
    if containers == [] then []
    else SourcesFor(name, containers[..|containers| - 1]) + [SourceFor(name, containers[|containers| - 1])]
  }

  /** The sources of the operation for the unknown child: every source's unknown index. */
  function UnknownSources(containers: seq<SourceContainer>): (r: seq<OperationSource>)
    ensures |r| == |containers|
    ensures forall k :: 0 <= k < |containers| ==>
      r[k].index == containers[k].unknown && r[k].context == containers[k].context && !r[k].wholeSubtree
  {
    if containers == [] then []
    else var c := containers[|containers| - 1];
      UnknownSources(containers[..|containers| - 1]) + [OperationSource(c.unknown, c.context, false)]
  }

  /**
   * Collects the sources of the operation for a child; `defined` says some
   * source has the child and `undefined` that some source lacks it.
   */
  method CollectIndexes(name: string, containers: seq<SourceContainer>)
    returns (sources: seq<OperationSource>, undefined: bool, defined: bool)
    ensures sources == SourcesFor(name, containers)
    ensures defined <==> HasChild(name, containers)
    ensures undefined <==> LacksChild(name, containers)
  {
    sources, undefined, defined := [], false, false;
    for k := 0 to |containers|
      invariant sources == SourcesFor(name, containers[..k])
      invariant defined <==> HasChild(name, containers[..k])
      invariant undefined <==> LacksChild(name, containers[..k])
    {
      assert containers[..k + 1][..k] == containers[..k];
      if name in containers[k].indexes {
        sources := sources + [OperationSource(containers[k].indexes[name], containers[k].context, false)];
        defined := true;
      } else {
        sources := sources + [OperationSource(containers[k].unknown, containers[k].context, true)];
        undefined := true;
      }
      assert forall j :: 0 <= j < k + 1 ==> containers[..k + 1][j] == containers[j];
    }
    assert containers[..|containers|] == containers;
  }

  /** The indexes of a target container: its named children and its unknown index, under the index owning it. */
  class TargetContainer {
    const owner: MemoryIndex
    const unknown: MemoryIndex
    var indexes: map<string, MemoryIndex>

    constructor (owner: MemoryIndex, unknown: MemoryIndex, indexes: map<string, MemoryIndex>)
      ensures this.owner == owner && this.unknown == unknown && this.indexes == indexes
    {
      this.owner := owner;
      this.unknown := unknown;
      this.indexes := indexes;
    }
  }

  /**
   * The operation planned for one changed child. A child some source has
   * is merged into the target's index of that name, or into a new index
   * when the merge may create them; it is undefined when some source lacks
   * it or the whole container is not always defined. A child no source
   * has is deleted when the target has it, and ignored otherwise.
   */
  function ChildOperation(child: ChildNode, containers: seq<SourceContainer>, indexes: map<string, MemoryIndex>,
                          owner: MemoryIndex, createIndexes: bool, alwaysDefined: bool): (r: Option<Operation>)
    ensures r.Some? && !r.value.isDelete <==> HasChild(child.name, containers) && (child.name in indexes || createIndexes)
    ensures r.Some? && r.value.isDelete <==> !HasChild(child.name, containers) && child.name in indexes
    ensures r.Some? ==> r.value.sources == SourcesFor(child.name, containers) && r.value.node == Some(child.node)
    ensures r.Some? ==> r.value.target == if child.name in indexes then indexes[child.name] else ChildIndex(owner, child.name)
    ensures r.Some? && !r.value.isDelete ==> (r.value.isUndefined <==> !alwaysDefined || LacksChild(child.name, containers))
    ensures r.Some? && r.value.isDelete ==> (r.value.isUndefined <==> containers != [])
  {
    var sources := SourcesFor(child.name, containers);
    var undefined := LacksChild(child.name, containers);
    if HasChild(child.name, containers) then
      if child.name in indexes then
        Some(Operation(indexes[child.name], sources, undefined || !alwaysDefined, false, Some(child.node)))
      else if createIndexes then
        Some(Operation(ChildIndex(owner, child.name), sources, undefined || !alwaysDefined, false, Some(child.node)))
      else None
    else if child.name in indexes then
      assert containers != [] ==> child.name !in containers[0].indexes;
      Some(Operation(indexes[child.name], sources, undefined, true, Some(child.node)))
    else None
  }

  /** The target container's indexes after one changed child: a created index is added, a deleted one removed. */
  function ChildContainer(child: ChildNode, containers: seq<SourceContainer>, indexes: map<string, MemoryIndex>,
                          owner: MemoryIndex, createIndexes: bool): (r: map<string, MemoryIndex>)
    ensures child.name in r <==> HasChild(child.name, containers) && (child.name in indexes || createIndexes)
    ensures child.name in r ==> r[child.name] == if child.name in indexes then indexes[child.name] else ChildIndex(owner, child.name)
    ensures forall n :: n != child.name ==> (n in r <==> n in indexes) && (n in r ==> r[n] == indexes[n])
  {
    if HasChild(child.name, containers) then
      if child.name !in indexes && createIndexes then indexes[child.name := ChildIndex(owner, child.name)]
      else indexes
    else indexes - {child.name}
  }

  /** The operations planned for the changed children, in order. */
  function PlannedOperations(children: seq<ChildNode>, containers: seq<SourceContainer>, indexes: map<string, MemoryIndex>,
                             owner: MemoryIndex, createIndexes: bool, alwaysDefined: bool): seq<Operation>
    decreases |children|
  {
    if children == [] then []
    else
      var op := ChildOperation(children[0], containers, indexes, owner, createIndexes, alwaysDefined);
      (if op.Some? then [op.value] else [])
      + PlannedOperations(children[1..], containers, ChildContainer(children[0], containers, indexes, owner, createIndexes),
                          owner, createIndexes, alwaysDefined)
  }

  /** The target container's indexes after all changed children. */
  function PlannedContainer(children: seq<ChildNode>, containers: seq<SourceContainer>, indexes: map<string, MemoryIndex>,
                            owner: MemoryIndex, createIndexes: bool): map<string, MemoryIndex>
    decreases |children|
  {
    if children == [] then indexes
    else PlannedContainer(children[1..], containers, ChildContainer(children[0], containers, indexes, owner, createIndexes),
                          owner, createIndexes)
  }

  /** The plan for the children from `i` on starts with the operation for child `i`. */
  lemma PlannedUnfold(children: seq<ChildNode>, i: nat, containers: seq<SourceContainer>, indexes: map<string, MemoryIndex>,
                      owner: MemoryIndex, createIndexes: bool, alwaysDefined: bool)
    requires i < |children|
    ensures var op := ChildOperation(children[i], containers, indexes, owner, createIndexes, alwaysDefined);
      var next := ChildContainer(children[i], containers, indexes, owner, createIndexes);
      && PlannedOperations(children[i..], containers, indexes, owner, createIndexes, alwaysDefined)
         == (if op.Some? then [op.value] else []) + PlannedOperations(children[i + 1..], containers, next, owner, createIndexes, alwaysDefined)
      && PlannedContainer(children[i..], containers, indexes, owner, createIndexes)
         == PlannedContainer(children[i + 1..], containers, next, owner, createIndexes)
  {
    assert children[i..][1..] == children[i + 1..];
  }

  /** The names of the changed children. */
  function Names(children: seq<ChildNode>): set<string> {
    set j | 0 <= j < |children| :: children[j].name
  }

  /** No two changed children share a name, as in the tree's dictionary of children. */
  predicate DistinctNames(children: seq<ChildNode>) {
    forall i, j :: 0 <= i < j < |children| ==> children[i].name != children[j].name
  }

  /**
   * After all changed children, a changed child is in the target container
   * exactly when some source has it and the target had it or could create
   * it; every other name is as it was.
   */
  lemma {:induction false} PlannedContainerFacts(children: seq<ChildNode>, containers: seq<SourceContainer>,
                                                 indexes: map<string, MemoryIndex>, owner: MemoryIndex,
                                                 createIndexes: bool, name: string)
    requires DistinctNames(children)
    ensures var r := PlannedContainer(children, containers, indexes, owner, createIndexes);
      if name in Names(children) then
        && (name in r <==> HasChild(name, containers) && (name in indexes || createIndexes))
        && (name in r ==> r[name] == if name in indexes then indexes[name] else ChildIndex(owner, name))
      else
        (name in r <==> name in indexes) && (name in r ==> r[name] == indexes[name])
    decreases |children|
  {
    if children != [] {
      var rest := children[1..];
      assert Names(children) == {children[0].name} + Names(rest) by {
        forall n | n in Names(children) ensures n in {children[0].name} + Names(rest) {
          var j :| 0 <= j < |children| && children[j].name == n;
          if j > 0 { assert rest[j - 1].name == n; }
        }
        forall n | n in Names(rest) ensures n in Names(children) {
          var j :| 0 <= j < |rest| && rest[j].name == n;
          assert children[j + 1].name == n;
        }
      }
      assert DistinctNames(rest) by {
        forall i, j | 0 <= i < j < |rest| ensures rest[i].name != rest[j].name {
          assert rest[i] == children[i + 1] && rest[j] == children[j + 1];
        }
      }
      forall j | 0 <= j < |rest|
        ensures rest[j].name != children[0].name
      {
        assert rest[j] == children[j + 1];
      }
      PlannedContainerFacts(rest, containers, ChildContainer(children[0], containers, indexes, owner, createIndexes),
                            owner, createIndexes, name);
    }
  }

  /** The operation planned for the unknown child, if it changed; it is always undefined. */
  function UnknownOperation(node: TreeNode, containers: seq<SourceContainer>, unknown: MemoryIndex): (r: seq<Operation>)
    ensures |r| == if node.any.Some? then 1 else 0
    ensures r != [] ==> && r[0].target == unknown && r[0].isUndefined && !r[0].isDelete && r[0].node == node.any
                        && r[0].sources == UnknownSources(containers)
  {
    if node.any.Some? then [Operation(unknown, UnknownSources(containers), true, false, node.any)] else []
  }

  /**
   * The operation the older merge plans for one changed child: no child is
   * ever deleted, and a child the target lacks is created or, in a
   * read-only merge, is an error.
   */
  function OlderChildOperation(child: ChildNode, containers: seq<SourceContainer>, indexes: map<string, MemoryIndex>,
                               owner: MemoryIndex, writeable: bool, alwaysDefined: bool): (r: Result<Option<Operation>, string>)
    ensures r.Err? <==> HasChild(child.name, containers) && child.name !in indexes && !writeable
    ensures r.Ok? ==> (r.value.Some? <==> HasChild(child.name, containers))
    ensures r.Ok? && r.value.Some? ==> !r.value.value.isDelete
  {
    var operation := (target: MemoryIndex) =>
      Operation(target, SourcesFor(child.name, containers), LacksChild(child.name, containers) || !alwaysDefined, false, Some(child.node));
    if !HasChild(child.name, containers) then Ok(None)
    else if child.name in indexes then Ok(Some(operation(indexes[child.name])))
    else if writeable then Ok(Some(operation(ChildIndex(owner, child.name))))
    else Err(ReadonlyNewIndex)
  }

  /** Where the older step succeeds on a child some source has, it plans what the newer step plans when it may create indexes. */
  lemma OlderAgreesWithNewer(child: ChildNode, containers: seq<SourceContainer>, indexes: map<string, MemoryIndex>,
                             owner: MemoryIndex, writeable: bool, alwaysDefined: bool)
    requires HasChild(child.name, containers)
    ensures var r := OlderChildOperation(child, containers, indexes, owner, writeable, alwaysDefined);
      r.Ok? ==> r.value == ChildOperation(child, containers, indexes, owner, true, alwaysDefined)
  {
  }

  /** The target container's indexes after the older step for one child. */
  function OlderNext(child: ChildNode, indexes: map<string, MemoryIndex>, owner: MemoryIndex, op: Option<Operation>): map<string, MemoryIndex> {
    if op.Some? && child.name !in indexes then indexes[child.name := ChildIndex(owner, child.name)] else indexes
  }

  /** The operations the older merge plans for the changed children; the first error ends them. */
  function OlderPlannedOperations(children: seq<ChildNode>, containers: seq<SourceContainer>, indexes: map<string, MemoryIndex>,
                                  owner: MemoryIndex, writeable: bool, alwaysDefined: bool): Result<seq<Operation>, string>
    decreases |children|
  {
    if children == [] then Ok([])
    else
      var step := OlderChildOperation(children[0], containers, indexes, owner, writeable, alwaysDefined);
      if step.Err? then Err(step.error)
      else
        var rest := OlderPlannedOperations(children[1..], containers, OlderNext(children[0], indexes, owner, step.value),
                                           owner, writeable, alwaysDefined);
        if rest.Err? then rest
        else Ok((if step.value.Some? then [step.value.value] else []) + rest.value)
  }

  predicate NoDeletes(ops: seq<Operation>) {
    forall k :: 0 <= k < |ops| ==> !ops[k].isDelete
  }

  lemma NoDeletesConcat(a: seq<Operation>, b: seq<Operation>)
    requires NoDeletes(a) && NoDeletes(b)
    ensures NoDeletes(a + b)
  {
    forall k | 0 <= k < |a + b|
      ensures !(a + b)[k].isDelete
    {
      if k >= |a| {
        assert (a + b)[k] == b[k - |a|];
      }
    }
  }

  /** The older merge never plans a delete operation. */
  lemma {:induction false} OlderNeverDeletes(children: seq<ChildNode>, containers: seq<SourceContainer>,
                                             indexes: map<string, MemoryIndex>, owner: MemoryIndex,
                                             writeable: bool, alwaysDefined: bool)
    ensures var r := OlderPlannedOperations(children, containers, indexes, owner, writeable, alwaysDefined);
      r.Ok? ==> NoDeletes(r.value)
    decreases |children|
  {
    if children != [] {
      var op := OlderChildOperation(children[0], containers, indexes, owner, writeable, alwaysDefined);
      if op.Ok? {
        var rest := OlderPlannedOperations(children[1..], containers, OlderNext(children[0], indexes, owner, op.value),
                                           owner, writeable, alwaysDefined);
        OlderNeverDeletes(children[1..], containers, OlderNext(children[0], indexes, owner, op.value), owner, writeable, alwaysDefined);
        if rest.Ok? {
          var prefix := if op.value.Some? then [op.value.value] else [];
          NoDeletesConcat(prefix, rest.value);
          assert OlderPlannedOperations(children, containers, indexes, owner, writeable, alwaysDefined) == Ok(prefix + rest.value);
        }
      }
    }
  }

  /** A writeable older merge never fails. */
  lemma {:induction false} OlderWriteableSucceeds(children: seq<ChildNode>, containers: seq<SourceContainer>,
                                                  indexes: map<string, MemoryIndex>, owner: MemoryIndex, alwaysDefined: bool)
    ensures OlderPlannedOperations(children, containers, indexes, owner, true, alwaysDefined).Ok?
    decreases |children|
  {
    if children != [] {
      var op := OlderChildOperation(children[0], containers, indexes, owner, true, alwaysDefined);
      OlderWriteableSucceeds(children[1..], containers, OlderNext(children[0], indexes, owner, op.value), owner, alwaysDefined);
    }
  }

  /** A child some source has but the target lacks. */
  predicate NeedsNewIndex(children: seq<ChildNode>, containers: seq<SourceContainer>, indexes: map<string, MemoryIndex>) {
    exists j :: 0 <= j < |children| && HasChild(children[j].name, containers) && children[j].name !in indexes
  }

  /** A read-only older merge fails exactly when some changed child that a source has is missing from the target. */
  lemma {:induction false} OlderReadonlyFails(children: seq<ChildNode>, containers: seq<SourceContainer>,
                                              indexes: map<string, MemoryIndex>, owner: MemoryIndex, alwaysDefined: bool)
    ensures OlderPlannedOperations(children, containers, indexes, owner, false, alwaysDefined).Err?
            <==> NeedsNewIndex(children, containers, indexes)
    decreases |children|
  {
    if children != [] {
      var rest := children[1..];
      OlderReadonlyFails(rest, containers, indexes, owner, alwaysDefined);
      var op := OlderChildOperation(children[0], containers, indexes, owner, false, alwaysDefined);
      NeedsNewIndexFirst(children, containers, indexes);
      if op.Ok? {
        assert OlderNext(children[0], indexes, owner, op.value) == indexes;
      }
    }
  }

  lemma NeedsNewIndexFirst(children: seq<ChildNode>, containers: seq<SourceContainer>, indexes: map<string, MemoryIndex>)
    requires children != []
    ensures NeedsNewIndex(children, containers, indexes)
            <==> (HasChild(children[0].name, containers) && children[0].name !in indexes)
                 || NeedsNewIndex(children[1..], containers, indexes)
  {
    var rest := children[1..];
    if NeedsNewIndex(children, containers, indexes) {
      var j :| 0 <= j < |children| && HasChild(children[j].name, containers) && children[j].name !in indexes;
      if j > 0 {
        assert rest[j - 1] == children[j];
      }
    }
    if NeedsNewIndex(rest, containers, indexes) {
      var j :| 0 <= j < |rest| && HasChild(rest[j].name, containers) && rest[j].name !in indexes;
      assert children[j + 1] == rest[j];
    }
  }

  /** The operations of a queue segment, as a set. */
  function Ops(s: seq<Operation>): set<Operation> {
    set o | o in s
  }

  /** The delete operations for the array children named in `names`. */
  function ChildDeletes(d: ArrayDescriptor, names: set<string>): set<Operation> {
    set n | n in names && n in d.indexes :: DeleteOperation(d.indexes[n], false)
  }

  /** One delete operation per child index of the array `d` describes, in the order the children are visited. */
  method ChildDeleteOperations(d: ArrayDescriptor) returns (deletes: seq<Operation>)
    ensures |deletes| == |d.indexes|
    ensures Ops(deletes) == ChildDeletes(d, d.indexes.Keys)
  {
    var todo := d.indexes.Keys;
    ghost var done: set<string> := {};
    deletes := [];
    while todo != {}
      invariant todo + done == d.indexes.Keys && todo * done == {}
      invariant |deletes| == |done|
      invariant Ops(deletes) == ChildDeletes(d, done)
      decreases todo
    {
      var name :| name in todo;
      var child := DeleteOperation(d.indexes[name], false);
      OpsAppend(deletes, child);
      ChildDeletesStep(d, done, name);
      AddOneMore(done, name);
      deletes := deletes + [child];
      todo := todo - {name};
      done := done + {name};
    }
    assert done == d.indexes.Keys;
  }

  lemma AddOneMore(names: set<string>, name: string)
    requires name !in names
    ensures |names + {name}| == |names| + 1
  {
  }

  lemma OpsAppend(s: seq<Operation>, op: Operation)
    ensures Ops(s + [op]) == Ops(s) + {op}
  {
  }

  lemma ChildDeletesStep(d: ArrayDescriptor, names: set<string>, name: string)
    requires name in d.indexes
    ensures ChildDeletes(d, names + {name}) == ChildDeletes(d, names) + {DeleteOperation(d.indexes[name], false)}
  {
  }

  /** The index holds an array. */
  predicate HoldsArray(defs: map<MemoryIndex, IndexDefinition>, index: MemoryIndex) {
    index in defs && defs[index].arrayValue.Some?
  }

  /** What processing a merge operation learns about arrays and the target's array. */
  datatype ArrayMerge = ArrayMerge(containsArray: bool, alwaysDefined: bool, targetArray: Option<nat>,
                                   descriptor: Option<ArrayDescriptor>)

  /**
   * Scans the sources' arrays: whether some source holds an array, whether
   * every source does (and the operation is defined), and the first array
   * held by a source at the target index itself.
   */
  method MergedArraySources(op: Operation, sourceArrays: seq<Option<nat>>)
    returns (containsArray: bool, alwaysDefined: bool, targetArray: Option<nat>)
    requires |sourceArrays| == |op.sources|
    ensures containsArray <==> exists k :: 0 <= k < |sourceArrays| && sourceArrays[k].Some?
    ensures alwaysDefined <==> !op.isUndefined && forall k :: 0 <= k < |sourceArrays| ==> sourceArrays[k].Some?
    ensures targetArray.Some? <==> exists k :: 0 <= k < |sourceArrays| && sourceArrays[k].Some? && op.sources[k].index == op.target
    ensures targetArray.Some? ==> exists k :: 0 <= k < |sourceArrays| && sourceArrays[k] == targetArray && op.sources[k].index == op.target
                                             && forall j :: 0 <= j < k ==> !(sourceArrays[j].Some? && op.sources[j].index == op.target)
  {
    containsArray, alwaysDefined, targetArray := false, !op.isUndefined, None;
    ghost var first := 0;
    for k := 0 to |sourceArrays|
      invariant containsArray <==> exists j :: 0 <= j < k && sourceArrays[j].Some?
      invariant alwaysDefined <==> !op.isUndefined && forall j :: 0 <= j < k ==> sourceArrays[j].Some?
      invariant targetArray.None? <==> forall j :: 0 <= j < k ==> !(sourceArrays[j].Some? && op.sources[j].index == op.target)
      invariant targetArray.Some? ==> 0 <= first < k && sourceArrays[first] == targetArray && op.sources[first].index == op.target
                                      && forall j :: 0 <= j < first ==> !(sourceArrays[j].Some? && op.sources[j].index == op.target)
    {
      if sourceArrays[k].Some? {
        if targetArray.None? && op.sources[k].index == op.target {
          targetArray := sourceArrays[k];
          first := k;
        }
        containsArray := true;
      } else {
        alwaysDefined := false;
      }
    }
  }

  // ---- Stack levels and the parent snapshot ----

  /** The stack level of the change tree to merge, from which sources (by position), and whether every source has it. */
  datatype LevelPlan = LevelPlan(level: int, sources: seq<nat>, alwaysDefined: bool)

  /** `positions` lists, in increasing order, exactly the positions of the sources that satisfy `has`. */
  predicate Enumerates(positions: seq<nat>, has: seq<bool>) {
    && (forall i :: 0 <= i < |positions| ==> positions[i] < |has| && has[positions[i]])
    && (forall i, j :: 0 <= i < j < |positions| ==> positions[i] < positions[j])
    && (forall k :: 0 <= k < |has| && has[k] ==> k in positions)
  }

  /** The sources that have a stack level, and whether all of them do. */
  method LevelSources(has: seq<bool>) returns (sources: seq<nat>, alwaysDefined: bool)
    ensures Enumerates(sources, has)
    ensures alwaysDefined <==> forall k :: 0 <= k < |has| ==> has[k]
  {
    sources, alwaysDefined := [], true;
    for k := 0 to |has|
      invariant forall i :: 0 <= i < |sources| ==> sources[i] < k && has[sources[i]]
      invariant forall i, j :: 0 <= i < j < |sources| ==> sources[i] < sources[j]
      invariant forall j :: 0 <= j < k && has[j] ==> j in sources
      invariant alwaysDefined <==> forall j :: 0 <= j < k ==> has[j]
    {
      if has[k] {
        sources := sources + [k];
      } else {
        alwaysDefined := false;
      }
    }
  }

  /** For each source, whether it has `level`. */
  function HasLevel(sourceLevels: seq<set<int>>, level: int): (r: seq<bool>)
    ensures |r| == |sourceLevels| && forall k :: 0 <= k < |r| ==> (r[k] <==> level in sourceLevels[k])
  {
    seq(|sourceLevels|, k requires 0 <= k < |sourceLevels| => level in sourceLevels[k])
  }

  /**
   * Plans the merge of the stack levels of the change tree: a level the
   * target has is merged, and so is a missing one the merge accepts
   * (`accepted`); its sources are those that have the level, and it is
   * always defined when all of them do.
   */
  method MergeStackLevels(levels: seq<int>, targetLevels: set<int>, accepted: set<int>, sourceLevels: seq<set<int>>)
    returns (plans: seq<LevelPlan>)
    ensures forall p :: p in plans ==> p.level in levels && (p.level in targetLevels || p.level in accepted)
    ensures forall l :: l in levels && (l in targetLevels || l in accepted) ==> exists p :: p in plans && p.level == l
    ensures forall p :: p in plans ==> Enumerates(p.sources, HasLevel(sourceLevels, p.level))
    ensures forall p :: p in plans ==> (p.alwaysDefined <==> forall k :: 0 <= k < |sourceLevels| ==> p.level in sourceLevels[k])
  {
    plans := [];
    for i := 0 to |levels|
      invariant forall p :: p in plans ==> p.level in levels[..i] && (p.level in targetLevels || p.level in accepted)
      invariant forall l :: l in levels[..i] && (l in targetLevels || l in accepted) ==> exists p :: p in plans && p.level == l
      invariant forall p :: p in plans ==> Enumerates(p.sources, HasLevel(sourceLevels, p.level))
      invariant forall p :: p in plans ==> (p.alwaysDefined <==> forall k :: 0 <= k < |sourceLevels| ==> p.level in sourceLevels[k])
    {
      assert levels[..i + 1] == levels[..i] + [levels[i]];
      var level := levels[i];
      if level in targetLevels || level in accepted {
        var sources, alwaysDefined := LevelSources(HasLevel(sourceLevels, level));
        plans := plans + [LevelPlan(level, sources, alwaysDefined)];
      }
    }
    assert levels[..|levels|] == levels;
  }

  /** For each source, whether its call level reaches `level`. */
  function ReachesLevel(sourceCallLevels: seq<int>, level: int): (r: seq<bool>)
    ensures |r| == |sourceCallLevels| && forall k :: 0 <= k < |r| ==> (r[k] <==> sourceCallLevels[k] >= level)
  {
    seq(|sourceCallLevels|, k requires 0 <= k < |sourceCallLevels| => sourceCallLevels[k] >= level)
  }

  /**
   * The older plan for the stack levels: only levels up to the target's
   * call level are merged; a source has a level when its call level
   * reaches it.
   */
  method MergeStackLevelsByCallLevel(levels: seq<int>, targetCallLevel: int, sourceCallLevels: seq<int>)
    returns (plans: seq<LevelPlan>)
    ensures forall p :: p in plans ==> p.level in levels && p.level <= targetCallLevel
    ensures forall l :: l in levels && l <= targetCallLevel ==> exists p :: p in plans && p.level == l
    ensures forall p :: p in plans ==> Enumerates(p.sources, ReachesLevel(sourceCallLevels, p.level))
    ensures forall p :: p in plans ==> (p.alwaysDefined <==> forall k :: 0 <= k < |sourceCallLevels| ==> sourceCallLevels[k] >= p.level)
  {
    plans := [];
    for i := 0 to |levels|
      invariant forall p :: p in plans ==> p.level in levels[..i] && p.level <= targetCallLevel
      invariant forall l :: l in levels[..i] && l <= targetCallLevel ==> exists p :: p in plans && p.level == l
      invariant forall p :: p in plans ==> Enumerates(p.sources, ReachesLevel(sourceCallLevels, p.level))
      invariant forall p :: p in plans ==> (p.alwaysDefined <==> forall k :: 0 <= k < |sourceCallLevels| ==> sourceCallLevels[k] >= p.level)
    {
      assert levels[..i + 1] == levels[..i] + [levels[i]];
      var level := levels[i];
      if level <= targetCallLevel {
        var sources, alwaysDefined := LevelSources(ReachesLevel(sourceCallLevels, level));
        plans := plans + [LevelPlan(level, sources, alwaysDefined)];
      }
    }
    assert levels[..|levels|] == levels;
  }

  /** What selecting the parent snapshot needs of a source: its call level and how many indexes it changed. */
  datatype SourceSummary = SourceSummary(callLevel: int, changedIndexes: nat)

  /** Among the first `n` sources, `p` has the most changed indexes, and every earlier source fewer. */
  predicate FirstMaximum(contexts: seq<SourceSummary>, n: nat, p: nat)
    requires n <= |contexts|
  {
    && p < n
    && (forall k :: 0 <= k < n ==> contexts[k].changedIndexes <= contexts[p].changedIndexes)
    && (forall k :: 0 <= k < p ==> contexts[k].changedIndexes < contexts[p].changedIndexes)
  }

  /**
   * Selects the parent of the merge (the older merge): the source with
   * the most changed indexes, the first of them on a tie. Every source
   * must be at the target's call level; none at all selects nothing.
   */
  method SelectParentSnapshot(targetCallLevel: int, contexts: seq<SourceSummary>) returns (r: Result<Option<nat>, string>)
    ensures r.Err? <==> exists k :: 0 <= k < |contexts| && contexts[k].callLevel != targetCallLevel
    ensures r == Ok(None) <==> contexts == []
    ensures r.Ok? && r.value.Some? ==> FirstMaximum(contexts, |contexts|, r.value.value)
  {
    var parent: Option<nat> := None;
    for k := 0 to |contexts|
      invariant forall j :: 0 <= j < k ==> contexts[j].callLevel == targetCallLevel
      invariant parent.None? <==> k == 0
      invariant parent.Some? ==> FirstMaximum(contexts, k, parent.value)
    {
      if contexts[k].callLevel != targetCallLevel {
        return Err(DifferentCallLevels);
      }
      if parent.None? {
        parent := Some(k);
      } else {
        FirstMaximumStep(contexts, k, parent.value);
        if contexts[k].changedIndexes > contexts[parent.value].changedIndexes {
          parent := Some(k);
        }
      }
    }
    r := Ok(parent);
  }

  /** One more source: it is the new maximum exactly when it has more changed indexes than the current one. */
  lemma FirstMaximumStep(contexts: seq<SourceSummary>, n: nat, p: nat)
    requires n < |contexts| && FirstMaximum(contexts, n, p)
    ensures contexts[n].changedIndexes > contexts[p].changedIndexes ==> FirstMaximum(contexts, n + 1, n)
    ensures contexts[n].changedIndexes <= contexts[p].changedIndexes ==> FirstMaximum(contexts, n + 1, p)
  {
  }
}
