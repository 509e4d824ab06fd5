/**
 * The merge worker of the copy memory model: which stack levels of a
 * source are merged into which levels of the target, the merge operations
 * of temporaries, the values a merged location receives, the choice of the
 * merged array, the union of declarations, and the alias entries and the
 * queue of operations the worker keeps while it merges.
 */
module MergeWorkers {
  import opened Wrappers
  import opened MemoryIndexes
  import opened MemoryAliases
  import Values
  import CSharp

  // ---- Stack levels ----

  /** The pairs `(l, l)` for every level `l` below `n`. */
  function Diagonal(n: int): (r: seq<(int, int)>)
    ensures |r| == if n > 0 then n else 0
    ensures forall k :: 0 <= k < |r| ==> r[k] == (k, k)
  {
    if n <= 0 then [] else Diagonal(n - 1) + [(n - 1, n - 1)]
  }

  /**
   * The `(source level, target level)` pairs merged for a source at call
   * level `sourceCall` into a target at call level `targetCall`: the levels
   * are matched one to one, except that the local level of a source at
   * another call level than the target goes to the target's local level;
   * in a call merge that local level is dropped instead.
   */
  function LevelMapping(sourceCall: int, targetCall: int, isCallMerge: bool): seq<(int, int)> {
    if 0 <= sourceCall < targetCall then
      Diagonal(sourceCall) + (if isCallMerge then [] else [(sourceCall, targetCall)])
    else
      Diagonal(targetCall + 1)
  }

  /** The level loop at the head of `Merge` for one source. */
  method MergedLevels(sourceCall: int, targetCall: int, isCallMerge: bool) returns (pairs: seq<(int, int)>)
    ensures pairs == LevelMapping(sourceCall, targetCall, isCallMerge)
  {
    pairs := [];
    var sourceLevel := 0;
    var targetLevel := 0;
    while targetLevel <= targetCall
      invariant 0 <= sourceLevel
      invariant 0 <= sourceCall < targetCall && sourceLevel > sourceCall ==> targetLevel == targetCall + 1
      invariant !(0 <= sourceCall < targetCall && sourceLevel > sourceCall) ==> targetLevel == sourceLevel
      invariant !(0 <= sourceCall < targetCall && sourceLevel > sourceCall) ==> pairs == Diagonal(sourceLevel)
      invariant 0 <= sourceCall < targetCall && sourceLevel > sourceCall ==>
                  (sourceLevel == sourceCall + 1 && !isCallMerge && pairs == Diagonal(sourceCall) + [(sourceCall, targetCall)])
      invariant !(0 <= sourceCall < targetCall) ==> sourceLevel <= (if targetCall >= 0 then targetCall + 1 else 0)
      invariant 0 <= sourceCall < targetCall ==> sourceLevel <= sourceCall + 1
      decreases targetCall + 1 - targetLevel
    {
      if sourceLevel == sourceCall && sourceCall != targetCall {
        if isCallMerge {
          break;
        } else {
          targetLevel := targetCall;
        }
      }
      pairs := pairs + [(sourceLevel, targetLevel)];
      sourceLevel := sourceLevel + 1;
      targetLevel := targetLevel + 1;
    }
  }

  /**
   * Every merged pair lands on a level of the target, and a target level
   * only ever receives its own source level or, in an ordinary merge, the
   * source's local level.
   */
  lemma LevelMappingInRange(sourceCall: int, targetCall: int, isCallMerge: bool)
    ensures forall k :: 0 <= k < |LevelMapping(sourceCall, targetCall, isCallMerge)| ==>
      var (s, t) := LevelMapping(sourceCall, targetCall, isCallMerge)[k];
      0 <= s <= t <= targetCall && (s == t || (s == sourceCall && t == targetCall && !isCallMerge))
  {
  }

  /** The local level of a source at a lower call level is merged into the target's local level, unless it is a call merge. */
  lemma LocalLevelMerged(sourceCall: int, targetCall: int, isCallMerge: bool)
    requires 0 <= sourceCall < targetCall
    ensures !isCallMerge ==> (sourceCall, targetCall) in LevelMapping(sourceCall, targetCall, isCallMerge)
    ensures isCallMerge ==> forall k :: 0 <= k < |LevelMapping(sourceCall, targetCall, isCallMerge)| ==>
                              LevelMapping(sourceCall, targetCall, isCallMerge)[k].0 < sourceCall
  {
    if !isCallMerge {
      var m := LevelMapping(sourceCall, targetCall, isCallMerge);
      assert m[|m| - 1] == (sourceCall, targetCall);
    }
  }

  /** A source at the target's call level has each of its levels merged into the same level. */
  lemma SameLevelIsDiagonal(level: int, isCallMerge: bool)
    requires level >= 0
    ensures LevelMapping(level, level, isCallMerge) == Diagonal(level + 1)
  {
  }

  // ---- Merge operations ----

  /** The target index of a merge, the source indexes with their snapshot number, and whether some source lacks it. */
  datatype MergeOperation = MergeOperation(target: MemoryIndex, indexes: seq<(MemoryIndex, nat)>, isUndefined: bool)

  /** The entries `(index, k)` for the sources `k` below `upTo` whose defined set contains `index`, in order. */
  function DefiningSources(index: MemoryIndex, defined: seq<set<MemoryIndex>>, upTo: nat): (r: seq<(MemoryIndex, nat)>)
    requires upTo <= |defined|
    ensures forall e :: e in r ==> e.0 == index && e.1 < upTo && index in defined[e.1]
    ensures forall k :: 0 <= k < upTo && index in defined[k] ==> (index, k) in r
  {
    if upTo == 0 then []
    else DefiningSources(index, defined, upTo - 1) + (if index in defined[upTo - 1] then [(index, upTo - 1)] else [])
  }

  /**
   * The merge operation of the temporary `temp`: every source that defines
   * it contributes it, and a source that does not makes the operation
   * undefined. `defined[k]` is the set of indexes source `k` defines.
   */
  method MergeTemporary(temp: MemoryIndex, defined: seq<set<MemoryIndex>>) returns (op: MergeOperation)
    ensures op.target == temp && op.indexes == DefiningSources(temp, defined, |defined|)
    ensures op.isUndefined <==> exists k :: 0 <= k < |defined| && temp !in defined[k]
  {
    op := MergeOperation(temp, [], false);
    for k := 0 to |defined|
      invariant op.target == temp && op.indexes == DefiningSources(temp, defined, k)
      invariant op.isUndefined <==> exists j :: 0 <= j < k && temp !in defined[j]
    {
      if temp in defined[k] {
        op := op.(indexes := op.indexes + [(temp, k)]);
      } else {
        op := op.(isUndefined := true);
      }
    }
  }

  // ---- Values ----

  /** All values of the given entries. */
  function UnionOf(entries: seq<Entry>): (r: Entry)
    ensures forall k, v :: 0 <= k < |entries| && v in entries[k] ==> v in r
    ensures forall v :: v in r ==> exists k :: 0 <= k < |entries| && v in entries[k]
  {
    if |entries| == 0 then {} else UnionOf(entries[..|entries| - 1]) + entries[|entries| - 1]
  }

  /**
   * The entry of a merged location: every non-array value of the sources,
   * the merged array `targetArray` in place of the source arrays, and the
   * undefined value when some source lacks the location.
   */
  function MergedEntry(sources: seq<Entry>, targetArray: nat, isUndefined: bool): (r: Entry)
    ensures isUndefined ==> Values.Undefined in r
    ensures forall k, v :: 0 <= k < |sources| && v in sources[k] && !v.Array? ==> v in r
    ensures (Values.Array(targetArray) in r) <==> exists k, v :: 0 <= k < |sources| && v in sources[k] && v.Array?
    ensures forall v :: v in r && v.Array? ==> v == Values.Array(targetArray)
    ensures forall v :: v in r && !v.Array? ==> (v == Values.Undefined && isUndefined) || exists k :: 0 <= k < |sources| && v in sources[k]
  {
    var all := UnionOf(sources);
    var hasArray := exists v :: v in all && v.Array?;
    (set v | v in all && !v.Array?)
      + (if hasArray then {Values.Array(targetArray)} else {})
      + (if isUndefined then {Values.Undefined} else {})
  }

  /**
   * The array a merged location holds: the first source array found at the
   * target index itself, if any, else `freshArray`. `undefined` tells
   * whether some source index holds no array.
   */
  method SelectTargetArray(target: MemoryIndex, sources: seq<(MemoryIndex, Option<nat>)>, freshArray: nat) returns (chosen: nat, undefined: bool)
    ensures undefined <==> exists k :: 0 <= k < |sources| && sources[k].1.None?
    ensures (exists k :: 0 <= k < |sources| && sources[k].0 == target && sources[k].1 == Some(chosen)
               && forall j :: 0 <= j < k ==> !(sources[j].0 == target && sources[j].1.Some?))
            || ((forall k :: 0 <= k < |sources| ==> !(sources[k].0 == target && sources[k].1.Some?)) && chosen == freshArray)
  {
    var found: Option<nat> := None;
    ghost var at := 0;
    undefined := false;
    for k := 0 to |sources|
      invariant undefined <==> exists j :: 0 <= j < k && sources[j].1.None?
      invariant found.None? ==> forall j :: 0 <= j < k ==> !(sources[j].0 == target && sources[j].1.Some?)
      invariant found.Some? ==> 0 <= at < k && sources[at].0 == target && sources[at].1 == found
                                && forall j :: 0 <= j < at ==> !(sources[j].0 == target && sources[j].1.Some?)
    {
      var (index, arrayValue) := sources[k];
      if arrayValue.Some? {
        if found.None? && index == target {
          found := arrayValue;
          at := k;
        }
      } else {
        undefined := true;
      }
    }
    chosen := if found.Some? then found.value else freshArray;
  }

  // ---- Declarations ----

  function DeclarationsOf(m: map<string, set<nat>>, name: string): set<nat> {
    if name in m then m[name] else {}
  }

  /** Adds every declaration of `source` to `target`. */
  method MergeDeclarations(target: map<string, set<nat>>, source: map<string, set<nat>>) returns (r: map<string, set<nat>>)
    ensures r.Keys == target.Keys + source.Keys
    ensures forall name :: DeclarationsOf(r, name) == DeclarationsOf(target, name) + DeclarationsOf(source, name)
  {
    r := target;
    var todo := source.Keys;
    while todo != {}
      invariant todo <= source.Keys
      invariant r.Keys == target.Keys + (source.Keys - todo)
      invariant forall name :: name !in todo ==> DeclarationsOf(r, name) == DeclarationsOf(target, name) + DeclarationsOf(source, name)
      invariant forall name :: name in todo ==> DeclarationsOf(r, name) == DeclarationsOf(target, name)
      decreases todo
    {
      var name :| name in todo;
      r := r[name := DeclarationsOf(r, name) + source[name]];
      todo := todo - {name};
    }
  }

  /** The declarations of all sources together. */
  function AllDeclarations(sources: seq<map<string, set<nat>>>): map<string, set<nat>> {
    if |sources| == 0 then map[]
    else var init := AllDeclarations(sources[..|sources| - 1]);
         var last := sources[|sources| - 1];
         map name | name in init.Keys + last.Keys :: DeclarationsOf(init, name) + DeclarationsOf(last, name)
  }

  /** The merged declarations of a name are those of every source that declares it. */
  lemma {:induction false} AllDeclarationsUnion(sources: seq<map<string, set<nat>>>, name: string, d: nat)
    ensures d in DeclarationsOf(AllDeclarations(sources), name) <==> exists k :: 0 <= k < |sources| && d in DeclarationsOf(sources[k], name)
  {
    if |sources| > 0 {
      var init := sources[..|sources| - 1];
      AllDeclarationsUnion(init, name, d);
      assert forall k :: 0 <= k < |init| ==> init[k] == sources[k];
      if d in DeclarationsOf(sources[|sources| - 1], name) {
        assert exists k :: 0 <= k < |sources| && d in DeclarationsOf(sources[k], name);
      }
    }
  }

  /** Merging the sources one after the other yields the declarations of all of them. */
  method MergeAllDeclarations(sources: seq<map<string, set<nat>>>) returns (r: map<string, set<nat>>)
    ensures r == AllDeclarations(sources)
  {
    r := map[];
    for k := 0 to |sources|
      invariant r == AllDeclarations(sources[..k])
    {
      assert sources[..k + 1][..k] == sources[..k];
      r := MergeDeclarations(r, sources[k]);
    }
    assert sources[..|sources|] == sources;
  }

  // ---- The worker ----

  class MergeWorker {
    /** The alias entries being built for the target indexes. */
    var memoryAliases: map<MemoryIndex, MemoryAlias>
    /** The operations still to be processed, oldest first. */
    var operationStack: seq<MergeOperation>

    /** No alias entry being built has an index both must and may. */
    predicate Valid()
      reads this
    {
      forall i :: i in memoryAliases ==> Disjoint(memoryAliases[i])
    }

    constructor ()
      ensures memoryAliases == map[] && operationStack == [] && Valid()
    {
      memoryAliases := map[];
      operationStack := [];
    }

    function AliasOf(index: MemoryIndex): MemoryAlias
      reads this
    {
      if index in memoryAliases then memoryAliases[index] else NoAliases
    }

    /** Adds one must and one may alias to the entry being built for `index`; `index` itself is not excluded. */
    method AddAlias(index: MemoryIndex, mustAlias: Option<MemoryIndex>, mayAlias: Option<MemoryIndex>)
      requires Valid()
      modifies this
      ensures Valid()
      ensures memoryAliases == old(memoryAliases)[index := AliasAddedAsWritten(old(AliasOf(index)), mustAlias, mayAlias)]
      ensures operationStack == old(operationStack)
    {
      memoryAliases := memoryAliases[index := AliasAddedAsWritten(AliasOf(index), mustAlias, mayAlias)];
    }

    /** Adds sequences of must and may aliases to the entry being built for `index`. */
    method AddAliases(index: MemoryIndex, mustAliases: Option<seq<MemoryIndex>>, mayAliases: Option<seq<MemoryIndex>>)
      requires Valid()
      modifies this
      ensures Valid()
      ensures memoryAliases == old(memoryAliases)[index := AliasesAddedAsWritten(old(AliasOf(index)), mustAliases, mayAliases)]
      ensures operationStack == old(operationStack)
    {
      memoryAliases := memoryAliases[index := AliasesAddedAsWritten(AliasOf(index), mustAliases, mayAliases)];
    }

    /** Queues an operation behind the others. */
    method AddOperation(op: MergeOperation)
      modifies this
      ensures operationStack == old(operationStack) + [op] && memoryAliases == old(memoryAliases)
    {
      operationStack := operationStack + [op];
    }

    /** Takes the oldest queued operation; an empty queue is an error. */
    method GetOperation() returns (r: Result<MergeOperation, string>)
      modifies this
      ensures old(operationStack) == [] ==> r.Err? && operationStack == []
      ensures old(operationStack) != [] ==> r == Ok(old(operationStack)[0]) && operationStack == old(operationStack)[1..]
      ensures memoryAliases == old(memoryAliases)
    {
      if operationStack == [] {
        return Err(CSharp.NullReferenceMessage);
      }
      r := Ok(operationStack[0]);
      operationStack := operationStack[1..];
    }
  }

  /** The queue is first in, first out: an operation queued on an empty worker is the next one taken. */
  method QueueIsFifo(w: MergeWorker, a: MergeOperation, b: MergeOperation) returns (first: Result<MergeOperation, string>, second: Result<MergeOperation, string>)
    requires w.operationStack == []
    modifies w
    ensures first == Ok(a) && second == Ok(b) && w.operationStack == []
  {
    w.AddOperation(a);
    w.AddOperation(b);
    first := w.GetOperation();
    second := w.GetOperation();
  }
}
