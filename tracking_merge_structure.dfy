/**
 * The structure part of the tracking merge in the modular copy memory
 * model: creating the stack levels of the merged structure, merging the
 * changed function and class declarations, and collecting the aliases of
 * the merged indexes before they are written to the target structure.
 */
module TrackingMergeStructure {
  import opened Wrappers
  import opened MemoryIndexes
  import MemoryAliases
  import TrackingStructure

  // ---- Stack levels ----

  /**
   * The local level chosen for the merged structure, scanning the sources'
   * call levels in order from `level`: the first call level that differs
   * from the current choice is taken, and any later difference makes it
   * global.
   */
  function LocalLevelFold(callLevels: seq<int>, level: int, found: bool): int
    decreases |callLevels|
  {
    if callLevels == [] then level
    else
      var c := callLevels[0];
      if level == c then LocalLevelFold(callLevels[1..], level, found)
      else if !found then LocalLevelFold(callLevels[1..], c, true)
      else LocalLevelFold(callLevels[1..], GlobalCallLevel, found)
  }

  /** The local level of the merge of sources with these call levels. */
  function LocalLevel(callLevels: seq<int>): int {
    LocalLevelFold(callLevels, -1, false)
  }

  /** All the call levels are `level`. */
  predicate AllAt(callLevels: seq<int>, level: int) {
    forall k :: 0 <= k < |callLevels| ==> callLevels[k] == level
  }

  /** Once the choice is the global level, it stays there. */
  lemma {:induction false} FoldStaysGlobal(callLevels: seq<int>)
    ensures LocalLevelFold(callLevels, GlobalCallLevel, true) == GlobalCallLevel
    decreases |callLevels|
  {
    if callLevels != [] {
      FoldStaysGlobal(callLevels[1..]);
    }
  }

  /** After a choice was made, it is kept while the call levels agree with it and becomes global otherwise. */
  lemma {:induction false} FoldAfterChoice(callLevels: seq<int>, level: int)
    ensures LocalLevelFold(callLevels, level, true) == if AllAt(callLevels, level) then level else GlobalCallLevel
    decreases |callLevels|
  {
    if callLevels != [] {
      var rest := callLevels[1..];
      assert AllAt(callLevels, level) <==> callLevels[0] == level && AllAt(rest, level) by {
        if callLevels[0] == level && AllAt(rest, level) {
          forall k | 0 <= k < |callLevels| ensures callLevels[k] == level {
            if k > 0 { assert callLevels[k] == rest[k - 1]; }
          }
        }
      }
      if callLevels[0] == level {
        FoldAfterChoice(rest, level);
      } else {
        FoldStaysGlobal(rest);
      }
    }
  }

  /**
   * Sources that all share a call level give the merged structure that
   * level; sources at different call levels give it the global level; no
   * source at all leaves the initial -1.
   */
  lemma LocalLevelChoice(callLevels: seq<int>)
    requires forall k :: 0 <= k < |callLevels| ==> callLevels[k] >= 0
    ensures callLevels == [] ==> LocalLevel(callLevels) == -1
    ensures callLevels != [] && AllAt(callLevels, callLevels[0]) ==> LocalLevel(callLevels) == callLevels[0]
    ensures callLevels != [] && !AllAt(callLevels, callLevels[0]) ==> LocalLevel(callLevels) == GlobalCallLevel
  {
    if callLevels != [] {
      var rest := callLevels[1..];
      FoldAfterChoice(rest, callLevels[0]);
      assert AllAt(callLevels, callLevels[0]) <==> AllAt(rest, callLevels[0]) by {
        if AllAt(rest, callLevels[0]) {
          forall k | 0 <= k < |callLevels| ensures callLevels[k] == callLevels[0] {
            if k > 0 { assert callLevels[k] == rest[k - 1]; }
          }
        }
      }
    }
  }

  /** What creating the stack levels needs of a source structure: the levels of its stack contexts and its call level. */
  datatype SourceLevels = SourceLevels(stackLevels: seq<int>, callLevel: int)

  /** The levels listed. */
  function Levels(levels: seq<int>): set<int> {
    set l | l in levels
  }

  /** The call levels of the sources, in order. */
  function CallLevels(sources: seq<SourceLevels>): (r: seq<int>)
    ensures |r| == |sources| && forall k :: 0 <= k < |r| ==> r[k] == sources[k].callLevel
  {
    seq(|sources|, k requires 0 <= k < |sources| => sources[k].callLevel)
  }

  /** The context a newly added stack level gets. */
  function NewStackContext(level: int): TrackingStructure.StackContext {
    TrackingStructure.StackContext(level, VariableUnknown(level), ControlUnknown(level), {})
  }

  /**
   * The target's stack after adding `levels`: every level it had keeps its
   * context, every other one of `levels` gets a new context.
   */
  predicate StackExtended(before: map<int, TrackingStructure.StackContext>, after: map<int, TrackingStructure.StackContext>,
                          levels: set<int>) {
    && after.Keys == before.Keys + levels
    && (forall l :: l in before ==> after[l] == before[l])
    && (forall l :: l in levels && l !in before ==> after[l] == NewStackContext(l))
  }

  /** Only the memory stack, the definitions and the record of changes differ; no definition is lost or altered. */
  predicate OnlyStackGrew(before: TrackingStructure.State, after: TrackingStructure.State) {
    && after.localLevel == before.localLevel
    && after.arrayDescriptors == before.arrayDescriptors && after.objectDescriptors == before.objectDescriptors
    && after.functionDecl == before.functionDecl && after.classDecl == before.classDecl
    && after.definitionAdded == before.definitionAdded
    && (forall i :: i in before.defs ==> i in after.defs && after.defs[i] == before.defs[i])
  }

  /** Adds `level` to the target unless it has it. */
  method AddLevelIfMissing(target: TrackingStructure.TrackingStructureContainer, level: int)
    modifies target
    ensures StackExtended(old(target.memoryStack), target.memoryStack, {level})
    ensures OnlyStackGrew(old(target.Contents()), target.Contents())
  {
    if !target.ContainsStackWithLevel(level) {
      var _ := target.AddStackLevel(level);
    }
  }

  /** Extending the stack by `done` and then by one more level extends it by both. */
  lemma StackExtendedStep(before: map<int, TrackingStructure.StackContext>, middle: map<int, TrackingStructure.StackContext>,
                          after: map<int, TrackingStructure.StackContext>, done: set<int>, level: int)
    requires StackExtended(before, middle, done) && StackExtended(middle, after, {level})
    ensures StackExtended(before, after, done + {level})
  {
  }

  /** Growing the stack twice grows it. */
  lemma OnlyStackGrewStep(before: TrackingStructure.State, middle: TrackingStructure.State, after: TrackingStructure.State)
    requires OnlyStackGrew(before, middle) && OnlyStackGrew(middle, after)
    ensures OnlyStackGrew(before, after)
  {
  }

  /** Adds to the target, in order, every one of `levels` it does not have. */
  method AddMissingLevels(target: TrackingStructure.TrackingStructureContainer, levels: seq<int>)
    modifies target
    ensures StackExtended(old(target.memoryStack), target.memoryStack, Levels(levels))
    ensures OnlyStackGrew(old(target.Contents()), target.Contents())
  {
    for k := 0 to |levels|
      invariant StackExtended(old(target.memoryStack), target.memoryStack, Levels(levels[..k]))
      invariant OnlyStackGrew(old(target.Contents()), target.Contents())
    {
      ghost var middle := target.memoryStack;
      ghost var state := target.Contents();
      AddLevelIfMissing(target, levels[k]);
      assert Levels(levels[..k + 1]) == Levels(levels[..k]) + {levels[k]} by {
        assert levels[..k + 1] == levels[..k] + [levels[k]];
      }
      StackExtendedStep(old(target.memoryStack), middle, target.memoryStack, Levels(levels[..k]), levels[k]);
      OnlyStackGrewStep(old(target.Contents()), state, target.Contents());
    }
    assert levels[..|levels|] == levels;
  }

  /**
   * Creates the stack levels of the merged structure: every stack level
   * of every source is added when the target lacks it, and the local
   * level is chosen from the sources' call levels as `LocalLevel` says.
   */
  method CreateStackLevels(target: TrackingStructure.TrackingStructureContainer, sources: seq<SourceLevels>)
    modifies target
    ensures target.CallLevel() == LocalLevel(CallLevels(sources))
    ensures forall k, l :: 0 <= k < |sources| && l in Levels(sources[k].stackLevels) ==> target.ContainsStackWithLevel(l)
    ensures forall l :: l in old(target.memoryStack) ==> l in target.memoryStack && target.memoryStack[l] == old(target.memoryStack[l])
    ensures forall l :: l in target.memoryStack ==> l in old(target.memoryStack) || exists k :: 0 <= k < |sources| && l in Levels(sources[k].stackLevels)
    ensures OnlyStackGrew(old(target.Contents()).(localLevel := target.localLevel), target.Contents())
  {
    var localLevel := -1;
    var found := false;
    ghost var callLevels := CallLevels(sources);
    for k := 0 to |sources|
      invariant LocalLevelFold(callLevels[k..], localLevel, found) == LocalLevel(callLevels)
      invariant forall j, l :: 0 <= j < k && l in Levels(sources[j].stackLevels) ==> l in target.memoryStack
      invariant forall l :: l in old(target.memoryStack) ==> l in target.memoryStack && target.memoryStack[l] == old(target.memoryStack[l])
      invariant forall l :: l in target.memoryStack ==> l in old(target.memoryStack) || exists j :: 0 <= j < k && l in Levels(sources[j].stackLevels)
      invariant OnlyStackGrew(old(target.Contents()), target.Contents())
    {
      AddMissingLevels(target, sources[k].stackLevels);
      assert callLevels[k..][1..] == callLevels[k + 1..];
      if localLevel != sources[k].callLevel {
        if !found {
          localLevel := sources[k].callLevel;
          found := true;
        } else {
          localLevel := GlobalCallLevel;
        }
      }
    }
    target.SetLocalStackLevelNumber(localLevel);
  }

  // ---- Declarations ----

  /** The declarations of `name` in all the sources together. */
  function AllDeclared(sources: seq<map<string, set<nat>>>, name: string): (r: set<nat>)
    ensures forall d :: d in r <==> exists k :: 0 <= k < |sources| && d in TrackingStructure.Declared(sources[k], name)
  {
    if sources == [] then {}
    else
      var last := |sources| - 1;
      var r := AllDeclared(sources[..last], name) + TrackingStructure.Declared(sources[last], name);
      assert forall k :: 0 <= k < last ==> sources[..last][k] == sources[k];
      r
  }

  /** The declarations after every name of `names` got its merged declarations. */
  function Overridden(decls: map<string, set<nat>>, names: set<string>, sources: seq<map<string, set<nat>>>): (r: map<string, set<nat>>)
    ensures r.Keys == decls.Keys + names
    ensures forall n :: n in names ==> r[n] == AllDeclared(sources, n)
  {
    map n | n in decls.Keys + names :: if n in names then AllDeclared(sources, n) else decls[n]
  }

  /** Overriding one more name adds its merged declarations. */
  lemma OverriddenStep(decls: map<string, set<nat>>, done: set<string>, name: string, sources: seq<map<string, set<nat>>>)
    ensures Overridden(decls, done + {name}, sources) == Overridden(decls, done, sources)[name := AllDeclared(sources, name)]
  {
  }

  /** Gives every one of `names` the union of its function declarations in the sources. */
  method MergeFunctionDeclarations(target: TrackingStructure.TrackingStructureContainer,
                                   names: set<string>, sources: seq<map<string, set<nat>>>)
    modifies target
    ensures target.functionDecl == Overridden(old(target.functionDecl), names, sources)
    ensures target.definitionAdded <==> old(target.definitionAdded) || names != {}
    ensures target.Contents() == old(target.Contents()).(functionDecl := target.functionDecl,
                                                         changes := target.changes, definitionAdded := target.definitionAdded)
  {
    var todo := names;
    ghost var done: set<string> := {};
    while todo != {}
      invariant todo + done == names && todo * done == {}
      invariant target.functionDecl == Overridden(old(target.functionDecl), done, sources)
      invariant target.definitionAdded <==> old(target.definitionAdded) || done != {}
      invariant target.Contents() == old(target.Contents()).(functionDecl := target.functionDecl,
                                                             changes := target.changes, definitionAdded := target.definitionAdded)
      decreases todo
    {
      var name :| name in todo;
      var declarations := UnionDeclared(sources, name);
      target.SetFunctionDeclarations(name, declarations);
      OverriddenStep(old(target.functionDecl), done, name, sources);
      todo := todo - {name};
      done := done + {name};
    }
  }

  /** Gives every one of `names` the union of its class declarations in the sources. */
  method MergeClassDeclarations(target: TrackingStructure.TrackingStructureContainer,
                                names: set<string>, sources: seq<map<string, set<nat>>>)
    modifies target
    ensures target.classDecl == Overridden(old(target.classDecl), names, sources)
    ensures target.definitionAdded <==> old(target.definitionAdded) || names != {}
    ensures target.Contents() == old(target.Contents()).(classDecl := target.classDecl,
                                                         changes := target.changes, definitionAdded := target.definitionAdded)
  {
    var todo := names;
    ghost var done: set<string> := {};
    while todo != {}
      invariant todo + done == names && todo * done == {}
      invariant target.classDecl == Overridden(old(target.classDecl), done, sources)
      invariant target.definitionAdded <==> old(target.definitionAdded) || done != {}
      invariant target.Contents() == old(target.Contents()).(classDecl := target.classDecl,
                                                             changes := target.changes, definitionAdded := target.definitionAdded)
      decreases todo
    {
      var name :| name in todo;
      var declarations := UnionDeclared(sources, name);
      target.SetClassDeclarations(name, declarations);
      OverriddenStep(old(target.classDecl), done, name, sources);
      todo := todo - {name};
      done := done + {name};
    }
  }

  /**
   * Merges the declarations: every changed function (and class) gets the
   * union of its declarations in all the sources, even when that is empty;
   * the declarations of other names are kept.
   */
  method MergeDeclarations(target: TrackingStructure.TrackingStructureContainer,
                           functionNames: set<string>, functionSources: seq<map<string, set<nat>>>,
                           classNames: set<string>, classSources: seq<map<string, set<nat>>>)
    modifies target
    ensures target.functionDecl == Overridden(old(target.functionDecl), functionNames, functionSources)
    ensures target.classDecl == Overridden(old(target.classDecl), classNames, classSources)
    ensures target.definitionAdded <==> old(target.definitionAdded) || functionNames != {} || classNames != {}
    ensures target.Contents() == old(target.Contents()).(functionDecl := target.functionDecl, classDecl := target.classDecl,
                                                         changes := target.changes, definitionAdded := target.definitionAdded)
  {
    MergeFunctionDeclarations(target, functionNames, functionSources);
    MergeClassDeclarations(target, classNames, classSources);
  }

  /** Collects the declarations of `name` from every source. */
  method UnionDeclared(sources: seq<map<string, set<nat>>>, name: string) returns (declarations: set<nat>)
    ensures declarations == AllDeclared(sources, name)
  {
    declarations := {};
    for k := 0 to |sources|
      invariant declarations == AllDeclared(sources[..k], name)
    {
      assert sources[..k + 1][..k] == sources[..k];
      if name in sources[k] {
        declarations := declarations + sources[k][name];
      }
    }
    assert sources[..|sources|] == sources;
  }

  // ---- Aliases ----

  /** The aliases collected for one index of the merged structure. */
  datatype AliasInfo = AliasInfo(aliases: MemoryAlias, isTargetOfMerge: bool, removed: set<MemoryIndex>)

  /** The info a new index gets: no aliases, not a merge target, nothing removed. */
  const NewAliasInfo := AliasInfo(NoAliases, false, {})

  /** The info of `index`, a new one when there is none yet. */
  function InfoOf(infos: map<MemoryIndex, AliasInfo>, index: MemoryIndex): AliasInfo {
    if index in infos then infos[index] else NewAliasInfo
  }

  /** The infos after looking up the info of `index`: a missing one is created and stored. */
  function WithAliasInfo(infos: map<MemoryIndex, AliasInfo>, index: MemoryIndex): (r: map<MemoryIndex, AliasInfo>)
    ensures r.Keys == infos.Keys + {index}
    ensures index in infos ==> r == infos
    ensures r[index] == InfoOf(infos, index)
  {
    if index in infos then infos else infos[index := NewAliasInfo]
  }

  /** Every collected info keeps the must and may aliases disjoint. */
  predicate AllDisjoint(infos: map<MemoryIndex, AliasInfo>) {
    forall i :: i in infos ==> Disjoint(infos[i].aliases)
  }

  /** The infos after `index` was recorded as removed from the aliases of every partner. */
  function MarkRemoved(infos: map<MemoryIndex, AliasInfo>, partners: set<MemoryIndex>, index: MemoryIndex): (r: map<MemoryIndex, AliasInfo>)
    ensures r.Keys == infos.Keys + partners
    ensures forall p :: p in partners ==> r[p] == InfoOf(infos, p).(removed := InfoOf(infos, p).removed + {index})
    ensures forall i :: i in infos && i !in partners ==> r[i] == infos[i]
  {
    map i | i in infos.Keys + partners ::
      if i in partners then InfoOf(infos, i).(removed := InfoOf(infos, i).removed + {index}) else infos[i]
  }

  /** The must aliases an index has in the target; none when it has no aliases. */
  function CurrentMust(current: Option<MemoryAlias>): set<MemoryIndex> {
    if current.Some? then current.value.must else {}
  }

  /** The may aliases an index has in the target; none when it has no aliases. */
  function CurrentMay(current: Option<MemoryAlias>): set<MemoryIndex> {
    if current.Some? then current.value.may else {}
  }

  /**
   * The aliases written for one collected info: for an index that is not
   * a merge target, its current aliases in the target are added first;
   * then every removed alias is taken out of both sets.
   */
  function UpdatedAlias(info: AliasInfo, current: Option<MemoryAlias>): (r: MemoryAlias)
    ensures r.must * info.removed == {} && r.may * info.removed == {}
    ensures info.aliases.must - info.removed <= r.must && info.aliases.may - info.removed <= r.may
    ensures r.must <= info.aliases.must + CurrentMust(current) && r.may <= info.aliases.may + CurrentMay(current)
    ensures !info.isTargetOfMerge ==> CurrentMust(current) - info.removed <= r.must && CurrentMay(current) - info.removed <= r.may
    ensures info.isTargetOfMerge ==> r.must == info.aliases.must - info.removed && r.may == info.aliases.may - info.removed
  {
    var a := if !info.isTargetOfMerge && current.Some?
             then MemoryAlias(info.aliases.must + current.value.must, info.aliases.may + current.value.may)
             else info.aliases;
    MemoryAlias(a.must - info.removed, a.may - info.removed)
  }

  /** The definitions after the aliases of the indexes in `done` were written from their infos. */
  function AliasesUpdated(defs: map<MemoryIndex, IndexDefinition>, infos: map<MemoryIndex, AliasInfo>, done: set<MemoryIndex>)
    : (r: map<MemoryIndex, IndexDefinition>)
    requires done <= infos.Keys
    ensures r.Keys == defs.Keys + done
    ensures forall i :: i in done ==> r[i] == DefinitionOf(defs, i).(aliases := Some(UpdatedAlias(infos[i], AliasesOf(defs, i))))
    ensures forall i :: i in defs && i !in done ==> r[i] == defs[i]
  {
    map i | i in defs.Keys + done ::
      if i in done then DefinitionOf(defs, i).(aliases := Some(UpdatedAlias(infos[i], AliasesOf(defs, i)))) else defs[i]
  }

  class TrackingMergeStructureWorker {
    /** The aliases collected for the indexes of the merged structure. */
    var memoryAliases: map<MemoryIndex, AliasInfo>
    const target: TrackingStructure.TrackingStructureContainer

    constructor (target: TrackingStructure.TrackingStructureContainer)
      ensures memoryAliases == map[] && this.target == target
    {
      memoryAliases := map[];
      this.target := target;
    }

    /** The info of `index`; a missing one is created empty and stored. */
    method GetAliasInfo(index: MemoryIndex) returns (info: AliasInfo)
      modifies this
      ensures memoryAliases == WithAliasInfo(old(memoryAliases), index)
      ensures info == memoryAliases[index] && info == InfoOf(old(memoryAliases), index)
    {
      if index !in memoryAliases {
        memoryAliases := memoryAliases[index := NewAliasInfo];
      }
      info := memoryAliases[index];
    }

    /**
     * Adds a must alias and a may alias (either may be absent) to the info
     * of `index`, as `AliasAddedAsWritten` says; the must and may sets of
     * the infos stay disjoint.
     */
    method AddAlias(index: MemoryIndex, mustAlias: Option<MemoryIndex>, mayAlias: Option<MemoryIndex>)
      modifies this
      ensures var info := InfoOf(old(memoryAliases), index);
        memoryAliases == old(memoryAliases)[index := info.(aliases := MemoryAliases.AliasAddedAsWritten(info.aliases, mustAlias, mayAlias))]
      ensures AllDisjoint(old(memoryAliases)) ==> AllDisjoint(memoryAliases)
    {
      var info := GetAliasInfo(index);
      memoryAliases := memoryAliases[index := info.(aliases := MemoryAliases.AliasAddedAsWritten(info.aliases, mustAlias, mayAlias))];
    }

    /**
     * Adds sequences of must and may aliases (either may be absent) to the
     * info of `index`, as `AliasesAddedAsWritten` says: the must aliases
     * are then taken out of the may set.
     */
    method AddAliases(index: MemoryIndex, mustAliases: Option<seq<MemoryIndex>>, mayAliases: Option<seq<MemoryIndex>>)
      modifies this
      ensures var info := InfoOf(old(memoryAliases), index);
        memoryAliases == old(memoryAliases)[index := info.(aliases := MemoryAliases.AliasesAddedAsWritten(info.aliases, mustAliases, mayAliases))]
      ensures AllDisjoint(old(memoryAliases)) ==> AllDisjoint(memoryAliases)
      ensures Disjoint(memoryAliases[index].aliases)
    {
      var info := GetAliasInfo(index);
      memoryAliases := memoryAliases[index := info.(aliases := MemoryAliases.AliasesAddedAsWritten(info.aliases, mustAliases, mayAliases))];
    }

    /** Records `index` as removed from the aliases of each of `partners`. */
    method MarkRemovedFrom(partners: set<MemoryIndex>, index: MemoryIndex)
      modifies this
      ensures memoryAliases == MarkRemoved(old(memoryAliases), partners, index)
    {
      var todo := partners;
      ghost var done: set<MemoryIndex> := {};
      while todo != {}
        invariant todo + done == partners && todo * done == {}
        invariant memoryAliases == MarkRemoved(old(memoryAliases), done, index)
        decreases todo
      {
        var partner :| partner in todo;
        MarkRemovedStep(old(memoryAliases), done, partner, index);
        var info := GetAliasInfo(partner);
        memoryAliases := memoryAliases[partner := info.(removed := info.removed + {index})];
        todo := todo - {partner};
        done := done + {partner};
      }
    }

    /**
     * Deleting the aliases of a deleted index: the index is recorded as
     * removed in the info of each of its must aliases, then of each of its
     * may aliases.
     */
    method DeleteAliases(index: MemoryIndex, aliases: MemoryAlias)
      modifies this
      ensures memoryAliases == MarkRemoved(MarkRemoved(old(memoryAliases), aliases.must, index), aliases.may, index)
      ensures forall p :: p in aliases.must + aliases.may ==> p in memoryAliases && index in memoryAliases[p].removed
      ensures forall i :: i in old(memoryAliases) && i !in aliases.must + aliases.may ==> memoryAliases[i] == old(memoryAliases)[i]
    {
      MarkRemovedFrom(aliases.must, index);
      MarkRemovedFrom(aliases.may, index);
    }

    /** Writes the aliases of one collected index. */
    method UpdateAlias(index: MemoryIndex)
      requires index in memoryAliases
      modifies target
      ensures target.indexDefinitions == WithAliases(old(target.indexDefinitions), index,
                                                     Some(UpdatedAlias(memoryAliases[index], AliasesOf(old(target.indexDefinitions), index))))
      ensures target.changes == old(target.changes) + [TrackingStructure.ModifiedIndex(index)]
      ensures OnlyDefsChanged(old(target.Contents()), target.Contents())
    {
      var current := target.TryGetAliases(index);
      target.SetAlias(index, Some(UpdatedAlias(memoryAliases[index], current)));
    }

    /**
     * Writes the collected aliases to the target structure: each collected
     * index gets the aliases `UpdatedAlias` computes from its info and its
     * current aliases; every other definition is kept.
     */
    method UpdateAliases()
      modifies target
      ensures target.indexDefinitions == AliasesUpdated(old(target.indexDefinitions), memoryAliases, memoryAliases.Keys)
      ensures RecordsModified(old(target.changes), target.changes, memoryAliases.Keys)
      ensures OnlyDefsChanged(old(target.Contents()), target.Contents())
    {
      var todo := memoryAliases.Keys;
      ghost var done: set<MemoryIndex> := {};
      while todo != {}
        invariant todo + done == memoryAliases.Keys && todo * done == {}
        invariant target.indexDefinitions == AliasesUpdated(old(target.indexDefinitions), memoryAliases, done)
        invariant RecordsModified(old(target.changes), target.changes, done)
        invariant OnlyDefsChanged(old(target.Contents()), target.Contents())
        decreases todo
      {
        var index :| index in todo;
        AliasesUpdatedStep(old(target.indexDefinitions), memoryAliases, done, index);
        RecordsModifiedStep(old(target.changes), target.changes, done, index);
        UpdateAlias(index);
        todo := todo - {index};
        done := done + {index};
      }
    }
  }

  /**
   * `after` is `before` followed by changes that each record one of
   * `done` as modified, and every one of `done` is recorded.
   */
  predicate RecordsModified(before: seq<TrackingStructure.Change>, after: seq<TrackingStructure.Change>, done: set<MemoryIndex>) {
    && |before| <= |after| && after[..|before|] == before
    && (forall k :: |before| <= k < |after| ==> after[k].ModifiedIndex? && after[k].index in done)
    && (forall i :: i in done ==> TrackingStructure.ModifiedIndex(i) in after[|before|..])
  }

  /** Recording one more modified index. */
  lemma RecordsModifiedStep(before: seq<TrackingStructure.Change>, middle: seq<TrackingStructure.Change>,
                            done: set<MemoryIndex>, index: MemoryIndex)
    requires RecordsModified(before, middle, done)
    ensures RecordsModified(before, middle + [TrackingStructure.ModifiedIndex(index)], done + {index})
  {
    var after := middle + [TrackingStructure.ModifiedIndex(index)];
    assert after[..|before|] == middle[..|before|];
    forall i | i in done + {index} ensures TrackingStructure.ModifiedIndex(i) in after[|before|..] {
      assert after[|before|..] == middle[|before|..] + [TrackingStructure.ModifiedIndex(index)];
    }
  }

  /** Only the index definitions and the record of changes differ. */
  predicate OnlyDefsChanged(before: TrackingStructure.State, after: TrackingStructure.State) {
    && after.localLevel == before.localLevel && after.memoryStack == before.memoryStack
    && after.arrayDescriptors == before.arrayDescriptors && after.objectDescriptors == before.objectDescriptors
    && after.functionDecl == before.functionDecl && after.classDecl == before.classDecl
    && after.definitionAdded == before.definitionAdded
  }

  /**
   * After the aliases of a deleted index are deleted, writing the aliases
   * of any of its partners leaves the deleted index out, whatever the
   * partner's current aliases are.
   */
  lemma DeletedAliasDropped(infos: map<MemoryIndex, AliasInfo>, aliases: MemoryAlias, index: MemoryIndex,
                            partner: MemoryIndex, current: Option<MemoryAlias>)
    requires partner in aliases.must + aliases.may
    ensures var marked := MarkRemoved(MarkRemoved(infos, aliases.must, index), aliases.may, index);
      partner in marked
      && index !in UpdatedAlias(marked[partner], current).must
      && index !in UpdatedAlias(marked[partner], current).may
  {
    var marked := MarkRemoved(MarkRemoved(infos, aliases.must, index), aliases.may, index);
    assert index in marked[partner].removed;
  }

  /** Marking one more partner; its info is the one before any marking. */
  lemma MarkRemovedStep(infos: map<MemoryIndex, AliasInfo>, done: set<MemoryIndex>, partner: MemoryIndex, index: MemoryIndex)
    requires partner !in done
    ensures InfoOf(MarkRemoved(infos, done, index), partner) == InfoOf(infos, partner)
    ensures MarkRemoved(infos, done + {partner}, index)
            == MarkRemoved(infos, done, index)[partner := InfoOf(infos, partner).(removed := InfoOf(infos, partner).removed + {index})]
  {
  }

  /** Writing one more collected index reads its aliases as they were before the update. */
  lemma AliasesUpdatedStep(defs: map<MemoryIndex, IndexDefinition>, infos: map<MemoryIndex, AliasInfo>,
                           done: set<MemoryIndex>, index: MemoryIndex)
    requires done <= infos.Keys && index in infos && index !in done
    ensures AliasesOf(AliasesUpdated(defs, infos, done), index) == AliasesOf(defs, index)
    ensures AliasesUpdated(defs, infos, done + {index})
            == WithAliases(AliasesUpdated(defs, infos, done), index, Some(UpdatedAlias(infos[index], AliasesOf(defs, index))))
  {
  }
}
