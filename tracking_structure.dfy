/**
 * The structure container of the modular copy memory model: the memory
 * stack (one context per call level), the definitions of indexes, the
 * array and object descriptors and the function and class declarations,
 * together with the record of changes that the merge algorithms replay.
 */
module TrackingStructure {
  import opened Wrappers
  import opened MemoryIndexes

  // The messages of the errors this module reports.
  const StackLevelOutOfRange := "Given level of memory stack is out of memory stack size."
  const MissingArrayForIndex := "Missing array for index"
  const AliasValueMissing := "Missing alias value"

  /** One level of the memory stack: its unknown variable and control indexes and the arrays living there. */
  datatype StackContext = StackContext(level: int, variablesUnknown: MemoryIndex, controlsUnknown: MemoryIndex, arrays: set<nat>)

  /** What the change tracker records. */
  datatype Change =
    | InsertedIndex(index: MemoryIndex)
    | DeletedIndex(index: MemoryIndex)
    | ModifiedIndex(index: MemoryIndex)
    | ModifiedFunction(name: string)
    | ModifiedClass(name: string)

  /** The whole content of a container, so that an operation can state its new state in one clause. */
  datatype State = State(
    localLevel: int,
    memoryStack: map<int, StackContext>,
    defs: map<MemoryIndex, IndexDefinition>,
    arrayDescriptors: map<nat, ArrayDescriptor>,
    objectDescriptors: map<nat, ObjectDescriptor>,
    functionDecl: map<string, set<nat>>,
    classDecl: map<string, set<nat>>,
    changes: seq<Change>,
    definitionAdded: bool)

  /** The definitions after `NewIndex(index)`: a defined index keeps its definition. */
  function Inserted(defs: map<MemoryIndex, IndexDefinition>, index: MemoryIndex): (r: map<MemoryIndex, IndexDefinition>)
    ensures r.Keys == defs.Keys + {index}
    ensures index in defs ==> r == defs
    ensures index !in defs ==> r[index] == EmptyDefinition
    ensures forall i :: i in defs ==> r[i] == defs[i]
  {
    if index in defs then defs else defs[index := EmptyDefinition]
  }

  /** The changes `NewIndex(index)` records. */
  function InsertionChanges(defs: map<MemoryIndex, IndexDefinition>, index: MemoryIndex): seq<Change> {
    if index in defs then [] else [InsertedIndex(index)]
  }

  /** The declarations under `name`; none when the name is not declared. */
  function Declared(decls: map<string, set<nat>>, name: string): set<nat> {
    if name in decls then decls[name] else {}
  }

  class TrackingStructureContainer {
    var localLevel: int
    var memoryStack: map<int, StackContext>
    var indexDefinitions: map<MemoryIndex, IndexDefinition>
    var arrayDescriptors: map<nat, ArrayDescriptor>
    var objectDescriptors: map<nat, ObjectDescriptor>
    var functionDecl: map<string, set<nat>>
    var classDecl: map<string, set<nat>>
    var changes: seq<Change>
    var definitionAdded: bool

    function Contents(): State
      reads this
    {
      State(localLevel, memoryStack, indexDefinitions, arrayDescriptors, objectDescriptors,
            functionDecl, classDecl, changes, definitionAdded)
    }

    /** An empty container: no stack levels, no indexes and no declarations. */
    constructor CreateEmpty()
      ensures Contents() == State(GlobalCallLevel, map[], map[], map[], map[], map[], map[], [], false)
    {
      localLevel := GlobalCallLevel;
      memoryStack := map[];
      indexDefinitions := map[];
      arrayDescriptors := map[];
      objectDescriptors := map[];
      functionDecl := map[];
      classDecl := map[];
      changes := [];
      definitionAdded := false;
    }

    /** A copy with the same contents in containers of its own; its change record starts empty. */
    method Copy() returns (r: TrackingStructureContainer)
      ensures fresh(r)
      ensures r.Contents() == Contents().(changes := [], definitionAdded := false)
    {
      r := new TrackingStructureContainer.CreateEmpty();
      r.memoryStack := memoryStack;
      r.localLevel := localLevel;
      r.arrayDescriptors := arrayDescriptors;
      r.objectDescriptors := objectDescriptors;
      r.indexDefinitions := indexDefinitions;
      r.functionDecl := functionDecl;
      r.classDecl := classDecl;
    }

    // ---- Memory stack ----

    /** The local call level. */
    function CallLevel(): int
      reads this
    {
      localLevel
    }

    predicate ContainsStackWithLevel(level: int)
      reads this
    {
      level in memoryStack
    }

    /** The context of a stack level; a level that is not on the stack is an error. */
    method GetReadonlyStackContext(level: int) returns (r: Result<StackContext, string>)
      ensures r.Ok? <==> ContainsStackWithLevel(level)
      ensures r.Ok? ==> r.value == memoryStack[level]
    {
      if level in memoryStack {
        r := Ok(memoryStack[level]);
      } else {
        r := Err(StackLevelOutOfRange);
      }
    }

    /**
     * Adds the context of `level`, defining its unknown variable and control
     * indexes first. Adding a level that is already on the stack fails (the
     * dictionary refuses a second key), after the indexes were defined.
     */
    method AddStackLevel(level: int) returns (ok: bool)
      modifies this
      ensures ok <==> level !in old(memoryStack)
      ensures ContainsStackWithLevel(level)
      ensures VariableUnknown(level) in indexDefinitions && ControlUnknown(level) in indexDefinitions
      ensures var defs1 := Inserted(old(indexDefinitions), VariableUnknown(level));
        Contents() == old(Contents()).(
          memoryStack := if ok then old(memoryStack)[level := StackContext(level, VariableUnknown(level), ControlUnknown(level), {})]
                         else old(memoryStack),
          defs := Inserted(defs1, ControlUnknown(level)),
          changes := old(changes) + InsertionChanges(old(indexDefinitions), VariableUnknown(level))
                     + InsertionChanges(defs1, ControlUnknown(level)))
    {
      var context := StackContext(level, VariableUnknown(level), ControlUnknown(level), {});
      NewIndex(context.variablesUnknown);
      NewIndex(context.controlsUnknown);
      if level in memoryStack {
        ok := false;
      } else {
        memoryStack := memoryStack[level := context];
        ok := true;
      }
    }

    /** Sets the local call level; nothing else changes. */
    method SetLocalStackLevelNumber(level: int)
      modifies this
      ensures CallLevel() == level
      ensures Contents() == old(Contents()).(localLevel := level)
    {
      localLevel := level;
    }

    // ---- Indexes ----

    predicate IsDefined(index: MemoryIndex)
      reads this
    {
      index in indexDefinitions
    }

    /** Defines `index` with an empty definition; an index that is already defined is left as it is. */
    method NewIndex(index: MemoryIndex)
      modifies this
      ensures IsDefined(index)
      ensures old(IsDefined(index)) ==> Contents() == old(Contents())
      ensures !old(IsDefined(index)) ==> Contents() == old(Contents()).(
        defs := old(indexDefinitions)[index := EmptyDefinition],
        changes := old(changes) + [InsertedIndex(index)])
    {
      if index in indexDefinitions {
        return;
      }
      indexDefinitions := indexDefinitions[index := EmptyDefinition];
      changes := changes + [InsertedIndex(index)];
    }

    /** Makes `index` undefined and records the deletion. */
    method RemoveIndex(index: MemoryIndex)
      modifies this
      ensures !IsDefined(index)
      ensures Contents() == old(Contents()).(
        defs := old(indexDefinitions) - {index},
        changes := old(changes) + [DeletedIndex(index)])
    {
      indexDefinitions := indexDefinitions - {index};
      changes := changes + [DeletedIndex(index)];
    }

    // ---- Objects ----

    /** The index holds at least one object. */
    predicate HasObjects(index: MemoryIndex)
      reads this
    {
      index in indexDefinitions && indexDefinitions[index].objects.Some? && |indexDefinitions[index].objects.value| > 0
    }

    /** The objects of `index`; an undefined index, or one without an object container, holds none. */
    function GetObjects(index: MemoryIndex): (r: set<nat>)
      reads this
      ensures !IsDefined(index) ==> r == {}
      ensures IsDefined(index) && indexDefinitions[index].objects.Some? ==> r == indexDefinitions[index].objects.value
    {
      if index in indexDefinitions && indexDefinitions[index].objects.Some? then indexDefinitions[index].objects.value else {}
    }

    /** An index has objects exactly when the object container it reports is not empty. */
    lemma HasObjectsIffNonEmpty(index: MemoryIndex)
      ensures HasObjects(index) <==> GetObjects(index) != {}
    {
      if GetObjects(index) != {} {
        var o :| o in GetObjects(index);
        assert |GetObjects(index)| > 0;
      }
    }

    /** Sets the objects of `index`, defining it when needed, and records the modification. */
    method SetObjects(index: MemoryIndex, objects: set<nat>)
      modifies this
      ensures GetObjects(index) == objects
      ensures Contents() == old(Contents()).(
        defs := old(indexDefinitions)[index := DefinitionOf(old(indexDefinitions), index).(objects := Some(objects))],
        changes := old(changes) + [ModifiedIndex(index)])
    {
      var data := DefinitionOf(indexDefinitions, index);
      indexDefinitions := indexDefinitions[index := data.(objects := Some(objects))];
      changes := changes + [ModifiedIndex(index)];
    }

    /** Sets the descriptor of an object. */
    method SetObjectDescriptor(obj: nat, descriptor: ObjectDescriptor)
      modifies this
      ensures Contents() == old(Contents()).(objectDescriptors := old(objectDescriptors)[obj := descriptor])
    {
      objectDescriptors := objectDescriptors[obj := descriptor];
    }

    // ---- Arrays ----

    predicate HasArray(index: MemoryIndex)
      reads this
    {
      index in indexDefinitions && indexDefinitions[index].arrayValue.Some?
    }

    /** The array of `index`, if it holds one; it agrees with `HasArray`. */
    function TryGetArray(index: MemoryIndex): (r: Option<nat>)
      reads this
      ensures r.Some? <==> HasArray(index)
      ensures r.Some? ==> Some(r.value) == indexDefinitions[index].arrayValue
    {
      if index in indexDefinitions then indexDefinitions[index].arrayValue else None
    }

    /** The array of `index`; an index without an array is an error. */
    method GetArray(index: MemoryIndex) returns (r: Result<nat, string>)
      ensures r.Ok? <==> HasArray(index)
      ensures r.Ok? ==> TryGetArray(index) == Some(r.value)
    {
      if index in indexDefinitions && indexDefinitions[index].arrayValue.Some? {
        r := Ok(indexDefinitions[index].arrayValue.value);
      } else {
        r := Err(MissingArrayForIndex);
      }
    }

    /** Sets the descriptor of an array and records a modification of the index holding it. */
    method SetArrayDescriptor(arrayValue: nat, descriptor: ArrayDescriptor)
      modifies this
      ensures Contents() == old(Contents()).(
        arrayDescriptors := old(arrayDescriptors)[arrayValue := descriptor],
        changes := old(changes) + (if descriptor.parent.Some? then [ModifiedIndex(descriptor.parent.value)] else []))
    {
      arrayDescriptors := arrayDescriptors[arrayValue := descriptor];
      if descriptor.parent.Some? {
        changes := changes + [ModifiedIndex(descriptor.parent.value)];
      }
    }

    /**
     * Makes `index` hold `arrayValue`. The array is unregistered from the
     * stack level of its previous parent and registered at the level of
     * `index`; a level missing from the stack is an error, raised after the
     * definition was already updated.
     */
    method SetArray(index: MemoryIndex, arrayValue: nat) returns (ok: bool)
      modifies this
      ensures TryGetArray(index) == Some(arrayValue)
      ensures var oldParent := if arrayValue in old(arrayDescriptors) then old(arrayDescriptors)[arrayValue].parent else None;
        var parentLevelOk := oldParent.None? || IndexCallLevel(oldParent.value) in old(memoryStack);
        var stack1 := if oldParent.None? || !parentLevelOk then old(memoryStack)
                      else var c := old(memoryStack)[IndexCallLevel(oldParent.value)];
                           old(memoryStack)[IndexCallLevel(oldParent.value) := c.(arrays := c.arrays - {arrayValue})];
        && (ok <==> parentLevelOk && IndexCallLevel(index) in stack1)
        && Contents() == old(Contents()).(
             defs := old(indexDefinitions)[index := DefinitionOf(old(indexDefinitions), index).(arrayValue := Some(arrayValue))],
             changes := old(changes) + [ModifiedIndex(index)],
             memoryStack := if ok then stack1[IndexCallLevel(index) := stack1[IndexCallLevel(index)].(arrays := stack1[IndexCallLevel(index)].arrays + {arrayValue})]
                            else stack1)
    {
      var data := DefinitionOf(indexDefinitions, index);
      indexDefinitions := indexDefinitions[index := data.(arrayValue := Some(arrayValue))];
      changes := changes + [ModifiedIndex(index)];
      if arrayValue in arrayDescriptors && arrayDescriptors[arrayValue].parent.Some? {
        var level := IndexCallLevel(arrayDescriptors[arrayValue].parent.value);
        if level !in memoryStack {
          return false;
        }
        memoryStack := memoryStack[level := memoryStack[level].(arrays := memoryStack[level].arrays - {arrayValue})];
      }
      var level := IndexCallLevel(index);
      if level !in memoryStack {
        return false;
      }
      memoryStack := memoryStack[level := memoryStack[level].(arrays := memoryStack[level].arrays + {arrayValue})];
      ok := true;
    }

    /**
     * Drops the descriptor of `arrayValue`, makes `index` hold no array and
     * unregisters the array from the stack level of `index`; a missing level
     * is an error, raised after the rest was done.
     */
    method RemoveArray(index: MemoryIndex, arrayValue: nat) returns (ok: bool)
      modifies this
      ensures !HasArray(index) && arrayValue !in arrayDescriptors
      ensures ok <==> IndexCallLevel(index) in old(memoryStack)
      ensures Contents() == old(Contents()).(
        arrayDescriptors := old(arrayDescriptors) - {arrayValue},
        defs := old(indexDefinitions)[index := DefinitionOf(old(indexDefinitions), index).(arrayValue := None)],
        changes := old(changes) + [ModifiedIndex(index)],
        memoryStack := if ok then old(memoryStack)[IndexCallLevel(index) := old(memoryStack)[IndexCallLevel(index)].(arrays := old(memoryStack)[IndexCallLevel(index)].arrays - {arrayValue})]
                       else old(memoryStack))
    {
      arrayDescriptors := arrayDescriptors - {arrayValue};
      var data := DefinitionOf(indexDefinitions, index);
      indexDefinitions := indexDefinitions[index := data.(arrayValue := None)];
      changes := changes + [ModifiedIndex(index)];
      var level := IndexCallLevel(index);
      if level !in memoryStack {
        return false;
      }
      memoryStack := memoryStack[level := memoryStack[level].(arrays := memoryStack[level].arrays - {arrayValue})];
      ok := true;
    }

    // ---- Declarations ----

    /** Adds one declaration of a function. */
    method AddFunctionDeclaration(name: string, declaration: nat)
      modifies this
      ensures Contents() == old(Contents()).(
        functionDecl := old(functionDecl)[name := Declared(old(functionDecl), name) + {declaration}],
        definitionAdded := true,
        changes := old(changes) + [ModifiedFunction(name)])
    {
      functionDecl := functionDecl[name := Declared(functionDecl, name) + {declaration}];
      definitionAdded := true;
      changes := changes + [ModifiedFunction(name)];
    }

    /** Replaces all declarations of a function. */
    method SetFunctionDeclarations(name: string, declarations: set<nat>)
      modifies this
      ensures Contents() == old(Contents()).(
        functionDecl := old(functionDecl)[name := declarations],
        definitionAdded := true,
        changes := old(changes) + [ModifiedFunction(name)])
    {
      functionDecl := functionDecl[name := declarations];
      definitionAdded := true;
      changes := changes + [ModifiedFunction(name)];
    }

    /** Adds one declaration of a class. */
    method AddClassDeclaration(name: string, declaration: nat)
      modifies this
      ensures Contents() == old(Contents()).(
        classDecl := old(classDecl)[name := Declared(old(classDecl), name) + {declaration}],
        definitionAdded := true,
        changes := old(changes) + [ModifiedClass(name)])
    {
      classDecl := classDecl[name := Declared(classDecl, name) + {declaration}];
      definitionAdded := true;
      changes := changes + [ModifiedClass(name)];
    }

    /** Replaces all declarations of a class. */
    method SetClassDeclarations(name: string, declarations: set<nat>)
      modifies this
      ensures Contents() == old(Contents()).(
        classDecl := old(classDecl)[name := declarations],
        definitionAdded := true,
        changes := old(changes) + [ModifiedClass(name)])
    {
      classDecl := classDecl[name := declarations];
      definitionAdded := true;
      changes := changes + [ModifiedClass(name)];
    }

    // ---- Aliases ----

    function TryGetAliases(index: MemoryIndex): Option<MemoryAlias>
      reads this
    {
      AliasesOf(indexDefinitions, index)
    }

    /** The aliases of `index`; an index without aliases is an error. */
    method GetAliases(index: MemoryIndex) returns (r: Result<MemoryAlias, string>)
      ensures r.Ok? <==> TryGetAliases(index).Some?
      ensures r.Ok? ==> TryGetAliases(index) == Some(r.value)
    {
      if index in indexDefinitions && indexDefinitions[index].aliases.Some? {
        r := Ok(indexDefinitions[index].aliases.value);
      } else {
        r := Err(AliasValueMissing);
      }
    }

    /** Sets (or, with `None`, clears) the aliases of `index`, defining it when needed. */
    method SetAlias(index: MemoryIndex, alias: Option<MemoryAlias>)
      modifies this
      ensures TryGetAliases(index) == alias
      ensures Contents() == old(Contents()).(
        defs := WithAliases(old(indexDefinitions), index, alias),
        changes := old(changes) + [ModifiedIndex(index)])
    {
      var data := DefinitionOf(indexDefinitions, index);
      indexDefinitions := indexDefinitions[index := data.(aliases := alias)];
      changes := changes + [ModifiedIndex(index)];
    }

    /** Removing the aliases is setting them to none; the modification is recorded once more. */
    method RemoveAlias(index: MemoryIndex)
      modifies this
      ensures TryGetAliases(index).None?
      ensures Contents() == old(Contents()).(
        defs := WithAliases(old(indexDefinitions), index, None),
        changes := old(changes) + [ModifiedIndex(index), ModifiedIndex(index)])
    {
      SetAlias(index, None);
      changes := changes + [ModifiedIndex(index)];
    }
  }
}
