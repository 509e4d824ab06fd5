/**
 * The locations of the modular and copy memory models: memory indexes,
 * their alias entries, and the descriptors of arrays and objects.
 *
 * A memory index is a root (a variable or control variable of some call
 * level, an object, or a temporary) followed by a path of child names;
 * `None` in the path is the unknown child, which stands for every name
 * that has no index of its own.
 */
module MemoryIndexes {
  import opened Wrappers
  import Values

  /** The call level of global code. */
  const GlobalCallLevel: int := 0

  datatype IndexRoot =
    | VariableRoot(level: int)
    | ControlRoot(level: int)
    | ObjectRoot(obj: nat)
    | TemporaryRoot(level: int, id: nat)

  datatype MemoryIndex = MemoryIndex(root: IndexRoot, path: seq<Option<string>>)

  /** The call level an index lives at; object fields belong to no stack frame and live at the global level. */
  function IndexCallLevel(index: MemoryIndex): int {
    if index.root.ObjectRoot? then GlobalCallLevel else index.root.level
  }

  /** The index of the child `name` of `index` (an array element or a field). */
  function ChildIndex(index: MemoryIndex, name: string): (r: MemoryIndex)
    ensures r.root == index.root && |r.path| == |index.path| + 1 && r.path[..|index.path|] == index.path
    ensures IndexCallLevel(r) == IndexCallLevel(index) && r != index
  {
    MemoryIndex(index.root, index.path + [Some(name)])
  }

  /** The index of the unknown child of `index`. */
  function UnknownChild(index: MemoryIndex): (r: MemoryIndex)
    ensures r.root == index.root && |r.path| == |index.path| + 1 && r.path[..|index.path|] == index.path
    ensures IndexCallLevel(r) == IndexCallLevel(index) && r != index
    ensures forall name :: r != ChildIndex(index, name)
  {
    MemoryIndex(index.root, index.path + [None])
  }

  function VariableUnknown(level: int): MemoryIndex { MemoryIndex(VariableRoot(level), [None]) }
  function ControlUnknown(level: int): MemoryIndex { MemoryIndex(ControlRoot(level), [None]) }
  function ObjectUnknown(obj: nat): MemoryIndex { MemoryIndex(ObjectRoot(obj), [None]) }
  function FieldIndex(obj: nat, name: string): MemoryIndex { MemoryIndex(ObjectRoot(obj), [Some(name)]) }

  /** The values a memory location may hold. */
  type Entry = set<Values.Value>

  /** The must and may aliases of one index. */
  datatype MemoryAlias = MemoryAlias(must: set<MemoryIndex>, may: set<MemoryIndex>)

  const NoAliases := MemoryAlias({}, {})

  /** No index is both a must and a may alias. */
  predicate Disjoint(a: MemoryAlias) { a.must * a.may == {} }

  /** The entry of `index` does not name `index` itself. */
  predicate SelfFree(index: MemoryIndex, a: MemoryAlias) { index !in a.must && index !in a.may }

  /** The descriptor of an array: the index holding it, its unknown index and its named indexes. */
  datatype ArrayDescriptor = ArrayDescriptor(parent: Option<MemoryIndex>, unknown: MemoryIndex, indexes: map<string, MemoryIndex>)

  /** The descriptor of an object: its class, its unknown field and its named fields. */
  datatype ObjectDescriptor = ObjectDescriptor(typeName: string, unknown: MemoryIndex, fields: map<string, MemoryIndex>)

  /** The structural data of one index: its aliases, the array it holds and the objects it holds. */
  datatype IndexDefinition = IndexDefinition(aliases: Option<MemoryAlias>, arrayValue: Option<nat>, objects: Option<set<nat>>)

  const EmptyDefinition := IndexDefinition(None, None, None)

  /** The definition of `index`, or a fresh empty one when the index is not defined. */
  function DefinitionOf(defs: map<MemoryIndex, IndexDefinition>, index: MemoryIndex): IndexDefinition {
    if index in defs then defs[index] else EmptyDefinition
  }

  /** The aliases of `index`; an undefined index and a definition without aliases both have none. */
  function AliasesOf(defs: map<MemoryIndex, IndexDefinition>, index: MemoryIndex): (r: Option<MemoryAlias>)
    ensures r.Some? <==> index in defs && defs[index].aliases.Some?
  {
    if index in defs then defs[index].aliases else None
  }

  /** The definitions after the aliases of `index` are set to `a`; the index becomes defined. */
  function WithAliases(defs: map<MemoryIndex, IndexDefinition>, index: MemoryIndex, a: Option<MemoryAlias>): (r: map<MemoryIndex, IndexDefinition>)
    ensures r.Keys == defs.Keys + {index}
    ensures AliasesOf(r, index) == a
    ensures r[index].arrayValue == DefinitionOf(defs, index).arrayValue
    ensures r[index].objects == DefinitionOf(defs, index).objects
    ensures forall i :: i in defs && i != index ==> r[i] == defs[i]
  {
    defs[index := DefinitionOf(defs, index).(aliases := a)]
  }

  /** The elements of `s` other than `x`. */
  function Without(s: seq<MemoryIndex>, x: MemoryIndex): set<MemoryIndex> {
    set y | y in s && y != x
  }

  /** The elements of `s`. */
  function Elements(s: seq<MemoryIndex>): set<MemoryIndex> {
    set y | y in s
  }
}
