/**
 * The alias entries of the memory models as values: what adding must and
 * may aliases does to an entry, and what destroying the aliases of an
 * index does to the entries of its partners.
 *
 * The newer modular snapshot never lets an index alias itself; the older
 * snapshots and the merge workers add whatever they are given. Both are
 * here, the older one under the name `...AsWritten`.
 */
module MemoryAliases {
  import opened Wrappers
  import opened MemoryIndexes

  /** The index named by an optional argument, unless it is `index` itself. */
  function OtherThan(x: Option<MemoryIndex>, index: MemoryIndex): set<MemoryIndex> {
    if x.Some? && x.value != index then {x.value} else {}
  }

  /** The index named by an optional argument. */
  function Given(x: Option<MemoryIndex>): set<MemoryIndex> {
    if x.Some? then {x.value} else {}
  }

  /** The elements of an optional sequence other than `index`. */
  function OptionalWithout(s: Option<seq<MemoryIndex>>, index: MemoryIndex): set<MemoryIndex> {
    if s.Some? then Without(s.value, index) else {}
  }

  /** The elements of an optional sequence. */
  function OptionalElements(s: Option<seq<MemoryIndex>>): set<MemoryIndex> {
    if s.Some? then Elements(s.value) else {}
  }

  /**
   * The entry of `index` after adding one must alias and one may alias
   * (either may be absent). The must alias moves out of the may set; the may
   * alias is added only when it is not a must alias; `index` itself is
   * never added.
   */
  function AliasAdded(index: MemoryIndex, a: MemoryAlias, mustAlias: Option<MemoryIndex>, mayAlias: Option<MemoryIndex>): (r: MemoryAlias)
    ensures r.must == a.must + OtherThan(mustAlias, index)
    ensures forall m :: m in OtherThan(mustAlias, index) ==> m !in r.may
    ensures forall y :: y in OtherThan(mayAlias, index) && Disjoint(a) ==> (y in r.may <==> y !in r.must)
    ensures r.may - OtherThan(mayAlias, index) <= a.may
    ensures a.may - OtherThan(mustAlias, index) <= r.may
    ensures Disjoint(a) ==> Disjoint(r)
    ensures SelfFree(index, a) ==> SelfFree(index, r)
  {
    var must := a.must + OtherThan(mustAlias, index);
    var may0 := a.may - OtherThan(mustAlias, index);
    var may := if mayAlias.Some? && mayAlias.value != index && mayAlias.value !in must then may0 + {mayAlias.value} else may0;
    MemoryAlias(must, may)
  }

  /** The same as `AliasAdded`, without the exclusion of `index` itself. */
  function AliasAddedAsWritten(a: MemoryAlias, mustAlias: Option<MemoryIndex>, mayAlias: Option<MemoryIndex>): (r: MemoryAlias)
    ensures r.must == a.must + Given(mustAlias)
    ensures forall m :: m in Given(mustAlias) ==> m !in r.may
    ensures r.may - Given(mayAlias) <= a.may
    ensures a.may - Given(mustAlias) <= r.may
    ensures Disjoint(a) ==> Disjoint(r)
  {
    var must := a.must + Given(mustAlias);
    var may0 := a.may - Given(mustAlias);
    var may := if mayAlias.Some? && mayAlias.value !in must then may0 + {mayAlias.value} else may0;
    MemoryAlias(must, may)
  }

  /** Adding `index` as its own must alias makes the entry name `index`. */
  lemma AliasAddedAsWrittenAliasesItself(index: MemoryIndex)
    ensures !SelfFree(index, AliasAddedAsWritten(NoAliases, Some(index), None))
  {
    assert index in Given(Some(index));
  }

  /** The newer `AddAlias` keeps every entry free of the index it belongs to. */
  lemma AliasAddedKeepsSelfFree(index: MemoryIndex, a: MemoryAlias, mustAlias: Option<MemoryIndex>, mayAlias: Option<MemoryIndex>)
    requires SelfFree(index, a)
    ensures SelfFree(index, AliasAdded(index, a, mustAlias, mayAlias))
  {
  }

  /**
   * The entry of `index` after adding sequences of must and may aliases:
   * both sets grow by the given elements other than `index`, then every
   * must alias is removed from the may set.
   */
  function AliasesAdded(index: MemoryIndex, a: MemoryAlias, mustAliases: Option<seq<MemoryIndex>>, mayAliases: Option<seq<MemoryIndex>>): (r: MemoryAlias)
    ensures Disjoint(r)
    ensures r.must == a.must + OptionalWithout(mustAliases, index)
    ensures r.may == (a.may + OptionalWithout(mayAliases, index)) - r.must
    ensures SelfFree(index, a) ==> SelfFree(index, r)
  {
    var must := a.must + OptionalWithout(mustAliases, index);
    MemoryAlias(must, (a.may + OptionalWithout(mayAliases, index)) - must)
  }

  /** The same as `AliasesAdded`, without the exclusion of `index` itself. */
  function AliasesAddedAsWritten(a: MemoryAlias, mustAliases: Option<seq<MemoryIndex>>, mayAliases: Option<seq<MemoryIndex>>): (r: MemoryAlias)
    ensures Disjoint(r)
    ensures r.must == a.must + OptionalElements(mustAliases)
    ensures r.may == (a.may + OptionalElements(mayAliases)) - r.must
  {
    var must := a.must + OptionalElements(mustAliases);
    MemoryAlias(must, (a.may + OptionalElements(mayAliases)) - must)
  }

  /**
   * The entry of a partner after `index` stops being its must alias
   * (`asMust`) or its may alias: the entry disappears when it counts a
   * single alias of that kind and none of the other, otherwise `index` is
   * removed from that set.
   */
  function Detached(a: Option<MemoryAlias>, index: MemoryIndex, asMust: bool): (r: Option<MemoryAlias>)
    ensures r.None? <==> a.None? || (asMust && |a.value.must| == 1 && |a.value.may| == 0)
                                 || (!asMust && |a.value.must| == 0 && |a.value.may| == 1)
    ensures r.Some? && asMust ==> index !in r.value.must && r.value.must == a.value.must - {index} && r.value.may == a.value.may
    ensures r.Some? && !asMust ==> index !in r.value.may && r.value.may == a.value.may - {index} && r.value.must == a.value.must
  {
    match a
    case None => None
    case Some(e) =>
      if asMust then
        if |e.must| == 1 && |e.may| == 0 then None else Some(MemoryAlias(e.must - {index}, e.may))
      else
        if |e.must| == 0 && |e.may| == 1 then None else Some(MemoryAlias(e.must, e.may - {index}))
  }

  /** A partner whose only alias was `index` loses its entry, and one that keeps an entry no longer names `index`. */
  lemma DetachedForgetsIndex(a: MemoryAlias, index: MemoryIndex, asMust: bool)
    ensures asMust && a.must == {index} && a.may == {} ==> Detached(Some(a), index, asMust).None?
    ensures !asMust && a.must == {} && a.may == {index} ==> Detached(Some(a), index, asMust).None?
    ensures var r := Detached(Some(a), index, asMust);
            r.Some? ==> (if asMust then index !in r.value.must else index !in r.value.may)
  {
    if asMust && a.must == {index} {
      assert |a.must| == 1;
    }
    if !asMust && a.may == {index} {
      assert |a.may| == 1;
    }
  }

  /** The definitions after each partner in `partners` was detached from `index` (as a must or a may alias). */
  function DetachedAll(defs: map<MemoryIndex, IndexDefinition>, index: MemoryIndex, partners: set<MemoryIndex>, asMust: bool): (r: map<MemoryIndex, IndexDefinition>)
    ensures r.Keys == defs.Keys
    ensures forall p :: p in defs && p !in partners ==> r[p] == defs[p]
  {
    map p | p in defs :: if p in partners then defs[p].(aliases := Detached(defs[p].aliases, index, asMust)) else defs[p]
  }

  /** Every partner has an alias entry to detach from. */
  predicate AllAliased(defs: map<MemoryIndex, IndexDefinition>, partners: set<MemoryIndex>) {
    forall p :: p in partners ==> p in defs && defs[p].aliases.Some?
  }

  /**
   * The definitions after destroying the aliases `a` of `index`: first each
   * must partner, then each may partner, is detached from `index`. The
   * entry of `index` itself is left as it was.
   */
  function Destroyed(defs: map<MemoryIndex, IndexDefinition>, index: MemoryIndex, a: MemoryAlias): map<MemoryIndex, IndexDefinition> {
    DetachedAll(DetachedAll(defs, index, a.must, true), index, a.may, false)
  }

  /** Destroying the aliases of `index` leaves no partner entry naming `index` in the matching set. */
  lemma DestroyedForgetsIndex(defs: map<MemoryIndex, IndexDefinition>, index: MemoryIndex, a: MemoryAlias, p: MemoryIndex)
    requires Disjoint(a) && p in defs && p in a.must + a.may
    ensures var d := Destroyed(defs, index, a)[p].aliases;
            d.Some? ==> (p in a.must ==> index !in d.value.must) && (p in a.may ==> index !in d.value.may)
  {
    var d1 := DetachedAll(defs, index, a.must, true);
    if p in a.must {
      assert p !in a.may by {
        assert p in a.must * a.may ==> false;
      }
      assert Destroyed(defs, index, a)[p] == d1[p];
    } else {
      assert d1[p] == defs[p];
    }
  }

  /** The current alias entry of `index`, or an empty one. */
  function CurrentAlias(defs: map<MemoryIndex, IndexDefinition>, index: MemoryIndex): MemoryAlias {
    match AliasesOf(defs, index)
    case Some(a) => a
    case None => NoAliases
  }

  /** No alias entry names the index it belongs to. */
  predicate AliasesSelfFree(defs: map<MemoryIndex, IndexDefinition>) {
    forall i :: i in defs && defs[i].aliases.Some? ==> SelfFree(i, defs[i].aliases.value)
  }

  /** The definitions after destroying the aliases of `index`, if it has any. */
  function DestroyedAliases(defs: map<MemoryIndex, IndexDefinition>, index: MemoryIndex): map<MemoryIndex, IndexDefinition> {
    match AliasesOf(defs, index)
    case Some(a) => Destroyed(defs, index, a)
    case None => defs
  }

  /** Destroying the aliases of `index` succeeds when every partner still has an alias entry when it is visited. */
  predicate CanDestroy(defs: map<MemoryIndex, IndexDefinition>, index: MemoryIndex) {
    match AliasesOf(defs, index)
    case Some(a) => AllAliased(defs, a.must) && AllAliased(DetachedAll(defs, index, a.must, true), a.may)
    case None => true
  }

  /** Replacing the entry of one partner by its detached entry extends the set of detached partners by one. */
  lemma DetachedAllStep(defs: map<MemoryIndex, IndexDefinition>, index: MemoryIndex, done: set<MemoryIndex>, p: MemoryIndex, asMust: bool)
    requires p in defs && p !in done
    ensures WithAliases(DetachedAll(defs, index, done, asMust), p, Detached(defs[p].aliases, index, asMust))
            == DetachedAll(defs, index, done + {p}, asMust)
  {
    var left := WithAliases(DetachedAll(defs, index, done, asMust), p, Detached(defs[p].aliases, index, asMust));
    var right := DetachedAll(defs, index, done + {p}, asMust);
    assert left.Keys == right.Keys;
    forall k | k in left.Keys
      ensures left[k] == right[k]
    {
    }
  }

  /** Detaching keeps every entry free of its own index. */
  lemma DetachedAllSelfFree(defs: map<MemoryIndex, IndexDefinition>, index: MemoryIndex, partners: set<MemoryIndex>, asMust: bool)
    requires AliasesSelfFree(defs)
    ensures AliasesSelfFree(DetachedAll(defs, index, partners, asMust))
  {
    var r := DetachedAll(defs, index, partners, asMust);
    forall i | i in r && r[i].aliases.Some?
      ensures SelfFree(i, r[i].aliases.value)
    {
      if i in partners {
        assert r[i].aliases == Detached(defs[i].aliases, index, asMust);
      }
    }
  }

  /** The entry `MustSetAliases` builds: exactly the given aliases other than `index`. */
  function MustSet(index: MemoryIndex, mustAliases: seq<MemoryIndex>, mayAliases: seq<MemoryIndex>): (r: MemoryAlias)
    ensures SelfFree(index, r)
    ensures forall x :: x in mustAliases ==> x == index || x in r.must
    ensures forall x :: x in mayAliases ==> x == index || x in r.may
    ensures r.must <= Elements(mustAliases) && r.may <= Elements(mayAliases)
  {
    MemoryAlias(Without(mustAliases, index), Without(mayAliases, index))
  }
}
