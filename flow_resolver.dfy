/**
 * The flow resolver: which branch an assumption enters, where thrown values
 * go, how a catch unwinds the stack of try blocks, and how an include picks
 * the program-point graph of the included file.
 */
module FlowResolver {
  import opened Wrappers
  import Values
  import FunctionResolver
  import AssumptionExecuter
  import CSharp

  // ----- the stack of try blocks -----

  /** A catch block: where it starts, the type it catches and the variable it binds. */
  datatype CatchBlock = CatchBlock(target: nat, caughtType: string, variable: string)

  /** The catch blocks of the enclosing try statements, innermost last. */
  datatype TryBlockStack = TryBlockStack(blocks: seq<seq<CatchBlock>>)

  /** The constructor from a stack and the catch blocks of one more try statement. */
  function Push(stack: TryBlockStack, catchBlocks: seq<CatchBlock>): (r: TryBlockStack)
    ensures |r.blocks| == |stack.blocks| + 1
    ensures r.blocks[..|stack.blocks|] == stack.blocks && r.blocks[|stack.blocks|] == catchBlocks
  {
    TryBlockStack(stack.blocks + [catchBlocks])
  }

  /** `Pop` removes the innermost level; on an empty stack `RemoveAt(-1)` throws. */
  function Pop(stack: TryBlockStack): (r: Option<TryBlockStack>)
    ensures r.None? <==> |stack.blocks| == 0
    ensures r.Some? ==> |r.value.blocks| == |stack.blocks| - 1 && r.value.blocks == stack.blocks[..|stack.blocks| - 1]
  {
    if |stack.blocks| == 0 then None else Some(TryBlockStack(stack.blocks[..|stack.blocks| - 1]))
  }

  lemma PopUndoesPush(stack: TryBlockStack, catchBlocks: seq<CatchBlock>)
    ensures Pop(Push(stack, catchBlocks)) == Some(stack)
  {
  }

  lemma PushUndoesPop(stack: TryBlockStack)
    requires |stack.blocks| > 0
    ensures Pop(stack).Some? && Push(Pop(stack).value, stack.blocks[|stack.blocks| - 1]) == stack
  {
  }

  /** `TryBlockStack.Equals` as written: each level of this stack is compared with the same level of this stack. */
  method EqualsAsWritten(self: TryBlockStack, other: TryBlockStack) returns (r: bool)
    ensures r <==> |self.blocks| == |other.blocks|
  {
    if |self.blocks| != |other.blocks| {
      return false;
    }
    var i := 0;
    while i < |self.blocks|
      invariant 0 <= i <= |self.blocks|
    {
      var thisBlocks := self.blocks[i];
      var otherBlocks := self.blocks[i];
      if |thisBlocks| != |otherBlocks| {
        return false;
      }
      var j := 0;
      while j < |thisBlocks|
        invariant 0 <= j <= |thisBlocks|
      {
        if thisBlocks[j] != otherBlocks[j] {
          return false;
        }
        j := j + 1;
      }
      i := i + 1;
    }
    return true;
  }

  /** Two stacks of the same depth but different catch blocks that the written comparison calls equal. */
  method EqualsAsWrittenConfusesStacks() returns (a: TryBlockStack, b: TryBlockStack, judgedEqual: bool)
    ensures a != b && judgedEqual
  {
    a := TryBlockStack([[CatchBlock(1, "LogicException", "e")]]);
    b := TryBlockStack([[CatchBlock(2, "RuntimeException", "e")]]);
    judgedEqual := EqualsAsWritten(a, b);
  }

  /** `TryBlockStack.Equals` comparing each level of this stack with the level of the other. */
  method Equals(self: TryBlockStack, other: TryBlockStack) returns (r: bool)
    ensures r <==> self == other
    ensures |self.blocks| != |other.blocks| ==> !r
  {
    if |self.blocks| != |other.blocks| {
      return false;
    }
    var i := 0;
    while i < |self.blocks|
      invariant 0 <= i <= |self.blocks|
      invariant self.blocks[..i] == other.blocks[..i]
    {
      var thisBlocks := self.blocks[i];
      var otherBlocks := other.blocks[i];
      if |thisBlocks| != |otherBlocks| {
        return false;
      }
      var j := 0;
      while j < |thisBlocks|
        invariant 0 <= j <= |thisBlocks|
        invariant thisBlocks[..j] == otherBlocks[..j]
      {
        if thisBlocks[j] != otherBlocks[j] {
          return false;
        }
        j := j + 1;
      }
      assert thisBlocks == thisBlocks[..j] == otherBlocks[..j] == otherBlocks;
      assert self.blocks[..i + 1] == self.blocks[..i] + [thisBlocks];
      assert other.blocks[..i + 1] == other.blocks[..i] + [otherBlocks];
      i := i + 1;
    }
    assert self.blocks == self.blocks[..i] && other.blocks == other.blocks[..i];
    return true;
  }

  /** `TryScopeStart`: every possible stack gets the catch blocks of the try statement entered. */
  method TryScopeStart(stacks: seq<TryBlockStack>, catchBlockStarts: seq<CatchBlock>) returns (result: seq<TryBlockStack>)
    ensures |result| == |stacks|
    ensures forall k :: 0 <= k < |stacks| ==> result[k] == Push(stacks[k], catchBlockStarts)
  {
    result := [];
    var k := 0;
    while k < |stacks|
      invariant 0 <= k <= |stacks| && |result| == k
      invariant forall j :: 0 <= j < k ==> result[j] == Push(stacks[j], catchBlockStarts)
    {
      result := result + [Push(stacks[k], catchBlockStarts)];
      k := k + 1;
    }
  }

  /** `TryScopeEnd`: every possible stack loses its innermost level; an empty one makes `Pop` throw. */
  method TryScopeEnd(stacks: seq<TryBlockStack>) returns (result: Option<seq<TryBlockStack>>)
    ensures result.None? <==> exists k :: 0 <= k < |stacks| && |stacks[k].blocks| == 0
    ensures result.Some? ==> |result.value| == |stacks|
    ensures result.Some? ==> forall k :: 0 <= k < |stacks| ==> Some(result.value[k]) == Pop(stacks[k])
  {
    var popped: seq<TryBlockStack> := [];
    var k := 0;
    while k < |stacks|
      invariant 0 <= k <= |stacks| && |popped| == k
      invariant forall j :: 0 <= j < k ==> |stacks[j].blocks| > 0 && Some(popped[j]) == Pop(stacks[j])
    {
      var p := Pop(stacks[k]);
      if p.None? {
        return None;
      }
      popped := popped + [p.value];
      k := k + 1;
    }
    return Some(popped);
  }

  // ----- merging the possible stacks -----

  /** The catch blocks of one level. */
  function Elements(level: seq<CatchBlock>): set<CatchBlock>
  {
    set b | b in level
  }

  /**
   * One more possible stack merged into the levels: the levels are created
   * from the first stack that has any, and a deeper stack later on indexes
   * past the end of the list (None).
   */
  function AddStack(levels: seq<set<CatchBlock>>, stack: TryBlockStack): Option<seq<set<CatchBlock>>>
  {
    var base: seq<set<CatchBlock>> := if |levels| == 0 then seq(|stack.blocks|, _ => {}) else levels;
    if |stack.blocks| > |base| then None
    else Some(seq(|base|, i requires 0 <= i < |base| =>
      base[i] + if i < |stack.blocks| then Elements(stack.blocks[i]) else {}))
  }

  /** The catch blocks of every possible stack, level by level, as `Throw` and `Catch` merge them. */
  function MergedLevels(stacks: seq<TryBlockStack>): Option<seq<set<CatchBlock>>>
  {
    if |stacks| == 0 then Some([])
    else
      match MergedLevels(stacks[..|stacks| - 1])
      case None => None
      case Some(levels) => AddStack(levels, stacks[|stacks| - 1])
  }

  /** The depth of the first possible stack that is not empty. */
  function FirstDepth(stacks: seq<TryBlockStack>): nat
  {
    if |stacks| == 0 then 0
    else
      var d := FirstDepth(stacks[..|stacks| - 1]);
      if d == 0 then |stacks[|stacks| - 1].blocks| else d
  }

  /** `b` is a catch block at level `i` of the `k`-th possible stack. */
  predicate HoldsAt(stacks: seq<TryBlockStack>, k: int, i: int, b: CatchBlock)
  {
    0 <= k < |stacks| && 0 <= i < |stacks[k].blocks| && b in stacks[k].blocks[i]
  }

  lemma {:induction false} FirstDepthZero(stacks: seq<TryBlockStack>)
    ensures FirstDepth(stacks) == 0 <==> forall k :: 0 <= k < |stacks| ==> |stacks[k].blocks| == 0
  {
    if |stacks| > 0 {
      var init := stacks[..|stacks| - 1];
      FirstDepthZero(init);
      assert forall k :: 0 <= k < |init| ==> init[k] == stacks[k];
    }
  }

  /** The merge fails exactly when some stack is deeper than the first non-empty one, and has that depth otherwise. */
  lemma {:induction false} MergedDepth(stacks: seq<TryBlockStack>)
    ensures MergedLevels(stacks).None? <==> exists k :: 0 <= k < |stacks| && |stacks[k].blocks| > FirstDepth(stacks)
    ensures MergedLevels(stacks).Some? ==> |MergedLevels(stacks).value| == FirstDepth(stacks)
  {
    if |stacks| > 0 {
      var init := stacks[..|stacks| - 1];
      var last := stacks[|stacks| - 1];
      MergedDepth(init);
      FirstDepthZero(init);
      assert forall k :: 0 <= k < |init| ==> init[k] == stacks[k];
      if MergedLevels(init).None? {
        var k :| 0 <= k < |init| && |init[k].blocks| > FirstDepth(init);
        assert FirstDepth(init) != 0;
        assert |stacks[k].blocks| > FirstDepth(stacks);
      } else if FirstDepth(init) == 0 {
        assert forall k :: 0 <= k < |init| ==> |stacks[k].blocks| == 0;
      } else {
        assert FirstDepth(stacks) == FirstDepth(init);
        if exists k :: 0 <= k < |stacks| && |stacks[k].blocks| > FirstDepth(stacks) {
          var k :| 0 <= k < |stacks| && |stacks[k].blocks| > FirstDepth(stacks);
          assert k == |stacks| - 1;
        }
      }
    }
  }

  /** Each merged level holds exactly the catch blocks the possible stacks hold at that level. */
  lemma {:induction false} MergedContents(stacks: seq<TryBlockStack>, levels: seq<set<CatchBlock>>)
    requires MergedLevels(stacks) == Some(levels)
    ensures forall k, i, b :: HoldsAt(stacks, k, i, b) ==> i < |levels| && b in levels[i]
    ensures forall i, b :: 0 <= i < |levels| && b in levels[i] ==> exists k :: HoldsAt(stacks, k, i, b)
  {
    if |stacks| > 0 {
      var n := |stacks| - 1;
      var init := stacks[..n];
      var before := MergedLevels(init).value;
      MergedContents(init, before);
      forall k, i, b | HoldsAt(stacks, k, i, b)
        ensures i < |levels| && b in levels[i]
      {
        if k < n {
          assert HoldsAt(init, k, i, b);
        }
      }
      forall i, b | 0 <= i < |levels| && b in levels[i]
        ensures exists k :: HoldsAt(stacks, k, i, b)
      {
        if |before| != 0 && b in before[i] {
          var k :| HoldsAt(init, k, i, b);
          assert HoldsAt(stacks, k, i, b);
        } else {
          assert HoldsAt(stacks, n, i, b);
        }
      }
    }
  }

  lemma {:induction false} MergeFailurePersists(stacks: seq<TryBlockStack>, k: nat)
    requires k <= |stacks| && MergedLevels(stacks[..k]).None?
    ensures MergedLevels(stacks).None?
    decreases |stacks| - k
  {
    if k < |stacks| {
      assert stacks[..k + 1][..k] == stacks[..k];
      MergeFailurePersists(stacks, k + 1);
    } else {
      assert stacks[..k] == stacks;
    }
  }

  /** The merge of the possible stacks that `Throw` and `Catch` both start with. */
  method MergeStacks(stacks: seq<TryBlockStack>) returns (merged: Option<seq<set<CatchBlock>>>)
    ensures merged == MergedLevels(stacks)
  {
    var levels: seq<set<CatchBlock>> := [];
    var k := 0;
    while k < |stacks|
      invariant 0 <= k <= |stacks|
      invariant MergedLevels(stacks[..k]) == Some(levels)
    {
      assert stacks[..k + 1][..k] == stacks[..k];
      var stack := stacks[k];
      ghost var before := levels;
      if |levels| == 0 {
        var i := 0;
        while i < |stack.blocks|
          invariant 0 <= i <= |stack.blocks| && |levels| == i
          invariant forall j :: 0 <= j < i ==> levels[j] == {}
        {
          levels := levels + [{}];
          i := i + 1;
        }
      }
      if |stack.blocks| > |levels| {
        MergeFailurePersists(stacks, k + 1);
        return None;
      }
      ghost var base := levels;
      assert base == if |before| == 0 then seq(|stack.blocks|, _ => {}) else before;
      var i := 0;
      while i < |stack.blocks|
        invariant 0 <= i <= |stack.blocks| && |levels| == |base|
        invariant forall j :: 0 <= j < |base| ==> levels[j] == base[j] + if j < i then Elements(stack.blocks[j]) else {}
      {
        levels := levels[i := levels[i] + Elements(stack.blocks[i])];
        i := i + 1;
      }
      assert levels == seq(|base|, j requires 0 <= j < |base| =>
        base[j] + if j < |stack.blocks| then Elements(stack.blocks[j]) else {});
      k := k + 1;
    }
    assert stacks[..|stacks|] == stacks;
    merged := Some(levels);
  }

  // ----- catch -----

  /** A level declares a catch of the type. */
  predicate Declares(level: set<CatchBlock>, caughtType: string)
  {
    exists b :: b in level && b.caughtType == caughtType
  }

  /** The levels left once the innermost level declaring the type, and every level inside it, are popped. */
  function UnwoundLevels(levels: seq<set<CatchBlock>>, caughtType: string): seq<set<CatchBlock>>
  {
    if |levels| == 0 then []
    else if Declares(levels[|levels| - 1], caughtType) then levels[..|levels| - 1]
    else UnwoundLevels(levels[..|levels| - 1], caughtType)
  }

  /**
   * Catching a type keeps the levels below the innermost level that declares
   * it; every level above does not declare it; when no level declares it the
   * whole stack is popped.
   */
  lemma {:induction false} UnwindingPopsToTheCatch(levels: seq<set<CatchBlock>>, caughtType: string)
    ensures var r := UnwoundLevels(levels, caughtType);
      |r| <= |levels| && r == levels[..|r|] &&
      (|levels| > 0 ==> |r| < |levels|) &&
      (forall i :: |r| < i < |levels| ==> !Declares(levels[i], caughtType)) &&
      ((exists i :: 0 <= i < |levels| && Declares(levels[i], caughtType)) ==> Declares(levels[|r|], caughtType)) &&
      ((forall i :: 0 <= i < |levels| ==> !Declares(levels[i], caughtType)) ==> r == [])
  {
    if |levels| > 0 {
      var init := levels[..|levels| - 1];
      UnwindingPopsToTheCatch(init, caughtType);
      var r := UnwoundLevels(levels, caughtType);
      if !Declares(levels[|levels| - 1], caughtType) {
        assert r == UnwoundLevels(init, caughtType);
        assert init[..|r|] == levels[..|r|];
        assert forall i :: 0 <= i < |init| ==> init[i] == levels[i];
      }
    }
  }

  datatype CatchResult =
    /** A catch with an empty type name does nothing. */
    | Ignored
    /** The stack written back; the catch variable receives the thrown value. */
    | Unwound(stack: seq<set<CatchBlock>>)

  /** `Catch`: the stack of try blocks after a catch of `caughtType`; a failed merge is the exception the source throws. */
  method Catch(caughtType: string, stacks: seq<TryBlockStack>) returns (r: Result<CatchResult, string>)
    ensures caughtType == "" ==> r == Ok(Ignored)
    ensures caughtType != "" ==> (r.Err? <==> MergedLevels(stacks).None?)
    ensures caughtType != "" && MergedLevels(stacks).Some? ==>
      r == Ok(Unwound(UnwoundLevels(MergedLevels(stacks).value, caughtType)))
  {
    if caughtType == "" {
      return Ok(Ignored);
    }
    var merged := MergeStacks(stacks);
    if merged.None? {
      return Err(CSharp.IndexOutOfRangeMessage);
    }
    ghost var all := merged.value;
    var stack := merged.value;
    var found := false;
    var i := |stack| - 1;
    while i >= 0 && !found
      invariant !found ==> i == |stack| - 1 && UnwoundLevels(stack, caughtType) == UnwoundLevels(all, caughtType)
      invariant found ==> stack == UnwoundLevels(all, caughtType)
      decreases i + 1, !found
    {
      var declares := exists b: CatchBlock :: b in stack[i] && b.caughtType == caughtType;
      stack := stack[..i];
      if declares {
        found := true;
      } else {
        i := i - 1;
      }
    }
    return Ok(Unwound(stack));
  }

  // ----- throw -----

  /** A thrown value: an object with its type and the names of its base classes, an abstract object or value, or anything else. */
  datatype Thrown = ObjectValue(typeName: string, baseClasses: seq<string>) | AnyObjectOrValue | NonObject

  /** Only `Exception` and the classes derived from it can be thrown. */
  predicate IsException(typeName: string, baseClasses: seq<string>)
  {
    typeName == "Exception" || "Exception" in baseClasses
  }

  /** A catch block catches an object whose type or one of whose base classes it names. */
  predicate Catches(b: CatchBlock, typeName: string, baseClasses: seq<string>)
  {
    b.caughtType == typeName || b.caughtType in baseClasses
  }

  predicate CatchesIn(level: set<CatchBlock>, typeName: string, baseClasses: seq<string>)
  {
    exists b :: b in level && Catches(b, typeName, baseClasses)
  }

  /** The catch block at the end of the program, where uncaught values go. */
  function ProgramEndBlock(programEnd: nat): CatchBlock
  {
    CatchBlock(programEnd, "", "")
  }

  /** The innermost level with a block catching the type. */
  function TopmostCatching(levels: seq<set<CatchBlock>>, typeName: string, baseClasses: seq<string>): (r: Option<nat>)
    ensures r.Some? ==> r.value < |levels| && CatchesIn(levels[r.value], typeName, baseClasses)
    ensures r.Some? ==> forall i :: r.value < i < |levels| ==> !CatchesIn(levels[i], typeName, baseClasses)
    ensures r.None? ==> forall i :: 0 <= i < |levels| ==> !CatchesIn(levels[i], typeName, baseClasses)
  {
    if |levels| == 0 then None
    else if CatchesIn(levels[|levels| - 1], typeName, baseClasses) then Some(|levels| - 1)
    else TopmostCatching(levels[..|levels| - 1], typeName, baseClasses)
  }

  /** The catch blocks of the levels from `i` outwards. */
  function BlocksFrom(levels: seq<set<CatchBlock>>, i: nat): set<CatchBlock>
    decreases |levels| - i
  {
    if i >= |levels| then {} else levels[i] + BlocksFrom(levels, i + 1)
  }

  lemma {:induction false} BlocksFromContents(levels: seq<set<CatchBlock>>, i: nat, b: CatchBlock)
    ensures b in BlocksFrom(levels, i) <==> exists j :: i <= j < |levels| && b in levels[j]
    decreases |levels| - i
  {
    if i < |levels| {
      BlocksFromContents(levels, i + 1, b);
    }
  }

  /**
   * Where `Throw` sends a value: a non-object and an object that is not an
   * exception to the program end; an exception to one block of the innermost
   * level that catches it, or to the program end; an abstract object to every
   * block, or to the program end when there is none.
   */
  predicate ValidTargets(v: Thrown, levels: seq<set<CatchBlock>>, programEnd: nat, targets: set<CatchBlock>)
  {
    match v
    case NonObject => targets == {ProgramEndBlock(programEnd)}
    case AnyObjectOrValue =>
      targets == if BlocksFrom(levels, 0) == {} then {ProgramEndBlock(programEnd)} else BlocksFrom(levels, 0)
    case ObjectValue(t, bases) =>
      if !IsException(t, bases) then targets == {ProgramEndBlock(programEnd)}
      else match TopmostCatching(levels, t, bases)
        case None => targets == {ProgramEndBlock(programEnd)}
        case Some(i) => exists b :: b in levels[i] && Catches(b, t, bases) && targets == {b}
  }

  /** The values each catch block receives. */
  function AddTo(throws: map<CatchBlock, seq<Thrown>>, v: Thrown, targets: set<CatchBlock>): map<CatchBlock, seq<Thrown>>
  {
    map b | b in throws.Keys + targets :: (if b in throws then throws[b] else []) + if b in targets then [v] else []
  }

  function Grouped(values: seq<Thrown>, targets: seq<set<CatchBlock>>): map<CatchBlock, seq<Thrown>>
    requires |values| == |targets|
  {
    if |values| == 0 then map[]
    else AddTo(Grouped(values[..|values| - 1], targets[..|values| - 1]), values[|values| - 1], targets[|values| - 1])
  }

  /** A block receives a value exactly when the value is sent there. */
  lemma {:induction false} GroupedContents(values: seq<Thrown>, targets: seq<set<CatchBlock>>)
    requires |values| == |targets|
    ensures forall k, b :: 0 <= k < |values| && b in targets[k] ==> b in Grouped(values, targets) && values[k] in Grouped(values, targets)[b]
    ensures forall b, x :: b in Grouped(values, targets) && x in Grouped(values, targets)[b] ==>
      exists k :: 0 <= k < |values| && values[k] == x && b in targets[k]
  {
    if |values| > 0 {
      var n := |values| - 1;
      var g := Grouped(values[..n], targets[..n]);
      GroupedContents(values[..n], targets[..n]);
      forall b, x | b in Grouped(values, targets) && x in Grouped(values, targets)[b]
        ensures exists k :: 0 <= k < |values| && values[k] == x && b in targets[k]
      {
        if b in g && x in g[b] {
          var k :| 0 <= k < n && values[..n][k] == x && b in targets[..n][k];
          assert values[k] == x && b in targets[k];
        } else {
          assert values[n] == x && b in targets[n];
        }
      }
      forall k, b | 0 <= k < |values| && b in targets[k]
        ensures b in Grouped(values, targets) && values[k] in Grouped(values, targets)[b]
      {
        if k < n {
          assert values[..n][k] == values[k] && targets[..n][k] == targets[k];
        }
      }
    }
  }

  function NonObjectCount(values: seq<Thrown>): (r: nat)
    ensures r <= |values|
  {
    if |values| == 0 then 0
    else NonObjectCount(values[..|values| - 1]) + if values[|values| - 1].NonObject? then 1 else 0
  }

  /** Every value is a non-object exactly when all of them are counted. */
  lemma {:induction false} AllNonObjects(values: seq<Thrown>)
    ensures NonObjectCount(values) == |values| <==> forall k :: 0 <= k < |values| ==> values[k].NonObject?
  {
    if |values| > 0 {
      var init := values[..|values| - 1];
      AllNonObjects(init);
      assert forall k :: 0 <= k < |init| ==> init[k] == values[k];
    }
  }

  /** `fatalError`: an edge to the program end, removing the other successors or keeping them. */
  datatype Fatal = NoFatal | FatalError(removeFlowChildren: bool)

  /** The fatal error of `Throw`: removing when the warnings reach the number of values, keeping when some value warned. */
  function ThrowFatal(warnings: nat, count: nat): (r: Fatal)
    ensures r == NoFatal <==> warnings == 0 && count > 0
  {
    if warnings >= count then FatalError(true)
    else if warnings > 0 then FatalError(false)
    else NoFatal
  }

  datatype ThrowReport = ThrowReport(
    /** The blocks each thrown value is sent to. */
    targets: seq<set<CatchBlock>>,
    /** The values each catch block receives. */
    throws: map<CatchBlock, seq<Thrown>>,
    /** The "only objects can be thrown" warnings. */
    warnings: nat,
    fatal: Fatal)

  /** Where one thrown value goes in `Throw`. */
  method RouteValue(v: Thrown, levels: seq<set<CatchBlock>>, programEnd: nat) returns (targets: set<CatchBlock>)
    ensures ValidTargets(v, levels, programEnd, targets)
  {
    if v.NonObject? {
      return {ProgramEndBlock(programEnd)};
    }
    if v.AnyObjectOrValue? {
      var all: set<CatchBlock> := {};
      var i := |levels| - 1;
      while i >= 0
        invariant -1 <= i < |levels|
        invariant all == BlocksFrom(levels, i + 1)
      {
        all := all + levels[i];
        i := i - 1;
      }
      return if all == {} then {ProgramEndBlock(programEnd)} else all;
    }
    if !IsException(v.typeName, v.baseClasses) {
      return {ProgramEndBlock(programEnd)};
    }
    var i := |levels| - 1;
    while i >= 0
      invariant -1 <= i < |levels|
      invariant forall j :: i < j < |levels| ==> !CatchesIn(levels[j], v.typeName, v.baseClasses)
    {
      if exists b :: b in levels[i] && Catches(b, v.typeName, v.baseClasses) {
        var b :| b in levels[i] && Catches(b, v.typeName, v.baseClasses);
        return {b};
      }
      i := i - 1;
    }
    return {ProgramEndBlock(programEnd)};
  }

  /**
   * `Throw`: the merged stack of try blocks decides where each thrown value
   * goes; non-objects are counted as warnings and decide the fatal error.
   */
  method Throw(stacks: seq<TryBlockStack>, thrown: seq<Thrown>, programEnd: nat) returns (r: Result<ThrowReport, string>)
    ensures r.Err? <==> MergedLevels(stacks).None?
    ensures r.Ok? ==> |r.value.targets| == |thrown|
    ensures r.Ok? ==> forall k :: 0 <= k < |thrown| ==>
      ValidTargets(thrown[k], MergedLevels(stacks).value, programEnd, r.value.targets[k])
    ensures r.Ok? ==> r.value.throws == Grouped(thrown, r.value.targets)
    ensures r.Ok? ==> r.value.warnings == NonObjectCount(thrown) && r.value.fatal == ThrowFatal(r.value.warnings, |thrown|)
  {
    var merged := MergeStacks(stacks);
    if merged.None? {
      return Err(CSharp.IndexOutOfRangeMessage);
    }
    var levels := merged.value;
    var targets, throws, warnings := RouteAll(thrown, levels, programEnd);
    return Ok(ThrowReport(targets, throws, warnings, ThrowFatal(warnings, |thrown|)));
  }

  /** The loop of `Throw` over the thrown values. */
  method RouteAll(thrown: seq<Thrown>, levels: seq<set<CatchBlock>>, programEnd: nat)
    returns (targets: seq<set<CatchBlock>>, throws: map<CatchBlock, seq<Thrown>>, warnings: nat)
    ensures |targets| == |thrown|
    ensures forall k :: 0 <= k < |thrown| ==> ValidTargets(thrown[k], levels, programEnd, targets[k])
    ensures throws == Grouped(thrown, targets) && warnings == NonObjectCount(thrown)
  {
    targets, throws, warnings := [], map[], 0;
    var k := 0;
    while k < |thrown|
      invariant 0 <= k <= |thrown| && |targets| == k
      invariant forall j :: 0 <= j < k ==> ValidTargets(thrown[j], levels, programEnd, targets[j])
      invariant throws == Grouped(thrown[..k], targets)
      invariant warnings == NonObjectCount(thrown[..k])
    {
      var t := RouteValue(thrown[k], levels, programEnd);
      if thrown[k].NonObject? {
        warnings := warnings + 1;
      }
      GroupedStep(thrown, targets, t);
      NonObjectCountStep(thrown, k);
      throws := AddTo(throws, thrown[k], t);
      targets := targets + [t];
      k := k + 1;
    }
    assert thrown[..|thrown|] == thrown;
  }

  lemma GroupedStep(thrown: seq<Thrown>, targets: seq<set<CatchBlock>>, t: set<CatchBlock>)
    requires |targets| < |thrown|
    ensures var k := |targets|;
      Grouped(thrown[..k + 1], targets + [t]) == AddTo(Grouped(thrown[..k], targets), thrown[k], t)
  {
    var k := |targets|;
    var values, sent := thrown[..k + 1], targets + [t];
    assert values[..k] == thrown[..k] && sent[..k] == targets;
    assert values[k] == thrown[k] && sent[k] == t;
    assert Grouped(values, sent) == AddTo(Grouped(values[..k], sent[..k]), values[k], sent[k]);
  }

  lemma NonObjectCountStep(thrown: seq<Thrown>, k: nat)
    requires k < |thrown|
    ensures NonObjectCount(thrown[..k + 1]) == NonObjectCount(thrown[..k]) + if thrown[k].NonObject? then 1 else 0
  {
    assert thrown[..k + 1][..k] == thrown[..k];
  }

  /** Thrown values are fatal with the successors removed exactly when every one of them is a non-object (or there are none). */
  lemma ThrowFatalIffAllNonObjects(thrown: seq<Thrown>)
    ensures ThrowFatal(NonObjectCount(thrown), |thrown|) == FatalError(true) <==>
      forall k :: 0 <= k < |thrown| ==> thrown[k].NonObject?
  {
    AllNonObjects(thrown);
  }

  // ----- assumptions -----

  /** `ConfirmAssumption`: whether the branch is entered, and the refinement made when the outcome is unknown. */
  datatype Confirmation = Confirmation(enter: bool, refinement: Option<Result<seq<AssumptionExecuter.Constraint>, string>>)

  function ConfirmAssumption(form: AssumptionExecuter.ConditionForm, condition: AssumptionExecuter.Expr,
                             entry: Option<Option<bool>>, logged: set<AssumptionExecuter.Expr>): (r: Confirmation)
    ensures !r.enter <==> AssumptionExecuter.IsSatisfied(form, entry) == AssumptionExecuter.OnlyFalse
    ensures r.refinement.Some? <==> AssumptionExecuter.IsSatisfied(form, entry) == AssumptionExecuter.Unknown
    ensures r.refinement.Some? ==> r.refinement.value == AssumptionExecuter.RefineState(form, condition, logged)
  {
    var enterAssumption := AssumptionExecuter.IsSatisfied(form, entry);
    if enterAssumption == AssumptionExecuter.OnlyFalse then Confirmation(false, None)
    else if enterAssumption == AssumptionExecuter.Unknown then
      Confirmation(true, Some(AssumptionExecuter.RefineState(form, condition, logged)))
    else Confirmation(true, None)
  }

  /** A logged condition of known truth is entered exactly when it holds in the form's sense, and refines nothing. */
  lemma KnownConditionsRefineNothing(form: AssumptionExecuter.ConditionForm, condition: AssumptionExecuter.Expr,
                                     value: bool, logged: set<AssumptionExecuter.Expr>)
    ensures var r := ConfirmAssumption(form, condition, Some(Some(value)), logged);
      r.refinement.None? && (r.enter <==> value != (form == AssumptionExecuter.ConditionForm.None))
  {
  }

  /** A condition the log knows nothing about is entered and refined. */
  lemma UnloggedConditionsAreRefined(form: AssumptionExecuter.ConditionForm, condition: AssumptionExecuter.Expr,
                                     logged: set<AssumptionExecuter.Expr>)
    ensures var r := ConfirmAssumption(form, condition, None, logged);
      r.enter && r.refinement == Some(AssumptionExecuter.RefineState(form, condition, logged))
  {
  }

  // ----- include -----

  datatype InclusionType = Include | IncludeOnce | Require | RequireOnce

  /**
   * One file an include names: `found` and `fullName` are what looking the
   * file up on disk gives, `parses` whether its control-flow graph can be
   * built, `marker` the values of the control variable named after the file
   * and `records` the values of `.includedFiles`.
   */
  datatype FileRequest = FileRequest(
    name: string,
    found: bool,
    fullName: string,
    parses: bool,
    marker: seq<Values.Value>,
    records: seq<FunctionResolver.CallValue<string>>)

  /**
   * The guard of `include_once` and `require_once`: skip a file whose marker
   * has several values, or one value that is not undefined; an empty marker
   * makes `First()` throw (Err).
   */
  function OnceGuard(kind: InclusionType, marker: seq<Values.Value>): (r: Result<bool, string>)
    ensures r.Err? <==> (kind == IncludeOnce || kind == RequireOnce) && |marker| == 0
    ensures r == Ok(true) <==>
      (kind == IncludeOnce || kind == RequireOnce) && (|marker| > 1 || (|marker| == 1 && marker[0] != Values.Undefined))
  {
    if kind != IncludeOnce && kind != RequireOnce then Ok(false)
    else if |marker| > 1 then Ok(true)
    else if |marker| == 0 then Err(CSharp.NoElementsMessage)
    else Ok(marker[0] != Values.Undefined)
  }

  /** A plain `include` or `require` is never skipped, and a file never marked is always included. */
  lemma OnceGuardSkipsOnlyMarkedFiles(kind: InclusionType)
    ensures (kind == Include || kind == Require) ==> forall marker :: OnceGuard(kind, marker) == Ok(false)
    ensures OnceGuard(kind, [Values.Undefined]) == Ok(false)
    ensures (kind == IncludeOnce || kind == RequireOnce) ==> OnceGuard(kind, [Values.Bool(true)]) == Ok(true)
  {
  }

  /** The largest recorded inclusion count of the file, and -1 when it was never included. */
  function IncludeCount(records: seq<FunctionResolver.CallValue<string>>, fileName: string): int
  {
    if |records| == 0 then -1
    else
      var v := records[|records| - 1];
      CSharp.Max(IncludeCount(records[..|records| - 1], fileName),
        if FunctionResolver.IsRecordOf(v, fileName) then v.calls.TimesCalled else -1)
  }

  /** The count is non-negative exactly when some record of the file has a non-negative count. */
  lemma {:induction false} IncludeCountMeansIncluded(records: seq<FunctionResolver.CallValue<string>>, fileName: string)
    ensures IncludeCount(records, fileName) >= -1
    ensures IncludeCount(records, fileName) >= 0 <==>
      exists k :: 0 <= k < |records| && FunctionResolver.IsRecordOf(records[k], fileName) && records[k].calls.TimesCalled >= 0
  {
    if |records| > 0 {
      var init := records[..|records| - 1];
      IncludeCountMeansIncluded(init, fileName);
      assert forall k :: 0 <= k < |init| ==> init[k] == records[k];
    }
  }

  /** The scan of `.includedFiles` in `Include`. */
  method NumberOfIncludes(records: seq<FunctionResolver.CallValue<string>>, fileName: string) returns (n: int)
    ensures n == IncludeCount(records, fileName)
  {
    n := -1;
    var k := 0;
    while k < |records|
      invariant 0 <= k <= |records|
      invariant n == IncludeCount(records[..k], fileName)
    {
      assert records[..k + 1][..k] == records[..k];
      var includeInfo := records[k];
      if includeInfo.Info? && includeInfo.calls.Callee == Some(fileName) {
        n := CSharp.Max(n, includeInfo.calls.TimesCalled);
      } else {
        n := CSharp.Max(n, -1);
      }
      k := k + 1;
    }
    assert records[..|records|] == records;
  }

  /** What `Include` does with one file. */
  datatype IncludeOutcome =
    /** The file was not found: a warning. */
    | NotFound
    /** The included marker is empty and `First()` throws. */
    | MarkerUnreadable
    /** `include_once`/`require_once` of a file already included. */
    | AlreadyIncluded
    /** A shared file: the extension uses the one graph of the file. */
    | SharedExtension(graph: nat)
    /** A shared file whose graph cannot be built: a warning. */
    | SharedGraphError
    /** The marker is set and the extension gets a new graph. */
    | NewExtension(graph: nat)
    /** The marker is set but the graph cannot be built: a warning. */
    | NewGraphError

  predicate Warns(outcome: IncludeOutcome)
  {
    outcome.NotFound? || outcome.SharedGraphError? || outcome.NewGraphError?
  }

  /** The outcomes decided before any graph is looked at, or None when the file goes on to its graph. */
  function EarlyOutcome(kind: InclusionType, request: FileRequest): (r: Option<IncludeOutcome>)
    ensures r.Some? ==> !Warns(r.value) || r.value == NotFound
  {
    if !request.found then Some(NotFound)
    else match OnceGuard(kind, request.marker)
      case Err(_) => Some(MarkerUnreadable)
      case Ok(skip) => if skip then Some(AlreadyIncluded) else None
  }

  /** The number of inclusions beyond which a file is marked shared. */
  const IncludeSharingThreshold := 2

  /**
   * The shared-graph branch of `Include` as written: when building the graph of
   * a shared file fails, the warning is raised and the dictionary is then read
   * at the missing key anyway, which throws.
   */
  function SharedGraphAsWritten(sharedProgramPoints: map<string, nat>, fileName: string, parses: bool, nextGraph: nat)
    : (r: Result<nat, string>)
    ensures fileName in sharedProgramPoints ==> r == Ok(sharedProgramPoints[fileName])
  {
    if fileName in sharedProgramPoints then Ok(sharedProgramPoints[fileName])
    else if parses then Ok(nextGraph)
    else Err(CSharp.KeyNotFoundMessage)
  }

  /** A shared file that fails to parse makes the written branch throw instead of continuing with the warning. */
  lemma SharedGraphAsWrittenThrows(fileName: string, nextGraph: nat)
    ensures SharedGraphAsWritten(map[], fileName, false, nextGraph).Err?
  {
  }

  /** The file goes on to the one graph of a shared file. */
  predicate UsesSharedGraph(kind: InclusionType, request: FileRequest, sharedFiles: set<string>)
  {
    EarlyOutcome(kind, request).None? && IncludeCount(request.records, request.fullName) >= 0 &&
    request.fullName in sharedFiles
  }

  /** The file goes on to a graph of its own. */
  predicate UsesOwnGraph(kind: InclusionType, request: FileRequest, sharedFiles: set<string>)
  {
    EarlyOutcome(kind, request).None? && !UsesSharedGraph(kind, request, sharedFiles)
  }

  /** The graphs `Include` builds and shares between inclusions of the same file. */
  class IncludeResolver {
    var sharedFiles: set<string>
    var sharedProgramPoints: map<string, nat>
    /** The number of program-point graphs built; each new graph is identified by this number. */
    var graphs: nat

    ghost predicate Valid()
      reads this
    {
      sharedProgramPoints.Keys <= sharedFiles && forall f :: f in sharedProgramPoints ==> sharedProgramPoints[f] < graphs
    }

    constructor ()
      ensures Valid()
      ensures sharedFiles == {} && sharedProgramPoints == map[] && graphs == 0
    {
      sharedFiles, sharedProgramPoints, graphs := {}, map[], 0;
    }

    /**
     * One file of `Include`: a file included more than twice is marked shared
     * (this inclusion still gets its own graph); every later inclusion of a
     * shared file reuses the one graph built for it. A graph that cannot be
     * built raises a warning and adds no extension.
     */
    method IncludeFile(kind: InclusionType, request: FileRequest) returns (outcome: IncludeOutcome)
      requires Valid()
      modifies this
      ensures Valid()
      ensures EarlyOutcome(kind, request).Some? ==> (outcome == EarlyOutcome(kind, request).value &&
        sharedFiles == old(sharedFiles) && sharedProgramPoints == old(sharedProgramPoints) && graphs == old(graphs))
      ensures UsesSharedGraph(kind, request, old(sharedFiles)) ==> sharedFiles == old(sharedFiles)
      ensures UsesSharedGraph(kind, request, old(sharedFiles)) ==> (if request.fullName in old(sharedProgramPoints) then
          outcome == SharedExtension(old(sharedProgramPoints)[request.fullName]) &&
          sharedProgramPoints == old(sharedProgramPoints) && graphs == old(graphs)
        else if request.parses then
          outcome == SharedExtension(old(graphs)) &&
          sharedProgramPoints == old(sharedProgramPoints)[request.fullName := old(graphs)] && graphs == old(graphs) + 1
        else
          outcome == SharedGraphError && sharedProgramPoints == old(sharedProgramPoints) && graphs == old(graphs))
      ensures UsesOwnGraph(kind, request, old(sharedFiles)) ==> sharedProgramPoints == old(sharedProgramPoints)
      ensures UsesOwnGraph(kind, request, old(sharedFiles)) ==> (sharedFiles == old(sharedFiles) +
        (if IncludeCount(request.records, request.fullName) > IncludeSharingThreshold then {request.fullName} else {}))
      ensures UsesOwnGraph(kind, request, old(sharedFiles)) ==> (if request.parses then outcome == NewExtension(old(graphs)) && graphs == old(graphs) + 1
         else outcome == NewGraphError && graphs == old(graphs))
    {
      if !request.found {
        return NotFound;
      }
      var fileName := request.fullName;
      var guard := OnceGuard(kind, request.marker);
      if guard.Err? {
        return MarkerUnreadable;
      }
      if guard.value {
        return AlreadyIncluded;
      }
      var numberOfIncludes := NumberOfIncludes(request.records, fileName);
      if numberOfIncludes >= 0 {
        if numberOfIncludes > IncludeSharingThreshold || fileName in sharedFiles {
          if fileName in sharedFiles {
            if fileName !in sharedProgramPoints {
              if !request.parses {
                return SharedGraphError;
              }
              sharedProgramPoints := sharedProgramPoints[fileName := graphs];
              graphs := graphs + 1;
            }
            return SharedExtension(sharedProgramPoints[fileName]);
          } else {
            sharedFiles := sharedFiles + {fileName};
          }
        }
      }
      if !request.parses {
        return NewGraphError;
      }
      outcome := NewExtension(graphs);
      graphs := graphs + 1;
    }
  }

  /** Once a file is shared, two inclusions of it are analysed in the same graph. */
  method SharedIncludesShareAGraph(resolver: IncludeResolver, kind: InclusionType, request: FileRequest)
    returns (first: IncludeOutcome, second: IncludeOutcome)
    requires resolver.Valid() && request.fullName in resolver.sharedFiles
    requires EarlyOutcome(kind, request).None? && IncludeCount(request.records, request.fullName) >= 0 && request.parses
    modifies resolver
    ensures first.SharedExtension? && first == second
    ensures resolver.graphs <= old(resolver.graphs) + 1
  {
    first := resolver.IncludeFile(kind, request);
    second := resolver.IncludeFile(kind, request);
  }

  // ----- matching the files with the existing extensions -----

  function Names(files: seq<FileRequest>): seq<string>
  {
    if |files| == 0 then [] else [files[0].name] + Names(files[1..])
  }

  /** `List.Remove`: the first request with the name is dropped. */
  function RemoveFirst(files: seq<FileRequest>, key: string): (r: seq<FileRequest>)
    ensures forall x :: x in r ==> x in files
  {
    if |files| == 0 then []
    else if files[0].name == key then files[1..]
    else [files[0]] + RemoveFirst(files[1..], key)
  }

  /** Removing the first request with a name takes exactly one occurrence of the name off the names, if there is one. */
  lemma {:induction false} RemoveFirstNames(files: seq<FileRequest>, key: string)
    ensures multiset(Names(RemoveFirst(files, key))) == multiset(Names(files)) - multiset{key}
  {
    if |files| > 0 && files[0].name != key {
      var rest := RemoveFirst(files[1..], key);
      RemoveFirstNames(files[1..], key);
      var r := [files[0]] + rest;
      assert r[0] == files[0] && r[1..] == rest;
      assert Names(r) == [files[0].name] + Names(rest);
      assert Names(files) == [files[0].name] + Names(files[1..]);
    }
  }

  /** The keys, in the order the extensions are enumerated; the keys of a dictionary are distinct. */
  predicate Distinct(keys: seq<string>)
  {
    forall i, j :: 0 <= i < j < |keys| ==> keys[i] != keys[j]
  }

  /** The keys that name none of the files. */
  function Absent(keys: seq<string>, names: multiset<string>): set<string>
  {
    set k | k in keys && k !in names
  }

  /**
   * The start of `Include`: every extension whose key is not among the named
   * files is removed, and each of the others takes one file off the list.
   */
  method MatchExtensions(extensionKeys: seq<string>, files: seq<FileRequest>)
    returns (removed: set<string>, remaining: seq<FileRequest>)
    requires Distinct(extensionKeys)
    ensures removed == Absent(extensionKeys, multiset(Names(files)))
    ensures multiset(Names(remaining)) == multiset(Names(files)) - multiset(extensionKeys)
    ensures forall x :: x in remaining ==> x in files
  {
    removed, remaining := {}, files;
    ghost var all := multiset(Names(files));
    var i := 0;
    while i < |extensionKeys|
      invariant 0 <= i <= |extensionKeys|
      invariant multiset(Names(remaining)) == all - multiset(extensionKeys[..i])
      invariant removed == Absent(extensionKeys[..i], all)
      invariant forall x :: x in remaining ==> x in files
    {
      remaining, removed := MatchExtension(extensionKeys, i, remaining, removed, files, all);
      i := i + 1;
    }
    assert extensionKeys[..i] == extensionKeys;
  }

  lemma RemovalStep(all: multiset<string>, keys: seq<string>, i: nat)
    requires i < |keys| && Distinct(keys)
    ensures (all - multiset(keys[..i]))[keys[i]] == all[keys[i]]
    ensures (all - multiset(keys[..i])) - multiset{keys[i]} == all - multiset(keys[..i + 1])
    ensures Absent(keys[..i + 1], all) == Absent(keys[..i], all) + if keys[i] in all then {} else {keys[i]}
  {
    var key := keys[i];
    assert keys[..i + 1] == keys[..i] + [key];
    assert key !in keys[..i];
    assert multiset(keys[..i])[key] == 0;
    assert multiset(keys[..i + 1]) == multiset(keys[..i]) + multiset{key};
    forall x
      ensures ((all - multiset(keys[..i])) - multiset{key})[x] == (all - multiset(keys[..i + 1]))[x]
    {
    }
    assert (all - multiset(keys[..i])) - multiset{key} == all - multiset(keys[..i + 1]);
  }

  /** One extension key: it takes a file of its name off the list, or the extension is removed. */
  method MatchExtension(keys: seq<string>, i: nat, files: seq<FileRequest>, removed: set<string>,
                        ghost original: seq<FileRequest>, ghost all: multiset<string>)
    returns (remaining: seq<FileRequest>, newRemoved: set<string>)
    requires i < |keys| && Distinct(keys)
    requires multiset(Names(files)) == all - multiset(keys[..i]) && removed == Absent(keys[..i], all)
    requires forall x :: x in files ==> x in original
    ensures multiset(Names(remaining)) == all - multiset(keys[..i + 1]) && newRemoved == Absent(keys[..i + 1], all)
    ensures forall x :: x in remaining ==> x in original
  {
    RemovalStep(all, keys, i);
    var key := keys[i];
    if key in multiset(Names(files)) {
      RemoveFirstNames(files, key);
      remaining, newRemoved := RemoveFirst(files, key), removed;
    } else {
      remaining, newRemoved := files, removed + {key};
      assert multiset(Names(files)) - multiset{key} == multiset(Names(files));
    }
  }

  /** The fatal error of a `require`: removing the successors when every file failed and the names were all concrete. */
  function IncludeFatal(kind: InclusionType, warnings: nat, count: nat, isAlwaysConcrete: bool): (r: Fatal)
    ensures (kind == Include || kind == IncludeOnce) ==> r == NoFatal
    ensures r == FatalError(true) ==> warnings > 0 && warnings == count && isAlwaysConcrete
  {
    if warnings > 0 && (kind == Require || kind == RequireOnce) then FatalError(warnings == count && isAlwaysConcrete)
    else NoFatal
  }

  function WarningCount(outcomes: seq<IncludeOutcome>): (r: nat)
    ensures r <= |outcomes|
  {
    if |outcomes| == 0 then 0
    else WarningCount(outcomes[..|outcomes| - 1]) + if Warns(outcomes[|outcomes| - 1]) then 1 else 0
  }

  /**
   * `Include`: the files left after matching the extensions are included one
   * by one; an unreadable marker ends it with the exception (`aborted`).
   */
  method IncludeFiles(resolver: IncludeResolver, kind: InclusionType, extensionKeys: seq<string>,
                      files: seq<FileRequest>, isAlwaysConcrete: bool)
    returns (removed: set<string>, remaining: seq<FileRequest>, outcomes: seq<IncludeOutcome>, aborted: bool, fatal: Fatal)
    requires resolver.Valid() && Distinct(extensionKeys)
    modifies resolver
    ensures resolver.Valid()
    ensures removed == Absent(extensionKeys, multiset(Names(files)))
    ensures multiset(Names(remaining)) == multiset(Names(files)) - multiset(extensionKeys)
    ensures |outcomes| <= |remaining|
    ensures forall i :: 0 <= i < |outcomes| && EarlyOutcome(kind, remaining[i]).Some? ==>
      outcomes[i] == EarlyOutcome(kind, remaining[i]).value
    ensures aborted <==> exists i :: 0 <= i < |outcomes| && outcomes[i] == MarkerUnreadable
    ensures !aborted ==> |outcomes| == |remaining| && fatal == IncludeFatal(kind, WarningCount(outcomes), |remaining|, isAlwaysConcrete)
  {
    removed, remaining := MatchExtensions(extensionKeys, files);
    var numberOfWarnings;
    outcomes, aborted, numberOfWarnings := IncludeAll(resolver, kind, remaining);
    fatal := if aborted then NoFatal else IncludeFatal(kind, numberOfWarnings, |remaining|, isAlwaysConcrete);
  }

  /** The inclusion loop of `Include`: each file in turn, until an unreadable marker ends it. */
  method IncludeAll(resolver: IncludeResolver, kind: InclusionType, remaining: seq<FileRequest>)
    returns (outcomes: seq<IncludeOutcome>, aborted: bool, numberOfWarnings: nat)
    requires resolver.Valid()
    modifies resolver
    ensures resolver.Valid()
    ensures |outcomes| <= |remaining|
    ensures forall i :: 0 <= i < |outcomes| && EarlyOutcome(kind, remaining[i]).Some? ==>
      outcomes[i] == EarlyOutcome(kind, remaining[i]).value
    ensures aborted <==> exists i :: 0 <= i < |outcomes| && outcomes[i] == MarkerUnreadable
    ensures !aborted ==> |outcomes| == |remaining| && numberOfWarnings == WarningCount(outcomes)
  {
    outcomes, aborted, numberOfWarnings := [], false, 0;
    var i := 0;
    while i < |remaining|
      invariant 0 <= i <= |remaining| && |outcomes| == i
      invariant resolver.Valid()
      invariant forall j :: 0 <= j < i && EarlyOutcome(kind, remaining[j]).Some? ==>
        outcomes[j] == EarlyOutcome(kind, remaining[j]).value
      invariant forall j :: 0 <= j < i ==> outcomes[j] != MarkerUnreadable
      invariant numberOfWarnings == WarningCount(outcomes)
    {
      var outcome := resolver.IncludeFile(kind, remaining[i]);
      assert (outcomes + [outcome])[..i] == outcomes;
      outcomes := outcomes + [outcome];
      if outcome == MarkerUnreadable {
        aborted := true;
        return;
      }
      if Warns(outcome) {
        numberOfWarnings := numberOfWarnings + 1;
      }
      i := i + 1;
    }
  }
}
