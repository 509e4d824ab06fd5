/**
 * The label and jump helpers of the control-flow-graph builder: the linked
 * stack of enclosing loops, the per-label record that queues the gotos met
 * before their label, the label dictionary, and the edges that `break` and
 * `continue` add.
 *
 * Basic blocks are numbered in creation order; the graph records the edges
 * the builder connects.
 */
module ControlFlowGraph {
  import opened Wrappers

  /** A source position, as the parser gives it. */
  type Position = nat

  /** `ControlFlowException` with its `ControlFlowExceptionCause`. */
  datatype ControlFlowError =
    | DuplicatedLabel(at: Position)
    | MissingLabel(at: Position)
    | BreakNotInCycle(at: Position)
    | ContinueNotInCycle(at: Position)

  /**
   * An edge between basic blocks: a direct edge, or the conditional
   * branching a numbered `break`/`continue` adds, taken when the jump's
   * expression (`jump`) equals `depth`.
   */
  datatype Edge =
    | DirectEdge(source: nat, target: nat)
    | ConditionalEdge(source: nat, target: nat, elseTarget: nat, depth: nat, jump: nat)

  // ----- the linked stack -----

  /** `LinkedStack`: a linked list used as a stack, its top at the end. */
  class LinkedStack<T> {
    var items: seq<T>

    constructor ()
      ensures items == []
    {
      items := [];
    }

    function Count(): nat
      reads this
    {
      |items|
    }

    method Push(t: T)
      modifies this
      ensures items == old(items) + [t]
    {
      items := items + [t];
    }

    /** `Peek`: the last pushed item; `Last()` throws on an empty list. */
    function Peek(): (r: Option<T>)
      reads this
      ensures r.None? <==> |items| == 0
      ensures r.Some? ==> r.value == items[|items| - 1]
    {
      if |items| == 0 then None else Some(items[|items| - 1])
    }

    /** `Pop`: removes and returns the last pushed item. */
    method Pop() returns (r: Option<T>)
      modifies this
      ensures r == old(Peek())
      ensures items == if |old(items)| == 0 then old(items) else old(items)[..|old(items)| - 1]
    {
      if |items| == 0 {
        return None;
      }
      r := Some(items[|items| - 1]);
      items := items[..|items| - 1];
    }
  }

  /** A stack is last in, first out: a pop gives back the item just pushed and restores the stack. */
  method PushPopIsLifo<T>(s: LinkedStack<T>, t: T) returns (r: Option<T>)
    modifies s
    ensures r == Some(t) && s.items == old(s.items)
  {
    s.Push(t);
    assert s.Peek() == Some(t);
    r := s.Pop();
  }

  // ----- labels -----

  /** What a label record holds: the gotos waiting for the label, and the label's block once it is met. */
  datatype LabelState = LabelState(queue: seq<nat>, labelBlock: Option<nat>)

  /** A direct edge from every block of `sources`, in order, to `target`. */
  function EdgesTo(sources: seq<nat>, target: nat): (r: seq<Edge>)
    ensures |r| == |sources|
    ensures forall k :: 0 <= k < |r| ==> r[k] == DirectEdge(sources[k], target)
    decreases |sources|
  {
    if |sources| == 0 then [] else EdgesTo(sources[..|sources| - 1], target) + [DirectEdge(sources[|sources| - 1], target)]
  }

  lemma EdgesToAppend(a: seq<nat>, b: seq<nat>, target: nat)
    ensures EdgesTo(a + b, target) == EdgesTo(a, target) + EdgesTo(b, target)
  {
    assert |EdgesTo(a + b, target)| == |EdgesTo(a, target) + EdgesTo(b, target)|;
  }

  /** `AsociateGoto`: a goto to a label already met is connected, otherwise queued. */
  function AfterGoto(s: LabelState, block: nat): (r: (LabelState, seq<Edge>))
    ensures s.labelBlock.Some? ==> r == (s, [DirectEdge(block, s.labelBlock.value)])
    ensures s.labelBlock.None? ==> r == (s.(queue := s.queue + [block]), [])
  {
    if s.labelBlock.Some? then (s, [DirectEdge(block, s.labelBlock.value)]) else (s.(queue := s.queue + [block]), [])
  }

  /** `AsociateLabel`: a second label of the same name throws; the first connects every queued goto and empties the queue. */
  function AfterLabel(s: LabelState, block: nat, at: Position): (r: Result<(LabelState, seq<Edge>), ControlFlowError>)
    ensures s.labelBlock.Some? <==> r.Err?
    ensures r.Err? ==> r.error == DuplicatedLabel(at)
    ensures r.Ok? ==> r.value.0 == LabelState([], Some(block)) && r.value.1 == EdgesTo(s.queue, block)
  {
    if s.labelBlock.Some? then Err(DuplicatedLabel(at)) else Ok((LabelState([], Some(block)), EdgesTo(s.queue, block)))
  }

  /** A goto or a label statement of one label name. */
  datatype LabelEvent = Goto(from: nat) | Label(block: nat, at: Position)

  /** The label record after the events, with the edges they added; the first duplicate label aborts. */
  function Replay(events: seq<LabelEvent>): (r: Result<(LabelState, seq<Edge>), ControlFlowError>)
    decreases |events|
  {
    if |events| == 0 then Ok((LabelState([], None), []))
    else
      match Replay(events[..|events| - 1])
        case Err(e) => Err(e)
        case Ok((s, edges)) =>
          match events[|events| - 1]
            case Goto(from) => var (s', added) := AfterGoto(s, from); Ok((s', edges + added))
            case Label(block, at) =>
              match AfterLabel(s, block, at)
                case Err(e) => Err(e)
                case Ok((s', added)) => Ok((s', edges + added))
  }

  function Gotos(events: seq<LabelEvent>): (r: seq<nat>)
    ensures |r| <= |events|
    decreases |events|
  {
    if |events| == 0 then []
    else Gotos(events[..|events| - 1]) + (if events[|events| - 1].Goto? then [events[|events| - 1].from] else [])
  }

  function Labels(events: seq<LabelEvent>): (r: seq<nat>)
    decreases |events|
  {
    if |events| == 0 then []
    else Labels(events[..|events| - 1]) + (if events[|events| - 1].Label? then [events[|events| - 1].block] else [])
  }

  /**
   * Whatever the order of gotos and label: with no label every goto is still
   * queued; with one label, the queue is empty and every goto of the name,
   * before or after the label, has exactly one edge to it; a second label
   * throws.
   */
  lemma {:induction false} EveryGotoReachesItsLabel(events: seq<LabelEvent>)
    ensures Replay(events).Ok? <==> |Labels(events)| <= 1
    ensures |Labels(events)| == 0 ==> Replay(events) == Ok((LabelState(Gotos(events), None), []))
    ensures |Labels(events)| == 1 ==>
      Replay(events) == Ok((LabelState([], Some(Labels(events)[0])), EdgesTo(Gotos(events), Labels(events)[0])))
    decreases |events|
  {
    if |events| > 0 {
      var init := events[..|events| - 1];
      var last := events[|events| - 1];
      EveryGotoReachesItsLabel(init);
      if |Labels(init)| > 1 {
        assert Replay(events).Err?;
      } else if last.Goto? {
        assert Labels(events) == Labels(init) && Gotos(events) == Gotos(init) + [last.from];
        if |Labels(init)| == 1 {
          var l := Labels(init)[0];
          EdgesToAppend(Gotos(init), [last.from], l);
        }
      } else {
        assert Labels(events) == Labels(init) + [last.block] && Gotos(events) == Gotos(init);
        if |Labels(init)| == 0 {
          assert Replay(init) == Ok((LabelState(Gotos(init), None), []));
          assert [] + EdgesTo(Gotos(init), last.block) == EdgesTo(Gotos(init), last.block);
        }
      }
    }
  }

  // ----- the graph -----

  /** The blocks created so far and the edges connected between them. */
  class Graph {
    var blockCount: nat
    var edges: seq<Edge>

    constructor ()
      ensures blockCount == 0 && edges == []
    {
      blockCount, edges := 0, [];
    }

    /** `new BasicBlock()`. */
    method NewBlock() returns (b: nat)
      modifies this
      ensures b == old(blockCount) && blockCount == old(blockCount) + 1 && edges == old(edges)
    {
      b := blockCount;
      blockCount := blockCount + 1;
    }

    method Connect(added: seq<Edge>)
      modifies this
      ensures edges == old(edges) + added && blockCount == old(blockCount)
    {
      edges := edges + added;
    }
  }

  /** `LabelData`. */
  class LabelData {
    var gotoQueue: seq<nat>
    var labelBlock: Option<nat>
    /** The position of the first statement that mentioned the label. */
    const position: Position

    constructor (at: Position)
      ensures gotoQueue == [] && labelBlock == None && position == at
    {
      gotoQueue, labelBlock, position := [], None, at;
    }

    function State(): LabelState
      reads this
    {
      LabelState(gotoQueue, labelBlock)
    }

    function HasAssociatedLabel(): (r: bool)
      reads this
      ensures r <==> labelBlock.Some?
    {
      labelBlock.Some?
    }

    /** `AsociateLabel`: connects the queued gotos one by one and clears the queue. */
    method AssociateLabel(block: nat, at: Position, g: Graph) returns (error: Option<ControlFlowError>)
      modifies this, g
      ensures AfterLabel(old(State()), block, at).Err? ==>
        error == Some(AfterLabel(old(State()), block, at).error) && State() == old(State()) && g.edges == old(g.edges)
      ensures AfterLabel(old(State()), block, at).Ok? ==>
        error.None? && State() == AfterLabel(old(State()), block, at).value.0 &&
        g.edges == old(g.edges) + AfterLabel(old(State()), block, at).value.1
      ensures g.blockCount == old(g.blockCount)
    {
      if labelBlock.Some? {
        return Some(DuplicatedLabel(at));
      }
      labelBlock := Some(block);
      var i := 0;
      while i < |gotoQueue|
        invariant 0 <= i <= |gotoQueue| && gotoQueue == old(gotoQueue) && labelBlock == Some(block)
        invariant g.edges == old(g.edges) + EdgesTo(gotoQueue[..i], block)
        invariant g.blockCount == old(g.blockCount)
      {
        assert gotoQueue[..i + 1][..i] == gotoQueue[..i];
        g.Connect([DirectEdge(gotoQueue[i], block)]);
        i := i + 1;
      }
      assert gotoQueue[..i] == gotoQueue;
      gotoQueue := [];
      error := None;
    }

    /** `AsociateGoto`. */
    method AssociateGoto(from: nat, g: Graph)
      modifies this, g
      ensures State() == AfterGoto(old(State()), from).0
      ensures g.edges == old(g.edges) + AfterGoto(old(State()), from).1 && g.blockCount == old(g.blockCount)
    {
      if labelBlock.Some? {
        g.Connect([DirectEdge(from, labelBlock.value)]);
      } else {
        gotoQueue := gotoQueue + [from];
      }
    }
  }

  /** `LabelDataDictionary`: one record per label name. */
  class LabelDataDictionary {
    var labels: map<string, LabelData>

    constructor ()
      ensures labels == map[]
    {
      labels := map[];
    }

    /** The record of `name`, created with this position on first mention: the same object every time. */
    method GetOrCreateLabelData(name: string, at: Position) returns (data: LabelData)
      modifies this
      ensures name in old(labels) ==> data == old(labels)[name] && labels == old(labels)
      ensures name !in old(labels) ==> fresh(data) && labels == old(labels)[name := data]
      ensures name !in old(labels) ==> data.State() == LabelState([], None) && data.position == at
      ensures labels[name] == data
    {
      if name in labels {
        return labels[name];
      }
      data := new LabelData(at);
      labels := labels[name := data];
    }
  }

  /** All labels mentioned have been met. */
  predicate AllLabelsDefined(labels: map<string, LabelData>)
    reads labels.Values
  {
    forall name :: name in labels ==> labels[name].labelBlock.Some?
  }

  predicate IsMissing(data: LabelData, error: ControlFlowError)
    reads data
  {
    data.labelBlock.None? && error == MissingLabel(data.position)
  }

  /** `CheckLabels`: throws `MISSING_LABEL` at a label that is mentioned but never defined, iff there is one. */
  method CheckLabels(d: LabelDataDictionary) returns (error: Option<ControlFlowError>)
    ensures error.None? <==> AllLabelsDefined(d.labels)
    ensures error.Some? ==> exists name :: name in d.labels && IsMissing(d.labels[name], error.value)
  {
    var remaining := d.labels.Keys;
    while remaining != {}
      invariant remaining <= d.labels.Keys
      invariant forall name :: name in d.labels && name !in remaining ==> d.labels[name].labelBlock.Some?
      decreases remaining
    {
      var name :| name in remaining;
      if d.labels[name].labelBlock.None? {
        return Some(MissingLabel(d.labels[name].position));
      }
      remaining := remaining - {name};
    }
    error := None;
  }

  // ----- the visitor -----

  /** `LoopData`: where `continue` and `break` of a loop go. */
  datatype LoopData = LoopData(continueTarget: nat, breakTarget: nat)

  datatype JumpType = Break | Continue

  function JumpTarget(loop: LoopData, jump: JumpType): nat {
    if jump == Break then loop.breakTarget else loop.continueTarget
  }

  /**
   * The conditional edges of a numbered `break`/`continue`: one per
   * enclosing loop, innermost first, the k-th taken when the expression
   * equals k + 1, each with a new else block numbered from `firstElse`.
   */
  function NumberedJumpEdges(loops: seq<LoopData>, jump: JumpType, from: nat, expression: nat, firstElse: nat, count: nat): (r: seq<Edge>)
    requires count <= |loops|
    ensures |r| == count
    ensures forall k :: 0 <= k < count ==>
      r[k] == ConditionalEdge(from, JumpTarget(loops[|loops| - 1 - k], jump), firstElse + k, k + 1, expression)
    decreases count
  {
    if count == 0 then []
    else
      var edge := ConditionalEdge(from, JumpTarget(loops[|loops| - count], jump), firstElse + count - 1, count, expression);
      NumberedJumpEdges(loops, jump, from, expression, firstElse, count - 1) + [edge]
  }

  /** The builder state that labels and jumps touch. */
  class CFGVisitor {
    const graph: Graph
    const loopData: LinkedStack<LoopData>
    const labelDictionary: LabelDataDictionary
    var currentBasicBlock: nat

    /** The current block exists, and every label name has a record of its own. */
    ghost predicate Valid()
      reads this, graph, labelDictionary
    {
      currentBasicBlock < graph.blockCount &&
      forall a, b | a in labelDictionary.labels && b in labelDictionary.labels && a != b ::
        labelDictionary.labels[a] != labelDictionary.labels[b]
    }

    constructor ()
      ensures Valid() && fresh(graph) && fresh(loopData) && fresh(labelDictionary)
      ensures graph.blockCount == 1 && graph.edges == [] && currentBasicBlock == 0
      ensures loopData.items == [] && labelDictionary.labels == map[]
    {
      var g := new Graph();
      var b := g.NewBlock();
      graph := g;
      currentBasicBlock := b;
      loopData := new LinkedStack<LoopData>();
      labelDictionary := new LabelDataDictionary();
    }

    /** `VisitLabelStmt`: the label gets a new block, which the current block falls through to. */
    method VisitLabelStmt(name: string, at: Position) returns (error: Option<ControlFlowError>)
      requires Valid()
      modifies this, graph, labelDictionary, labelDictionary.labels.Values
      ensures Valid()
      ensures name in labelDictionary.labels && labelDictionary.labels.Keys == old(labelDictionary.labels).Keys + {name}
      ensures var before := if name in old(labelDictionary.labels) then old(labelDictionary.labels[name].State()) else LabelState([], None);
        var step := AfterLabel(before, old(graph.blockCount), at);
        (step.Err? ==> error == Some(step.error)) &&
        (step.Ok? ==> (error.None? && labelDictionary.labels[name].State() == step.value.0 &&
          graph.edges == old(graph.edges) + step.value.1 + [DirectEdge(old(currentBasicBlock), old(graph.blockCount))] &&
          currentBasicBlock == old(graph.blockCount) && graph.blockCount == old(graph.blockCount) + 1))
      ensures forall n | n in old(labelDictionary.labels) && n != name ::
        labelDictionary.labels[n] == old(labelDictionary.labels[n]) &&
        labelDictionary.labels[n].State() == old(labelDictionary.labels[n].State())
    {
      var labelBlock := graph.NewBlock();
      var data := labelDictionary.GetOrCreateLabelData(name, at);
      error := data.AssociateLabel(labelBlock, at, graph);
      if error.Some? {
        return;
      }
      graph.Connect([DirectEdge(currentBasicBlock, labelBlock)]);
      currentBasicBlock := labelBlock;
    }

    /** `VisitGotoStmt`: the current block jumps to the label, and the code after the goto starts a new block. */
    method VisitGotoStmt(name: string, at: Position)
      requires Valid()
      modifies this, graph, labelDictionary, labelDictionary.labels.Values
      ensures Valid()
      ensures name in labelDictionary.labels && labelDictionary.labels.Keys == old(labelDictionary.labels).Keys + {name}
      ensures var before := if name in old(labelDictionary.labels) then old(labelDictionary.labels[name].State()) else LabelState([], None);
        var step := AfterGoto(before, old(currentBasicBlock));
        labelDictionary.labels[name].State() == step.0 && graph.edges == old(graph.edges) + step.1 &&
        currentBasicBlock == old(graph.blockCount) && graph.blockCount == old(graph.blockCount) + 1
      ensures forall n | n in old(labelDictionary.labels) && n != name ::
        labelDictionary.labels[n] == old(labelDictionary.labels[n]) &&
        labelDictionary.labels[n].State() == old(labelDictionary.labels[n].State())
    {
      var data := labelDictionary.GetOrCreateLabelData(name, at);
      data.AssociateGoto(currentBasicBlock, graph);
      currentBasicBlock := graph.NewBlock();
    }

    /** A loop visitor entering and leaving its body. */
    method PushLoop(loop: LoopData)
      requires Valid()
      modifies loopData
      ensures Valid() && loopData.items == old(loopData.items) + [loop]
    {
      loopData.Push(loop);
    }

    method PopLoop() returns (loop: Option<LoopData>)
      requires Valid()
      modifies loopData
      ensures Valid() && loop == old(loopData.Peek())
      ensures loopData.items == if |old(loopData.items)| == 0 then old(loopData.items) else old(loopData.items)[..|old(loopData.items)| - 1]
    {
      loop := loopData.Pop();
    }

    /**
     * `VisitJumpStmt` for `break` and `continue`. Without an expression the
     * jump goes to the innermost loop, and outside every loop it throws. With
     * an expression (`numbered`) it branches to every enclosing loop; outside
     * every loop it adds nothing. The code after the jump starts a new block.
     */
    method VisitJump(jump: JumpType, numbered: Option<nat>, at: Position) returns (error: Option<ControlFlowError>)
      requires Valid()
      modifies this, graph
      ensures Valid()
      ensures numbered.None? && old(loopData.Count()) == 0 ==>
        error == Some(if jump == Break then BreakNotInCycle(at) else ContinueNotInCycle(at)) &&
        graph.edges == old(graph.edges)
      ensures numbered.None? && old(loopData.Count()) > 0 ==>
        error.None? &&
        graph.edges == old(graph.edges) + [DirectEdge(old(currentBasicBlock), JumpTarget(old(loopData.Peek().value), jump))]
      ensures numbered.Some? ==> error.None?
      ensures numbered.Some? ==> (graph.edges == old(graph.edges) +
          NumberedJumpEdges(loopData.items, jump, old(currentBasicBlock), numbered.value, old(graph.blockCount), |loopData.items|))
      ensures error.None? ==> currentBasicBlock == graph.blockCount - 1
    {
      if numbered.None? {
        var top := loopData.Peek();
        if top.None? {
          return Some(if jump == Break then BreakNotInCycle(at) else ContinueNotInCycle(at));
        }
        graph.Connect([DirectEdge(currentBasicBlock, JumpTarget(top.value, jump))]);
      } else {
        NumberedJump(jump, numbered.value);
      }
      currentBasicBlock := graph.NewBlock();
      error := None;
    }

    /** The loop of a numbered jump, from the innermost loop (`breakValue` 1) outwards. */
    method NumberedJump(jump: JumpType, expression: nat)
      requires Valid()
      modifies graph
      ensures Valid()
      ensures graph.edges == old(graph.edges) +
        NumberedJumpEdges(loopData.items, jump, currentBasicBlock, expression, old(graph.blockCount), |loopData.items|)
      ensures graph.blockCount == old(graph.blockCount) + |loopData.items|
    {
      var loops := loopData.items;
      var breakValue := 1;
      var i := |loops| - 1;
      while i >= 0
        invariant -1 <= i < |loops| && breakValue == |loops| - i
        invariant graph.blockCount == old(graph.blockCount) + breakValue - 1
        invariant graph.edges == old(graph.edges) +
          NumberedJumpEdges(loops, jump, currentBasicBlock, expression, old(graph.blockCount), breakValue - 1)
        invariant Valid()
      {
        var target := JumpTarget(loops[i], jump);
        var elseBlock := graph.NewBlock();
        graph.Connect([ConditionalEdge(currentBasicBlock, target, elseBlock, breakValue, expression)]);
        breakValue := breakValue + 1;
        i := i - 1;
      }
    }
  }
}
