/** Printing a laid out structure: the flattening iterator of control_flow.rs and the
    convert_* functions of dis86/src/decompile/ast.rs that rebuild the nesting from it. */
module Emission {
  import opened Wrappers
  import opened ControlFlow
  import opened Ownership
  import opened CSyntax
  import opened FlowTree
  import opened ArenaTree
  import opened Meaning

  /** A laid out arena and the tree that each scheduled element stands for. */
  datatype Forest = Forest(g: seq<Meta>, d: Arena, nodes: map<ElemId, Node>) {
    ghost predicate HasAll(s: seq<ElemId>) {
      forall x :: x in s ==> x in nodes
    }

    ghost function Trees(s: seq<ElemId>): seq<Node>
      requires HasAll(s)
    {
      if s == [] then [] else [nodes[s[0]]] + Trees(s[1..])
    }

    /** The tree of an element in terms of those of its parts. */
    ghost predicate PartsAt(id: ElemId)
      requires id in nodes
    {
      var node := nodes[id];
      && Present(d, id) && d[id].value.jump.Some?
      && node.jump == Resolve(g, d[id].value.jump.value) && IdOf(node) == id
      && var e := d[id].value;
      match e.detail
      case BasicBlock(_) => node.BlockNode? && !node.jump.Table?
      case Loop(_, b) => HasAll(b.layout) && node == LoopNode(id, Trees(b.layout), node.jump) && node.jump.NoJump?
      case If(inv, t, other) =>
        && HasAll(t.layout)
        && (other.Some? ==> HasAll(other.value.layout) && Apart(t.layout, other.value.layout))
        && |e.exits| == 1
        && (node.jump.UncondFallthrough? || node.jump.UncondTarget?)
        && node == IfNode(id, e.entry, inv, HeadAt(g, e.exits[0]), Trees(t.layout),
                          if other.None? then NoArm else Arm(Trees(other.value.layout)), node.jump)
    }

    /** A known element starts with its head block: itself, or that of its entry, which is older. */
    ghost predicate HeadedAt(id: ElemId)
      requires Known(g, id)
    {
      && Present(d, id)
      && if d[id].value.detail.BasicBlock? then g[id].head == id && !d[id].value.detail.labeled
         else d[id].value.entry < id && SameHead(g, d[id].value.entry, id)
    }

    ghost predicate TargetsKnown(id: ElemId)
      requires id in nodes
    {
      Present(d, id) && d[id].value.jump.Some? && forall t :: t in JumpTargets(d[id].value.jump.value) ==> Known(g, t)
    }

    ghost predicate BlockAt(b: ElemId) {
      Known(g, b) && g[b].head == b && Present(d, b) && d[b].value.detail.BasicBlock?
    }

    ghost predicate EntryAt(id: ElemId)
      requires id in nodes
    {
      && (nodes[id].IfNode? ==> BlockAt(nodes[id].entry))
      && (nodes[id].BlockNode? ==> BlockAt(id))
    }

    ghost predicate Ok() {
      && (forall id {:trigger PartsAt(id)} :: id in nodes ==> PartsAt(id))
      && (forall id {:trigger TargetsKnown(id)} :: id in nodes ==> TargetsKnown(id))
      && (forall id {:trigger EntryAt(id)} :: id in nodes ==> EntryAt(id))
      && (forall id: nat {:trigger HeadedAt(id)} :: Known(g, id) ==> HeadedAt(id))
    }
  }

  /** The arms have members, and the second starts with one that is not in the first. */
  ghost predicate Apart(t: seq<ElemId>, e: seq<ElemId>) {
    e != [] && e[0] !in t
  }

  lemma KnownNode(c: Forest, id: ElemId)
    requires c.Ok() && id in c.nodes
    ensures c.PartsAt(id) && c.TargetsKnown(id) && c.EntryAt(id)
  {
  }

  // ------------------------------------------------------------------------
  // Labels.

  ghost predicate MarkedAt(plain: Arena, data: Arena, labeled: set<ElemId>, id: ElemId)
    requires id < |plain| && id < |data|
  {
    if id in labeled && plain[id].Some? && plain[id].value.detail.BasicBlock?
    then data[id] == Some(plain[id].value.(detail := BasicBlock(true)))
    else data[id] == plain[id]
  }

  /** `data` is the arena `plain` with the blocks `labeled` marked. */
  ghost predicate Marked(plain: Arena, data: Arena, labeled: set<ElemId>) {
    |plain| == |data| && forall id :: 0 <= id < |data| ==> MarkedAt(plain, data, labeled, id)
  }

  lemma MarkedNone(d: Arena)
    ensures Marked(d, d, {})
  {
  }

  /** A jump target leads down to the block it starts with: ids fall on the way, so no
      cycle of targets is ever met. */
  method MakeLabel(id: ElemId, data: Arena, ghost c: Forest, ghost labeled: set<ElemId>) returns (b: ElemId)
    requires c.Ok() && Marked(c.d, data, labeled) && Known(c.g, id)
    ensures Known(c.g, b) && b == c.g[id].head && Present(data, b) && data[b].value.detail.BasicBlock?
  {
    b := id;
    var seen: set<ElemId> := {};
    while true
      invariant SameHead(c.g, b, id)
      invariant forall x :: x in seen ==> b < x
      decreases b
    {
      assert c.HeadedAt(b) && MarkedAt(c.d, data, labeled, b);
      assert b !in seen;
      seen := seen + {b};
      if data[b].value.detail.BasicBlock? { return; }
      b := data[b].value.entry;
    }
  }

  // ------------------------------------------------------------------------
  // The iterator.

  datatype Frame = Frame(body: Body, idx: nat, depth: nat)

  ghost predicate FrameOk(c: Forest, f: Frame) {
    f.idx <= |f.body.layout| && c.HasAll(f.body.layout)
  }

  ghost function FrameFlow(c: Forest, f: Frame): seq<(ElemId, nat)>
    requires FrameOk(c, f)
  {
    FlowAll(c.Trees(f.body.layout[f.idx..]), f.depth)
  }

  /** The iterator's stack of bodies being visited. */
  datatype Stack = Bottom | On(top: Frame, below: Stack)

  ghost predicate StackOk(c: Forest, st: Stack) {
    st.On? ==> FrameOk(c, st.top) && StackOk(c, st.below)
  }

  ghost function StackFlow(c: Forest, st: Stack): seq<(ElemId, nat)>
    requires StackOk(c, st)
  {
    if st.Bottom? then [] else FrameFlow(c, st.top) + StackFlow(c, st.below)
  }

  lemma FrameStep(c: Forest, f: Frame)
    requires FrameOk(c, f) && f.idx < |f.body.layout|
    ensures f.body.layout[f.idx] in c.nodes && FrameOk(c, f.(idx := f.idx + 1))
    ensures FrameFlow(c, f) == Flow(c.nodes[f.body.layout[f.idx]], f.depth) + FrameFlow(c, f.(idx := f.idx + 1))
  {
    assert f.body.layout[f.idx] in f.body.layout;
    assert f.body.layout[f.idx..][1..] == f.body.layout[f.idx + 1..];
  }

  /** The bodies below an element are visited next, an if's then-arm first. */
  function PushParts(detail: Detail, depth: nat, st: Stack): Stack {
    match detail
    case BasicBlock(_) => st
    case Loop(_, body) => On(Frame(body, 0, depth), st)
    case If(_, t, e) => On(Frame(t, 0, depth), if e.Some? then On(Frame(e.value, 0, depth), st) else st)
  }

  lemma WholeFrame(c: Forest, b: Body, depth: nat)
    requires c.HasAll(b.layout)
    ensures FrameOk(c, Frame(b, 0, depth)) && FrameFlow(c, Frame(b, 0, depth)) == FlowAll(c.Trees(b.layout), depth)
  {
    assert b.layout[0..] == b.layout;
  }

  /** Visiting an element and then its parts is visiting its tree. */
  lemma PartsFlow(c: Forest, st: Stack, id: ElemId, depth: nat)
    requires c.Ok() && id in c.nodes && StackOk(c, st)
    ensures Present(c.d, id)
    ensures var st' := PushParts(c.d[id].value.detail, depth + 1, st);
      StackOk(c, st') && Flow(c.nodes[id], depth) + StackFlow(c, st) == [(id, depth)] + StackFlow(c, st')
  {
    KnownNode(c, id);
    match c.d[id].value.detail {
      case BasicBlock(_) =>
      case Loop(_, b) => WholeFrame(c, b, depth + 1);
      case If(_, t, e) =>
        WholeFrame(c, t, depth + 1);
        if e.Some? {
          WholeFrame(c, e.value, depth + 1);
        }
    }
  }

  function Moved(st: Stack): Stack
    requires st.On?
  {
    On(st.top.(idx := st.top.idx + 1), st.below)
  }

  function Visited(d: Arena, st: Stack, id: ElemId): Stack
    requires st.On? && Present(d, id)
  {
    PushParts(d[id].value.detail, st.top.depth + 1, Moved(st))
  }

  lemma FlowAssoc(a: seq<(ElemId, nat)>, b: seq<(ElemId, nat)>, c: seq<(ElemId, nat)>)
    ensures a + b + c == a + (b + c)
  {
  }

  /** The flow of a stack is that of the next element, and then that of the stack moved on. */
  lemma StackStep(c: Forest, st: Stack, id: ElemId)
    requires StackOk(c, st) && st.On? && st.top.idx < |st.top.body.layout| && id == st.top.body.layout[st.top.idx]
    ensures id in c.nodes && StackOk(c, Moved(st))
    ensures StackFlow(c, st) == Flow(c.nodes[id], st.top.depth) + StackFlow(c, Moved(st))
  {
    FrameStep(c, st.top);
    FlowAssoc(Flow(c.nodes[id], st.top.depth), FrameFlow(c, Moved(st).top), StackFlow(c, st.below));
  }

  /** A stack that is sound and has this flow; sealed, so that a chain of steps does not look inside. */
  ghost predicate Flows(c: Forest, st: Stack, flow: seq<(ElemId, nat)>) {
    forall s {:trigger FlowsAt(c, s, flow)} :: s == st ==> FlowsAt(c, s, flow)
  }

  ghost predicate FlowsAt(c: Forest, st: Stack, flow: seq<(ElemId, nat)>) {
    StackOk(c, st) && StackFlow(c, st) == flow
  }

  lemma StackSteps(c: Forest, st: Stack, id: ElemId) returns (rest: seq<(ElemId, nat)>)
    requires StackOk(c, st) && st.On? && st.top.idx < |st.top.body.layout| && id == st.top.body.layout[st.top.idx]
    ensures id in c.nodes && Flows(c, Moved(st), rest) && Flows(c, st, Flow(c.nodes[id], st.top.depth) + rest)
  {
    StackStep(c, st, id);
    rest := StackFlow(c, Moved(st));
  }

  lemma PartsFlows(c: Forest, st: Stack, id: ElemId, depth: nat, rest: seq<(ElemId, nat)>) returns (next: seq<(ElemId, nat)>)
    requires c.Ok() && id in c.nodes && Flows(c, st, rest)
    ensures Present(c.d, id) && Flows(c, PushParts(c.d[id].value.detail, depth + 1, st), next)
    ensures Flow(c.nodes[id], depth) + rest == [(id, depth)] + next
  {
    assert FlowsAt(c, st, rest);
    PartsFlow(c, st, id, depth);
    next := StackFlow(c, PushParts(c.d[id].value.detail, depth + 1, st));
  }

  lemma VisitFlows(c: Forest, st: Stack, id: ElemId) returns (rest: seq<(ElemId, nat)>)
    requires c.Ok() && StackOk(c, st)
    requires st.On? && st.top.idx < |st.top.body.layout| && id == st.top.body.layout[st.top.idx]
    ensures Present(c.d, id) && Flows(c, Visited(c.d, st, id), rest) && Flows(c, st, [(id, st.top.depth)] + rest)
  {
    var moved := StackSteps(c, st, id);
    rest := PartsFlows(c, Moved(st), id, st.top.depth, moved);
  }

  lemma VisitStep(c: Forest, data: Arena, labeled: set<ElemId>, st: Stack, id: ElemId)
    requires c.Ok() && Marked(c.d, data, labeled) && StackOk(c, st)
    requires st.On? && st.top.idx < |st.top.body.layout| && id == st.top.body.layout[st.top.idx]
    ensures Present(data, id) && StackOk(c, Visited(data, st, id))
    ensures StackFlow(c, st) == [(id, st.top.depth)] + StackFlow(c, Visited(data, st, id))
  {
    var rest := VisitFlows(c, st, id);
    assert FlowsAt(c, st, [(id, st.top.depth)] + rest) && FlowsAt(c, Visited(c.d, st, id), rest);
    SameVisit(c.d, data, labeled, st, id);
  }

  lemma SameVisit(d: Arena, data: Arena, labeled: set<ElemId>, st: Stack, id: ElemId)
    requires Marked(d, data, labeled) && Present(d, id) && st.On?
    ensures Present(data, id) && Visited(data, st, id) == Visited(d, st, id)
  {
    assert MarkedAt(d, data, labeled, id);
  }

  class FlowIter {
    const data: Arena
    var state: Stack
    var peeked: Option<Option<(ElemId, nat)>>
    ghost const c: Forest
    ghost const labeled: set<ElemId>

    ghost predicate Valid()
      reads this
    {
      && c.Ok() && Marked(c.d, data, labeled)
      && StackOk(c, state)
      && (peeked == Some(None) ==> state.Bottom?)
    }

    /** What is still to come. */
    ghost function Pending(): seq<(ElemId, nat)>
      reads this
      requires Valid()
    {
      (if peeked.Some? && peeked.value.Some? then [peeked.value.value] else []) + StackFlow(c, state)
    }

    constructor (body: Body, data: Arena, ghost c: Forest, ghost labeled: set<ElemId>)
      requires c.Ok() && Marked(c.d, data, labeled) && c.HasAll(body.layout)
      ensures Valid() && Pending() == FlowAll(c.Trees(body.layout), 0)
      ensures this.c == c && this.labeled == labeled && this.data == data
    {
      this.data, this.c, this.labeled := data, c, labeled;
      state, peeked := On(Frame(body, 0, 0), Bottom), None;
      new;
      WholeFrame(c, body, 0);
      assert StackFlow(c, Bottom) == [];
    }

    /** The iterator proper: the next element in order, its parts put on the stack. */
    method Advance() returns (item: Option<(ElemId, nat)>)
      requires Valid() && peeked.None?
      modifies this`state
      ensures Valid()
      ensures item.None? ==> old(Pending()) == [] && state.Bottom?
      ensures item.Some? ==> old(Pending()) == [item.value] + Pending()
    {
      while state.On?
        invariant Valid() && Pending() == old(Pending())
        decreases state
      {
        if state.top.idx >= |state.top.body.layout| {
          state := state.below;
          continue;
        }
        var id, depth := state.top.body.layout[state.top.idx], state.top.depth;
        VisitStep(c, data, labeled, state, id);
        state := Visited(data, state, id);
        return Some((id, depth));
      }
      item := None;
    }

    method Peek() returns (item: Option<(ElemId, nat)>)
      requires Valid()
      modifies this
      ensures Valid() && Pending() == old(Pending())
      ensures item == if Pending() == [] then None else Some(Pending()[0])
    {
      if peeked.None? {
        var x := Advance();
        peeked := Some(x);
      }
      item := peeked.value;
    }

    method Next() returns (item: Option<(ElemId, nat)>)
      requires Valid()
      modifies this
      ensures Valid()
      ensures item.None? ==> old(Pending()) == [] && Pending() == []
      ensures item.Some? ==> old(Pending()) == [item.value] + Pending()
    {
      if peeked.None? {
        item := Advance();
      } else {
        item := peeked.value;
        peeked := None;
      }
    }
  }

  // ------------------------------------------------------------------------
  // Rebuilding the nesting from the flat sequence.

  ghost predicate CondFor(b: ElemId, jump: Jump, cond: Option<Cond>) {
    match jump
    case CondTargetTrue(_) => cond == Some(Cond(b, false))
    case CondTargetFalse(_) => cond == Some(Cond(b, true))
    case CondTargetBoth(_, _) => cond == Some(Cond(b, false))
    case Table(_) => false
    case _ => true
  }

  method PushJump(blk: seq<Stmt>, jump: Jump, cond: Option<Cond>, data: Arena, ghost b: ElemId, ghost c: Forest, ghost labeled: set<ElemId>)
    returns (r: seq<Stmt>)
    requires c.Ok() && Marked(c.d, data, labeled)
    requires CondFor(b, jump, cond) && forall t :: t in JumpTargets(jump) ==> Known(c.g, t)
    ensures r == blk + EmitJump(b, Resolve(c.g, jump))
  {
    r := blk;
    match jump {
      case UncondTarget(t) =>
        var l := MakeLabel(t, data, c, labeled);
        r := r + [Goto(l)];
      case CondTargetTrue(t) =>
        var l := MakeLabel(t, data, c, labeled);
        r := r + [Stmt.If(cond.value, [Goto(l)], NoElse)];
      case CondTargetFalse(t) =>
        var l := MakeLabel(t, data, c, labeled);
        r := r + [Stmt.If(cond.value, [Goto(l)], NoElse)];
      case CondTargetBoth(t, f) =>
        var lt := MakeLabel(t, data, c, labeled);
        var lf := MakeLabel(f, data, c, labeled);
        r := r + [CondGoto(cond.value, lt, lf)];
      case _ =>
    }
  }

  /** The label, if it is wanted, and the code of a block. */
  method PushHeader(blk: seq<Stmt>, b: ElemId, data: Arena, ghost c: Forest, ghost labeled: set<ElemId>) returns (r: seq<Stmt>)
    requires c.Ok() && Marked(c.d, data, labeled)
    requires c.BlockAt(b)
    ensures r == blk + EmitHeader(b, labeled)
  {
    assert c.HeadedAt(b) && MarkedAt(c.d, data, labeled, b);
    r := blk;
    if data[b].value.detail.labeled {
      var l := MakeLabel(b, data, c, labeled);
      r := r + [Label(l)];
    }
    r := r + [Code(b)];
  }

  /** The element itself comes first, then its parts. */
  lemma FirstOf(flow: seq<(ElemId, nat)>, item: (ElemId, nat), rest: seq<(ElemId, nat)>, tail: seq<(ElemId, nat)>)
    requires flow != [] && [item] + rest == flow + tail
    ensures item == flow[0] && rest == flow[1..] + tail
  {
    assert ([item] + rest)[0] == item && ([item] + rest)[1..] == rest;
    assert (flow + tail)[1..] == flow[1..] + tail;
  }

  lemma FlowTail(node: Node, depth: nat)
    ensures var flow := Flow(node, depth);
      && flow != [] && flow[0] == (IdOf(node), depth)
      && flow[1..] == match node
        case BlockNode(_, _) => []
        case LoopNode(_, body, _) => FlowAll(body, depth + 1)
        case IfNode(_, _, _, _, t, e, _) => FlowAll(t, depth + 1) + (if e.Arm? then FlowAll(e.nodes, depth + 1) else [])
  {
  }

  lemma FlowHead(node: Node, depth: nat, item: (ElemId, nat), rest: seq<(ElemId, nat)>, tail: seq<(ElemId, nat)>)
    requires [item] + rest == Flow(node, depth) + tail
    ensures item == (IdOf(node), depth)
    ensures rest == match node
      case BlockNode(_, _) => tail
      case LoopNode(_, body, _) => FlowAll(body, depth + 1) + tail
      case IfNode(_, _, _, _, t, e, _) => FlowAll(t, depth + 1) + ((if e.Arm? then FlowAll(e.nodes, depth + 1) else []) + tail)
  {
    FlowTail(node, depth);
    FirstOf(Flow(node, depth), item, rest, tail);
  }

  method ConvertBasicBlock(blk: seq<Stmt>, iter: FlowIter, ghost id: ElemId, ghost depth: nat, ghost tail: seq<(ElemId, nat)>) returns (r: seq<Stmt>)
    requires iter.Valid() && id in iter.c.nodes && Present(iter.c.d, id) && iter.c.d[id].value.detail.BasicBlock?
    requires iter.Pending() == Flow(iter.c.nodes[id], depth) + tail
    modifies iter
    ensures iter.Valid() && iter.Pending() == tail
    ensures r == blk + EmitNode(iter.c.nodes[id], iter.labeled)
  {
    ghost var c := iter.c;
    BlockReady(c, iter.data, iter.labeled, id);
    var item := iter.Next();
    FlowHead(c.nodes[id], depth, item.value, iter.Pending(), tail);
    var b := item.value.0;
    var jump := iter.data[b].value.jump.value;
    r := PushHeader(blk, b, iter.data, c, iter.labeled);
    r := PushJump(r, jump, Some(Cond(b, jump.CondTargetFalse?)), iter.data, b, c, iter.labeled);
    StmtsAssoc(blk, EmitHeader(b, iter.labeled), EmitJump(b, c.nodes[id].jump));
  }

  /** What a block is, to the printer. */
  lemma BlockReady(c: Forest, data: Arena, labeled: set<ElemId>, id: ElemId)
    requires c.Ok() && Marked(c.d, data, labeled) && id in c.nodes && Present(c.d, id) && c.d[id].value.detail.BasicBlock?
    ensures Present(data, id) && data[id].value.jump == c.d[id].value.jump && c.nodes[id].BlockNode? && IdOf(c.nodes[id]) == id
    ensures c.BlockAt(id) && c.d[id].value.jump.Some?
    ensures var jump := c.d[id].value.jump.value;
      && c.nodes[id] == BlockNode(id, Resolve(c.g, jump)) && CondFor(id, jump, Some(Cond(id, jump.CondTargetFalse?)))
      && forall t :: t in JumpTargets(jump) ==> Known(c.g, t)
  {
    assert c.PartsAt(id) && c.TargetsKnown(id) && c.EntryAt(id) && MarkedAt(c.d, data, labeled, id);
  }

  method ConvertLoop(blk: seq<Stmt>, iter: FlowIter, depth: nat, ghost id: ElemId, ghost tail: seq<(ElemId, nat)>) returns (r: seq<Stmt>)
    requires iter.Valid() && id in iter.c.nodes && Present(iter.c.d, id) && iter.c.d[id].value.detail.Loop?
    requires iter.Pending() == Flow(iter.c.nodes[id], depth) + tail
    requires tail != [] ==> tail[0].1 <= depth
    modifies iter
    ensures iter.Valid() && iter.Pending() == tail
    ensures r == blk + EmitNode(iter.c.nodes[id], iter.labeled)
    decreases |iter.Pending()|, 0
  {
    ghost var c := iter.c;
    LoopReady(c, iter.data, iter.labeled, id);
    var item := iter.Next();
    FlowHead(c.nodes[id], depth, item.value, iter.Pending(), tail);
    ghost var ids := c.d[id].value.detail.body.layout;
    var body := ConvertBodyUntil(iter, depth + 1, None, ids, tail);
    r := blk + [Stmt.Loop(body)];
    var jump := iter.data[item.value.0].value.jump.value;
    r := PushJump(r, jump, None, iter.data, id, c, iter.labeled);
    StmtsAssoc(blk, [Stmt.Loop(body)], EmitJump(id, c.nodes[id].jump));
  }

  lemma StmtsAssoc(a: seq<Stmt>, b: seq<Stmt>, c: seq<Stmt>)
    ensures a + b + c == a + (b + c)
  {
  }

  /** What a loop element is, to the printer. */
  lemma LoopReady(c: Forest, data: Arena, labeled: set<ElemId>, id: ElemId)
    requires c.Ok() && Marked(c.d, data, labeled) && id in c.nodes && Present(c.d, id) && c.d[id].value.detail.Loop?
    ensures data[id] == c.d[id] && c.nodes[id].LoopNode? && IdOf(c.nodes[id]) == id && c.d[id].value.jump.Some?
    ensures var e := c.d[id].value;
      && c.nodes[id].jump == Resolve(c.g, e.jump.value) && CondFor(id, e.jump.value, None) && c.HasAll(e.detail.body.layout)
      && c.nodes[id].body == c.Trees(e.detail.body.layout) && forall t :: t in JumpTargets(e.jump.value) ==> Known(c.g, t)
  {
    assert c.PartsAt(id) && c.TargetsKnown(id) && MarkedAt(c.d, data, labeled, id);
  }

  /** The arms of an if: the iterator lists both at one depth, so the first ends where the second starts. */
  method ConvertArms(iter: FlowIter, depth: nat, thenBody: Body, elseBody: Option<Body>, ghost tail: seq<(ElemId, nat)>)
    returns (thenStmts: seq<Stmt>, other: Else)
    requires iter.Valid() && iter.c.HasAll(thenBody.layout)
    requires elseBody.Some? ==> iter.c.HasAll(elseBody.value.layout) && Apart(thenBody.layout, elseBody.value.layout)
    requires iter.Pending() == FlowAll(iter.c.Trees(thenBody.layout), depth)
                               + ((if elseBody.Some? then FlowAll(iter.c.Trees(elseBody.value.layout), depth) else []) + tail)
    requires tail != [] ==> tail[0].1 < depth
    modifies iter
    ensures iter.Valid() && iter.Pending() == tail
    ensures thenStmts == EmitAll(iter.c.Trees(thenBody.layout), iter.labeled)
    ensures other == if elseBody.Some? then Else(EmitAll(iter.c.Trees(elseBody.value.layout), iter.labeled)) else NoElse
    decreases |iter.Pending()|, 3
  {
    ghost var c := iter.c;
    ghost var elseFlow := if elseBody.Some? then FlowAll(c.Trees(elseBody.value.layout), depth) else [];
    var elseStart := None;
    if elseBody.Some? {
      TreesSplit(c, elseBody.value.layout, iter.labeled, depth);
      elseStart := Some(elseBody.value.layout[0]);
      assert c.PartsAt(elseBody.value.layout[0]);
    }
    thenStmts := ConvertBodyUntil(iter, depth, elseStart, thenBody.layout, elseFlow + tail);
    other := NoElse;
    if elseBody.Some? {
      var elseStmts := ConvertBodyUntil(iter, depth, None, elseBody.value.layout, tail);
      other := Else(elseStmts);
    }
  }

  /** What printing the if `e` needs to know of it. */
  ghost predicate IfFor(c: Forest, id: ElemId, e: Elem)
    requires id in c.nodes && c.nodes[id].IfNode?
  {
    var node := c.nodes[id];
    && e.detail.If? && e.jump.Some? && c.BlockAt(e.entry)
    && CondFor(e.entry, e.jump.value, None) && (forall t :: t in JumpTargets(e.jump.value) ==> Known(c.g, t))
    && node.jump == Resolve(c.g, e.jump.value)
    && var t, other := e.detail.thenBody, e.detail.elseBody;
    && c.HasAll(t.layout)
    && (other.Some? ==> c.HasAll(other.value.layout) && Apart(t.layout, other.value.layout))
    && node.thenBody == c.Trees(t.layout)
    && node.elseBody == if other.Some? then Arm(c.Trees(other.value.layout)) else NoArm
  }

  lemma IfReady(c: Forest, data: Arena, labeled: set<ElemId>, id: ElemId)
    requires c.Ok() && Marked(c.d, data, labeled) && id in c.nodes && Present(c.d, id) && c.d[id].value.detail.If?
    ensures data[id] == c.d[id] && c.nodes[id].IfNode? && IdOf(c.nodes[id]) == id && IfFor(c, id, c.d[id].value)
    ensures EmitNode(c.nodes[id], labeled) == EmitHeader(c.d[id].value.entry, labeled) + IfArms(c, id, c.d[id].value, labeled)
  {
    assert c.PartsAt(id) && c.TargetsKnown(id) && c.EntryAt(id) && MarkedAt(c.d, data, labeled, id);
  }

  method ConvertIfstmt(blk: seq<Stmt>, iter: FlowIter, depth: nat, ghost id: ElemId, ghost tail: seq<(ElemId, nat)>) returns (r: seq<Stmt>)
    requires iter.Valid() && id in iter.c.nodes && Present(iter.c.d, id) && iter.c.d[id].value.detail.If?
    requires iter.Pending() == Flow(iter.c.nodes[id], depth) + tail
    requires tail != [] ==> tail[0].1 <= depth
    modifies iter
    ensures iter.Valid() && iter.Pending() == tail
    ensures r == blk + EmitNode(iter.c.nodes[id], iter.labeled)
    decreases |iter.Pending()|, 0
  {
    ghost var c := iter.c;
    IfReady(c, iter.data, iter.labeled, id);
    var item := iter.Next();
    FlowHead(c.nodes[id], depth, item.value, iter.Pending(), tail);
    var elem := iter.data[item.value.0].value;
    var header := PushHeader(blk, elem.entry, iter.data, c, iter.labeled);
    r := FinishIfstmt(header, elem, iter, depth, id, tail);
    StmtsAssoc(blk, EmitHeader(elem.entry, iter.labeled), IfArms(c, id, elem, iter.labeled));
  }

  ghost function IfArms(c: Forest, id: ElemId, e: Elem, labeled: set<ElemId>): seq<Stmt>
    requires id in c.nodes && c.nodes[id].IfNode? && e.detail.If?
  {
    var node := c.nodes[id];
    [Stmt.If(Cond(e.entry, e.detail.inverted), EmitAll(node.thenBody, labeled), EmitElse(node.elseBody, labeled))] + EmitJump(e.entry, node.jump)
  }

  /** The statement of an if and its jump, after its header was printed. */
  method FinishIfstmt(blk: seq<Stmt>, elem: Elem, iter: FlowIter, depth: nat, ghost id: ElemId, ghost tail: seq<(ElemId, nat)>) returns (r: seq<Stmt>)
    requires iter.Valid() && id in iter.c.nodes && iter.c.nodes[id].IfNode? && Present(iter.data, id)
    requires Some(elem) == iter.data[id] && IfFor(iter.c, id, elem)
    requires iter.Pending() == FlowAll(iter.c.nodes[id].thenBody, depth + 1)
                               + ((if iter.c.nodes[id].elseBody.Arm? then FlowAll(iter.c.nodes[id].elseBody.nodes, depth + 1) else []) + tail)
    requires tail != [] ==> tail[0].1 <= depth
    modifies iter
    ensures iter.Valid() && iter.Pending() == tail
    ensures r == blk + IfArms(iter.c, id, elem, iter.labeled)
    decreases |iter.Pending()|, 4
  {
    ghost var c := iter.c;
    var thenStmts, other := ConvertArms(iter, depth + 1, elem.detail.thenBody, elem.detail.elseBody, tail);
    var arms := [Stmt.If(Cond(elem.entry, elem.detail.inverted), thenStmts, other)];
    r := PushJump(blk + arms, elem.jump.value, None, iter.data, elem.entry, c, iter.labeled);
    StmtsAssoc(blk, arms, EmitJump(elem.entry, c.nodes[id].jump));
  }

  /** Where the sequence stops being part of the body at `depth`. */
  ghost predicate StopsAt(tail: seq<(ElemId, nat)>, depth: nat, stop: Option<ElemId>) {
    tail == [] || tail[0].1 < depth || (tail[0].1 == depth && stop == Some(tail[0].0))
  }

  lemma TreesSplit(c: Forest, ids: seq<ElemId>, labeled: set<ElemId>, depth: nat)
    requires c.HasAll(ids) && ids != []
    ensures ids[0] in c.nodes && c.HasAll(ids[1..])
    ensures FlowAll(c.Trees(ids), depth) == Flow(c.nodes[ids[0]], depth) + FlowAll(c.Trees(ids[1..]), depth)
    ensures EmitAll(c.Trees(ids), labeled) == EmitNode(c.nodes[ids[0]], labeled) + EmitAll(c.Trees(ids[1..]), labeled)
  {
  }

  /** What was printed and what is still to come, against the members `ids` of a body. */
  ghost predicate Converted(c: Forest, labeled: set<ElemId>, ids: seq<ElemId>, n: nat, blk: seq<Stmt>,
                            pending: seq<(ElemId, nat)>, depth: nat, tail: seq<(ElemId, nat)>) {
    && n <= |ids| && c.HasAll(ids) && c.HasAll(ids[n..])
    && EmitAll(c.Trees(ids), labeled) == blk + EmitAll(c.Trees(ids[n..]), labeled)
    && pending == FlowAll(c.Trees(ids[n..]), depth) + tail
  }

  lemma ConvertedNext(c: Forest, labeled: set<ElemId>, ids: seq<ElemId>, n: nat, blk: seq<Stmt>,
                      pending: seq<(ElemId, nat)>, depth: nat, tail: seq<(ElemId, nat)>)
    requires Converted(c, labeled, ids, n, blk, pending, depth, tail) && n < |ids|
    ensures ids[n] in c.nodes && c.HasAll(ids[n + 1..])
    ensures pending == Flow(c.nodes[ids[n]], depth) + (FlowAll(c.Trees(ids[n + 1..]), depth) + tail)
    ensures EmitAll(c.Trees(ids), labeled) == blk + EmitNode(c.nodes[ids[n]], labeled) + EmitAll(c.Trees(ids[n + 1..]), labeled)
    ensures n + 1 < |ids| ==> FlowAll(c.Trees(ids[n + 1..]), depth) != [] && FlowAll(c.Trees(ids[n + 1..]), depth)[0].1 == depth
    ensures n + 1 == |ids| ==> FlowAll(c.Trees(ids[n + 1..]), depth) == []
  {
    assert ids[n..][1..] == ids[n + 1..] && ids[n..][0] == ids[n];
    TreesSplit(c, ids[n..], labeled, depth);
    if n + 1 < |ids| {
      TreesSplit(c, ids[n + 1..], labeled, depth);
    }
  }

  /** One more member was printed. */
  lemma ConvertedStep(c: Forest, labeled: set<ElemId>, ids: seq<ElemId>, n: nat, blk: seq<Stmt>,
                      pending: seq<(ElemId, nat)>, depth: nat, tail: seq<(ElemId, nat)>)
    requires Converted(c, labeled, ids, n, blk, pending, depth, tail) && n < |ids|
    ensures ids[n] in c.nodes && c.HasAll(ids[n + 1..])
    ensures Converted(c, labeled, ids, n + 1, blk + EmitNode(c.nodes[ids[n]], labeled), FlowAll(c.Trees(ids[n + 1..]), depth) + tail, depth, tail)
  {
    ConvertedNext(c, labeled, ids, n, blk, pending, depth, tail);
  }

  /** What comes next when members are left is the next of them, and otherwise what stops the body. */
  lemma NextPending(c: Forest, labeled: set<ElemId>, ids: seq<ElemId>, n: nat, blk: seq<Stmt>,
                    pending: seq<(ElemId, nat)>, depth: nat, tail: seq<(ElemId, nat)>)
    requires c.Ok() && Converted(c, labeled, ids, n, blk, pending, depth, tail)
    ensures n == |ids| ==> pending == tail && blk == EmitAll(c.Trees(ids), labeled)
    ensures n < |ids| ==> pending != [] && pending[0] == (ids[n], depth)
  {
    if n < |ids| {
      ConvertedNext(c, labeled, ids, n, blk, pending, depth, tail);
      assert c.PartsAt(ids[n]);
    } else {
      assert ids[n..] == [];
    }
  }

  method ConvertElem(blk: seq<Stmt>, iter: FlowIter, depth: nat, id: ElemId, ghost tail: seq<(ElemId, nat)>) returns (r: seq<Stmt>)
    requires iter.Valid() && id in iter.c.nodes
    requires iter.Pending() == Flow(iter.c.nodes[id], depth) + tail
    requires tail != [] ==> tail[0].1 <= depth
    modifies iter
    ensures iter.Valid() && iter.Pending() == tail
    ensures r == blk + EmitNode(iter.c.nodes[id], iter.labeled)
    decreases |iter.Pending()|, 1
  {
    assert iter.c.PartsAt(id) && MarkedAt(iter.c.d, iter.data, iter.labeled, id);
    match iter.data[id].value.detail {
      case BasicBlock(_) => r := ConvertBasicBlock(blk, iter, id, depth, tail);
      case Loop(_, _) => r := ConvertLoop(blk, iter, depth, id, tail);
      case If(_, _, _) => r := ConvertIfstmt(blk, iter, depth, id, tail);
    }
  }

  /** Exactly the members of one body are taken from the sequence, and printed as their trees are. */
  method ConvertBodyUntil(iter: FlowIter, depth: nat, stop: Option<ElemId>, ghost ids: seq<ElemId>, ghost tail: seq<(ElemId, nat)>)
    returns (blk: seq<Stmt>)
    requires iter.Valid() && iter.c.HasAll(ids) && iter.Pending() == FlowAll(iter.c.Trees(ids), depth) + tail
    requires StopsAt(tail, depth, stop) && (stop.Some? ==> stop.value !in ids)
    modifies iter
    ensures iter.Valid() && iter.Pending() == tail
    ensures blk == EmitAll(iter.c.Trees(ids), iter.labeled)
    decreases |iter.Pending()|, 2
  {
    ghost var c := iter.c;
    blk := [];
    ghost var n := 0;
    assert ids[0..] == ids;
    while true
      invariant iter.Valid() && Converted(c, iter.labeled, ids, n, blk, iter.Pending(), depth, tail)
      invariant |iter.Pending()| <= old(|iter.Pending()|)
      modifies iter
      decreases |iter.Pending()|
    {
      var peek := iter.Peek();
      NextPending(c, iter.labeled, ids, n, blk, iter.Pending(), depth, tail);
      if peek.None? { break; }
      var (id, d) := peek.value;
      if d == depth && Some(id) == stop { break; }
      assert d <= depth;
      if d < depth { break; }
      ConvertedNext(c, iter.labeled, ids, n, blk, iter.Pending(), depth, tail);
      ConvertedStep(c, iter.labeled, ids, n, blk, iter.Pending(), depth, tail);
      blk := ConvertElem(blk, iter, depth, id, FlowAll(c.Trees(ids[n + 1..]), depth) + tail);
      n := n + 1;
    }
  }
}
