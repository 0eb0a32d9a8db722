/** From the blocks of a function to its printed program: structure, layout, labels, printing
    (ControlFlow::from_ir in dis86/src/decompile/control_flow.rs, then Builder::build in ast.rs). */
module Decompile {
  import opened Wrappers
  import opened ControlFlow
  import opened Ownership
  import opened Structure
  import opened Scopes
  import opened Steps
  import opened Inference
  import opened Names
  import opened Levels
  import opened Arms
  import opened Enclosing
  import opened LoopFree
  import opened Progress
  import opened Layout
  import opened Scheduling
  import opened CSyntax
  import opened FlowTree
  import opened ArenaTree
  import opened Meaning
  import opened Emission

  // ------------------------------------------------------------------------
  // A laid out arena as a forest.

  ghost predicate Finished(cfg: Cfg, g: seq<Meta>, d: Arena, fall: Falls) {
    && CfgOk(cfg) && LayoutState(cfg, g, d, fall)
    && (forall id: nat {:trigger Present(d, id)} :: Known(g, id) ==> Present(d, id))
    && (forall id {:trigger id in fall} :: id in fall ==> Known(g, id))
  }

  ghost function ForestOf(cfg: Cfg, g: seq<Meta>, d: Arena, fall: Falls): Forest
    requires Finished(cfg, g, d, fall)
  {
    Forest(g, d, map id | id in fall :: TreeOf(cfg, g, d, fall, id))
  }

  lemma {:induction false} ForestTrees(cfg: Cfg, g: seq<Meta>, d: Arena, fall: Falls, s: seq<ElemId>, v: set<ElemId>, full: bool)
    requires Finished(cfg, g, d, fall) && Placeable(g, fall, s, v, full)
    ensures ForestOf(cfg, g, d, fall).HasAll(s)
    ensures ForestOf(cfg, g, d, fall).Trees(s) == TreesOf(cfg, g, d, fall, s, v, full)
    decreases |s|
  {
    if s != [] {
      assert s[0] in s;
      ForestTrees(cfg, g, d, fall, s[1..], v, full);
    }
  }

  lemma ArmsApart(g: seq<Meta>, t: Body, e: Body, fall: Falls, out: Option<ElemId>)
    requires BodyOk(g, t, true) && BodyOk(g, e, true) && LeavesOf(g, t.elems) !! LeavesOf(g, e.elems)
    requires BodyLaid(g, t, fall, out) && BodyLaid(g, e, fall, out)
    ensures Apart(t.layout, e.layout)
  {
    var x := e.layout[0];
    assert x in e.elems;
    MemberLeaves(g, e.elems, x);
    var b :| b in g[x].leaves;
    if x in t.layout {
      MemberLeaves(g, t.elems, x);
    }
  }

  lemma ForestLoop(cfg: Cfg, g: seq<Meta>, d: Arena, fall: Falls, id: ElemId)
    requires Finished(cfg, g, d, fall) && id in fall && Present(d, id) && d[id].value.detail.Loop?
    ensures ForestOf(cfg, g, d, fall).PartsAt(id)
  {
    PartsPlaceable(cfg, g, d, fall, id);
    LaidElem(cfg, g, d, fall, id);
    ForestTrees(cfg, g, d, fall, d[id].value.detail.body.layout, g[id].leaves, false);
  }

  ghost predicate ForestArm(cfg: Cfg, g: seq<Meta>, d: Arena, fall: Falls, arm: Body)
    requires Finished(cfg, g, d, fall)
  {
    var c := ForestOf(cfg, g, d, fall);
    && Placeable(g, fall, arm.layout, LeavesOf(g, arm.elems), true)
    && c.HasAll(arm.layout)
    && c.Trees(arm.layout) == TreesOf(cfg, g, d, fall, arm.layout, LeavesOf(g, arm.elems), true)
  }

  lemma ForestArms(cfg: Cfg, g: seq<Meta>, d: Arena, fall: Falls, id: ElemId)
    requires Finished(cfg, g, d, fall) && id in fall && Present(d, id) && d[id].value.detail.If?
    ensures Known(g, id) && ForestArm(cfg, g, d, fall, d[id].value.detail.thenBody)
    ensures d[id].value.detail.elseBody.Some? ==> ForestArm(cfg, g, d, fall, d[id].value.detail.elseBody.value)
  {
    var t, e := d[id].value.detail.thenBody, d[id].value.detail.elseBody;
    PartsPlaceable(cfg, g, d, fall, id);
    ForestTrees(cfg, g, d, fall, t.layout, LeavesOf(g, t.elems), true);
    if e.Some? {
      ForestTrees(cfg, g, d, fall, e.value.layout, LeavesOf(g, e.value.elems), true);
    }
  }

  lemma ForestApart(cfg: Cfg, g: seq<Meta>, d: Arena, fall: Falls, id: ElemId)
    requires Finished(cfg, g, d, fall) && id in fall && Present(d, id) && d[id].value.detail.If? && d[id].value.detail.elseBody.Some?
    ensures Apart(d[id].value.detail.thenBody.layout, d[id].value.detail.elseBody.value.layout)
  {
    LaidElem(cfg, g, d, fall, id);
    IfSplitAt(cfg, g, d, fall, id);
    ArmsApart(g, d[id].value.detail.thenBody, d[id].value.detail.elseBody.value, fall, fall[id].next);
  }

  lemma ForestIf(cfg: Cfg, g: seq<Meta>, d: Arena, fall: Falls, id: ElemId)
    requires Finished(cfg, g, d, fall) && id in fall && Present(d, id) && d[id].value.detail.If?
    ensures ForestOf(cfg, g, d, fall).PartsAt(id)
  {
    ForestArms(cfg, g, d, fall, id);
    LaidElem(cfg, g, d, fall, id);
    if d[id].value.detail.elseBody.Some? {
      ForestApart(cfg, g, d, fall, id);
    }
  }

  lemma ForestParts(cfg: Cfg, g: seq<Meta>, d: Arena, fall: Falls, id: ElemId)
    requires Finished(cfg, g, d, fall) && id in fall
    ensures ForestOf(cfg, g, d, fall).PartsAt(id)
  {
    LaidElem(cfg, g, d, fall, id);
    match d[id].value.detail {
      case BasicBlock(_) =>
      case Loop(_, _) => ForestLoop(cfg, g, d, fall, id);
      case If(_, _, _) => ForestIf(cfg, g, d, fall, id);
    }
  }

  lemma ForestHeads(cfg: Cfg, g: seq<Meta>, d: Arena, fall: Falls, id: ElemId)
    requires Finished(cfg, g, d, fall) && Known(g, id)
    ensures ForestOf(cfg, g, d, fall).HeadedAt(id)
  {
    assert Present(d, id);
    assert ElemAt(cfg, g, d, id) && RestAt(d, fall, id);
    if id in fall {
      assert LaidAt(g, d, fall, id);
    }
  }

  lemma LaidTargets(g: seq<Meta>, e: Elem, fall: Falls, next: Option<ElemId>)
    requires ElemLaid(g, e, fall, next) && forall i :: 0 <= i < |e.exits| ==> Known(g, e.exits[i])
    ensures |e.exits| <= 2 || !e.detail.BasicBlock? ==> forall t :: t in JumpTargets(e.jump.value) ==> Known(g, t)
  {
  }

  lemma ForestTargets(cfg: Cfg, g: seq<Meta>, d: Arena, fall: Falls, id: ElemId)
    requires Finished(cfg, g, d, fall) && id in fall
    ensures ForestOf(cfg, g, d, fall).TargetsKnown(id)
  {
    LaidElem(cfg, g, d, fall, id);
    LaidTargets(g, d[id].value, fall, fall[id].next);
  }

  lemma BlockKnown(cfg: Cfg, g: seq<Meta>, d: Arena, fall: Falls, b: ElemId)
    requires Finished(cfg, g, d, fall) && Live(cfg, b)
    ensures ForestOf(cfg, g, d, fall).BlockAt(b)
  {
    assert Known(g, b) && Present(d, b);
    assert ElemAt(cfg, g, d, b);
  }

  lemma ForestEntry(cfg: Cfg, g: seq<Meta>, d: Arena, fall: Falls, id: ElemId)
    requires Finished(cfg, g, d, fall) && id in fall
    ensures ForestOf(cfg, g, d, fall).EntryAt(id)
  {
    LaidElem(cfg, g, d, fall, id);
    ForestParts(cfg, g, d, fall, id);
    match d[id].value.detail {
      case BasicBlock(_) => BlockKnown(cfg, g, d, fall, id);
      case Loop(_, _) =>
      case If(_, _, _) => BlockKnown(cfg, g, d, fall, d[id].value.entry);
    }
  }

  lemma ForestOk(cfg: Cfg, g: seq<Meta>, d: Arena, fall: Falls)
    requires Finished(cfg, g, d, fall)
    ensures ForestOf(cfg, g, d, fall).Ok()
  {
    var c := ForestOf(cfg, g, d, fall);
    forall id | id in c.nodes
      ensures c.PartsAt(id) && c.TargetsKnown(id) && c.EntryAt(id)
    {
      ForestParts(cfg, g, d, fall, id);
      ForestTargets(cfg, g, d, fall, id);
      ForestEntry(cfg, g, d, fall, id);
    }
    forall id: nat | Known(g, id)
      ensures c.HeadedAt(id)
    {
      ForestHeads(cfg, g, d, fall, id);
    }
  }

  // ------------------------------------------------------------------------
  // Labels on demand.

  ghost function HeadsOf(g: seq<Meta>, targets: set<ElemId>): set<ElemId> {
    set t | t in targets :: HeadAt(g, t)
  }

  lemma ResolvedTargets(g: seq<Meta>, jump: Jump)
    ensures JumpTargets(Resolve(g, jump)) == HeadsOf(g, JumpTargets(jump))
  {
    if jump.Table? {
      var s := jump.tgts;
      var r := Resolve(g, jump).tgts;
      forall x
        ensures x in r <==> x in HeadsOf(g, JumpTargets(jump))
      {
        if x in r {
          var i :| 0 <= i < |r| && r[i] == x;
          assert s[i] in s;
        }
        if x in HeadsOf(g, JumpTargets(jump)) {
          var t :| t in JumpTargets(jump) && HeadAt(g, t) == x;
          var i :| 0 <= i < |s| && s[i] == t;
          assert r[i] == x;
        }
      }
    }
  }

  /** The labels asked for by the elements of a flat sequence. */
  ghost function FlowTargets(c: Forest, p: seq<(ElemId, nat)>): set<ElemId> {
    if p == [] then {} else (if p[0].0 in c.nodes then JumpTargets(c.nodes[p[0].0].jump) else {}) + FlowTargets(c, p[1..])
  }

  lemma {:induction false} FlowTargetsConcat(c: Forest, a: seq<(ElemId, nat)>, b: seq<(ElemId, nat)>)
    ensures FlowTargets(c, a + b) == FlowTargets(c, a) + FlowTargets(c, b)
  {
    if a == [] {
      assert a + b == b;
    } else {
      FlowTargetsConcat(c, a[1..], b);
      assert (a + b)[1..] == a[1..] + b;
    }
  }

  lemma {:induction false} TreeTargets(c: Forest, id: ElemId, depth: nat)
    requires c.Ok() && id in c.nodes
    ensures FlowTargets(c, Flow(c.nodes[id], depth)) == Targets(c.nodes[id])
    decreases c.nodes[id]
  {
    assert c.PartsAt(id);
    var node := c.nodes[id];
    match c.d[id].value.detail {
      case BasicBlock(_) =>
        assert Flow(node, depth) == [(id, depth)];
      case Loop(_, b) =>
        TreesTargets(c, b.layout, depth + 1);
        assert Flow(node, depth) == [(id, depth)] + FlowAll(node.body, depth + 1);
      case If(_, t, e) =>
        TreesTargets(c, t.layout, depth + 1);
        if e.Some? {
          TreesTargets(c, e.value.layout, depth + 1);
        }
        var tf, ef := FlowAll(node.thenBody, depth + 1), if node.elseBody.Arm? then FlowAll(node.elseBody.nodes, depth + 1) else [];
        FlowTargetsConcat(c, tf, ef);
        assert Flow(node, depth)[1..] == tf + ef;
    }
  }

  lemma {:induction false} TreesTargets(c: Forest, ids: seq<ElemId>, depth: nat)
    requires c.Ok() && c.HasAll(ids)
    ensures FlowTargets(c, FlowAll(c.Trees(ids), depth)) == AllTargets(c.Trees(ids))
    decreases c.Trees(ids)
  {
    if ids != [] {
      assert c.Trees(ids)[0] == c.nodes[ids[0]] && c.Trees(ids)[1..] == c.Trees(ids[1..]);
      TreeTargets(c, ids[0], depth);
      TreesTargets(c, ids[1..], depth);
      FlowTargetsConcat(c, Flow(c.nodes[ids[0]], depth), FlowAll(c.Trees(ids[1..]), depth));
    }
  }

  /** Every id the iterator yields is a scheduled element. */
  lemma {:induction false} FlowIsScheduled(c: Forest, ids: seq<ElemId>, depth: nat)
    requires c.Ok() && c.HasAll(ids)
    ensures forall x :: x in FlowAll(c.Trees(ids), depth) ==> x.0 in c.nodes
    decreases c.Trees(ids)
  {
    if ids != [] {
      assert c.Trees(ids)[0] == c.nodes[ids[0]] && c.Trees(ids)[1..] == c.Trees(ids[1..]);
      PartsAreScheduled(c, ids[0], depth);
      FlowIsScheduled(c, ids[1..], depth);
    }
  }

  lemma {:induction false} PartsAreScheduled(c: Forest, id: ElemId, depth: nat)
    requires c.Ok() && id in c.nodes
    ensures forall x :: x in Flow(c.nodes[id], depth) ==> x.0 in c.nodes
    decreases c.nodes[id]
  {
    assert c.PartsAt(id);
    match c.d[id].value.detail {
      case BasicBlock(_) =>
      case Loop(_, b) => FlowIsScheduled(c, b.layout, depth + 1);
      case If(_, t, e) =>
        FlowIsScheduled(c, t.layout, depth + 1);
        if e.Some? {
          FlowIsScheduled(c, e.value.layout, depth + 1);
        }
    }
  }

  /** Phase 1: the targets of all jumps. */
  lemma NextTargets(c: Forest, was: seq<(ElemId, nat)>, targets: set<ElemId>, all: set<ElemId>)
    requires c.Ok() && was != [] && was[0].0 in c.nodes && HeadsOf(c.g, targets) + FlowTargets(c, was) == all
    ensures Present(c.d, was[0].0) && c.d[was[0].0].value.jump.Some?
    ensures var more := JumpTargets(c.d[was[0].0].value.jump.value);
      HeadsOf(c.g, targets + more) + FlowTargets(c, was[1..]) == all && forall t :: t in more ==> Known(c.g, t)
  {
    KnownNode(c, was[0].0);
    ghost var more := JumpTargets(c.d[was[0].0].value.jump.value);
    ResolvedTargets(c.g, c.d[was[0].0].value.jump.value);
    assert HeadsOf(c.g, targets + more) == HeadsOf(c.g, targets) + HeadsOf(c.g, more);
  }

  method CollectTargets(body: Body, data: Arena, ghost c: Forest) returns (targets: set<ElemId>)
    requires c.Ok() && data == c.d && c.HasAll(body.layout)
    ensures HeadsOf(c.g, targets) == AllTargets(c.Trees(body.layout))
    ensures forall t :: t in targets ==> Known(c.g, t)
  {
    MarkedNone(data);
    var iter := new FlowIter(body, data, c, {});
    TreesTargets(c, body.layout, 0);
    FlowIsScheduled(c, body.layout, 0);
    targets := {};
    while true
      invariant iter.Valid() && iter.c == c && iter.data == data
      invariant HeadsOf(c.g, targets) + FlowTargets(c, iter.Pending()) == AllTargets(c.Trees(body.layout))
      invariant forall x :: x in iter.Pending() ==> x.0 in c.nodes
      invariant forall t :: t in targets ==> Known(c.g, t)
      modifies iter
      decreases |iter.Pending()|
    {
      ghost var was := iter.Pending();
      var item := iter.Next();
      if item.None? { break; }
      var id := item.value.0;
      assert was[0] == item.value && was[1..] == iter.Pending();
      NextTargets(c, was, targets, AllTargets(c.Trees(body.layout)));
      targets := targets + JumpTargets(data[id].value.jump.value);
    }
  }

  /** Mark the block a target leads down to. */
  method LabelTarget(t: ElemId, data: ControlFlowData, ghost c: Forest, ghost labeled: set<ElemId>)
    requires c.Ok() && Marked(c.d, data.elems, labeled) && Known(c.g, t)
    modifies data`elems
    ensures Marked(c.d, data.elems, labeled + {c.g[t].head})
  {
    var id := t;
    var seen: set<ElemId> := {};
    while true
      invariant data.elems == old(data.elems)
      invariant SameHead(c.g, id, t)
      invariant forall x :: x in seen ==> id < x
      decreases id
    {
      assert c.HeadedAt(id) && MarkedAt(c.d, data.elems, labeled, id);
      assert id !in seen;
      seen := seen + {id};
      if data.elems[id].value.detail.BasicBlock? { break; }
      id := data.elems[id].value.entry;
    }
    data.elems := data.elems[id := Some(data.elems[id].value.(detail := BasicBlock(true)))];
    forall x | 0 <= x < |c.d|
      ensures MarkedAt(c.d, data.elems, labeled + {c.g[t].head}, x)
    {
      assert MarkedAt(c.d, old(data.elems), labeled, x);
    }
  }

  method LabelBlocksByDemand(body: Body, data: ControlFlowData, ghost c: Forest) returns (ghost labeled: set<ElemId>, ghost asked: set<ElemId>)
    requires c.Ok() && data.elems == c.d && c.HasAll(body.layout)
    modifies data`elems
    ensures labeled == AllTargets(c.Trees(body.layout)) && Marked(c.d, data.elems, labeled)
    ensures labeled == HeadsOf(c.g, asked) && forall t :: t in asked ==> Known(c.g, t)
  {
    var targets := CollectTargets(body, data.elems, c);
    asked := targets;
    labeled := {};
    MarkedNone(data.elems);
    var left := targets;
    while left != {}
      invariant left <= targets && labeled == HeadsOf(c.g, targets - left)
      invariant Marked(c.d, data.elems, labeled)
      modifies data`elems
      decreases left
    {
      var t :| t in left;
      LabelTarget(t, data, c, labeled);
      assert targets - (left - {t}) == (targets - left) + {t};
      left := left - {t};
      labeled := labeled + {c.g[t].head};
    }
    assert targets - left == targets;
  }

  // ------------------------------------------------------------------------
  // The whole run.

  ghost function LiveBlocks(cfg: Cfg): set<ElemId> {
    set b | 0 <= b < |cfg| && cfg[b].Some?
  }

  ghost function FlatBody(cfg: Cfg): Body {
    Body(0, LiveBlocks(cfg), map[], [])
  }

  ghost function BlockMetas(cfg: Cfg): seq<Meta> {
    seq(|cfg|, b requires 0 <= b < |cfg| => BlockMeta(cfg, b))
  }

  ghost predicate FlatAt(cfg: Cfg, d: Arena, b: ElemId)
    requires b < |cfg| && b < |d|
  {
    d[b] == if cfg[b].Some? then Some(BlockElem(b, cfg[b].value)) else None
  }

  /** One flat body that holds every block. */
  method FromIrNaive(cfg: Cfg) returns (data: ControlFlowData, body: Body)
    requires CfgOk(cfg) && (cfg != [] ==> cfg[|cfg| - 1].Some?)
    ensures fresh(data) && data.cfg == cfg
    ensures |data.elems| == |cfg| && (forall b :: 0 <= b < |cfg| ==> FlatAt(cfg, data.elems, b))
    ensures data.meta == BlockMetas(cfg)
    ensures body == FlatBody(cfg)
  {
    data := new ControlFlowData(cfg);
    body := NewBody(0);
    for b := 0 to |cfg|
      invariant fresh(data) && |data.elems| <= b
      invariant forall i :: 0 <= i < |data.elems| ==> FlatAt(cfg, data.elems, i)
      invariant forall i :: |data.elems| <= i < b ==> cfg[i].None?
      invariant body == Body(0, set i | 0 <= i < b && cfg[i].Some?, map[], [])
    {
      if cfg[b].Some? {
        ghost var was := data.elems;
        data.AppendWithId(b, BlockElem(b, cfg[b].value));
        body := body.(elems := body.elems + {b});
        forall i | 0 <= i < |data.elems|
          ensures FlatAt(cfg, data.elems, i)
        {
          if i < |was| {
            assert FlatAt(cfg, was, i);
          }
        }
      }
    }
    data.meta := BlockMetas(cfg);
  }

  lemma FlatMetas(cfg: Cfg)
    requires CfgOk(cfg)
    ensures MetaOk(cfg, BlockMetas(cfg)) && HoldsBlocks(BlockMetas(cfg), LiveBlocks(cfg), LiveBlocks(cfg))
  {
    var g := BlockMetas(cfg);
    forall b: ElemId
      ensures HasBlock(g, LiveBlocks(cfg), b) <==> b in LiveBlocks(cfg)
    {
      if b in LiveBlocks(cfg) {
        assert b in g[b].leaves;
      }
    }
  }

  lemma FlatBodyIsOk(cfg: Cfg, g: seq<Meta>)
    requires g == BlockMetas(cfg) && Live(cfg, 0)
    ensures BodyOk(g, FlatBody(cfg), true)
  {
    var s := LiveBlocks(cfg);
    assert forall b :: b in s ==> g[b] == BlockMeta(cfg, b);
    forall b | b in s
      ensures InScope(g, LeavesOf(g, s), true, b)
    {
      MemberLeaves(g, s, b);
    }
  }

  lemma FlatIsSound(cfg: Cfg, d: Arena)
    requires CfgOk(cfg) && |d| == |cfg| && forall b :: 0 <= b < |cfg| ==> FlatAt(cfg, d, b)
    ensures ArenaOk(cfg, BlockMetas(cfg), d) && AllBare(d)
    ensures ScopePresent(BlockMetas(cfg), d, LiveBlocks(cfg), true) && Unfolded(BlockMetas(cfg), d, LiveBlocks(cfg), true)
  {
    var g := BlockMetas(cfg);
    FlatMetas(cfg);
    forall id | 0 <= id < |d|
      ensures ElemAt(cfg, g, d, id) && BareAt(d, id)
    {
      assert FlatAt(cfg, d, id);
    }
    forall id: nat | InScope(g, LiveBlocks(cfg), true, id)
      ensures Present(d, id) && UnfoldedAt(g, d, id)
    {
      assert FlatAt(cfg, d, id) && g[id] == BlockMeta(cfg, id);
    }
  }

  /** What a printed program owes the graph it was printed for. */
  ghost predicate Faithful(cfg: Cfg, prog: seq<Stmt>) {
    // Under any branch outcomes it runs the blocks the graph runs, and stops where the graph stops.
    && (forall os :: Does(cfg, prog, Then(prog, End), None, os, CfgRun(cfg, 0, os)))
    // It holds the code of every live block exactly once, and of no other.
    && Covers(CodeOf(prog), LiveBlocks(cfg))
    // Every label is there once, and labels are there exactly where a goto goes.
    && Covers(LabelsOf(prog), GotosOf(prog))
  }

  lemma ScopeOfAll(cfg: Cfg, g: seq<Meta>, d: Arena)
    requires MetaOk(cfg, g) && ScopePresent(g, d, LiveBlocks(cfg), true)
    ensures forall id: nat :: Known(g, id) ==> Present(d, id) && InScope(g, LiveBlocks(cfg), true, id)
  {
    forall id: nat | Known(g, id)
      ensures InScope(g, LiveBlocks(cfg), true, id)
    {
      forall b | b in g[id].leaves
        ensures b in LiveBlocks(cfg)
      {
        assert Live(cfg, b);
      }
    }
  }

  lemma AllStartsFresh(cfg: Cfg, g: seq<Meta>, d: Arena)
    requires ArenaOk(cfg, g, d) && AllBare(d) && ScopePresent(g, d, LiveBlocks(cfg), true)
    ensures LayoutState(cfg, g, d, map[]) && Fresh(g, d, map[], LiveBlocks(cfg), true)
  {
    forall id | 0 <= id < |d|
      ensures RestAt(d, map[], id)
    {
      assert BareAt(d, id);
    }
    forall id | InScope(g, LiveBlocks(cfg), true, id)
      ensures FreshAt(d, map[], id)
    {
      assert Present(d, id) && BareAt(d, id);
    }
  }

  lemma LayoutFinishes(cfg: Cfg, g: seq<Meta>, d: Arena, d': Arena, fall: Falls)
    requires CfgOk(cfg) && LayoutState(cfg, g, d', fall) && Scheduled(g, d, map[], d', fall, LiveBlocks(cfg), true)
    requires MetaOk(cfg, g) && ScopePresent(g, d, LiveBlocks(cfg), true)
    ensures Finished(cfg, g, d', fall)
  {
    ScopeOfAll(cfg, g, d);
    forall id: nat | Known(g, id)
      ensures Present(d', id)
    {
      assert SameSlot(d, d', id);
    }
    forall id | id in fall
      ensures Known(g, id)
    {
      assert LaidAt(g, d', fall, id);
      assert InScope(g, LiveBlocks(cfg), true, id);
    }
  }

  lemma KeepCovers(s: seq<ElemId>, blocks: set<ElemId>, which: set<ElemId>)
    requires Covers(s, blocks) && which <= blocks
    ensures Covers(Keep(s, which), which)
  {
    KeepDistinct(s, which);
    forall x
      ensures x in Keep(s, which) <==> x in which
    {
      if x in which {
        KeepHolds(s, which, x);
      }
      if x in Keep(s, which) {
        KeepSubset(s, which, x);
        KeepOnly(s, which, x);
      }
    }
  }

  lemma {:induction false} KeepOnly(s: seq<ElemId>, which: set<ElemId>, x: ElemId)
    requires x in Keep(s, which)
    ensures x in which
  {
    if x !in KeepOne(s[0], which) {
      KeepOnly(s[1..], which, x);
    }
  }

  lemma {:induction false} KeepDistinct(s: seq<ElemId>, which: set<ElemId>)
    requires Distinct(s)
    ensures Distinct(Keep(s, which))
  {
    if s != [] {
      KeepDistinct(s[1..], which);
      assert s[0] !in s[1..];
      if s[0] in Keep(s[1..], which) {
        KeepSubset(s[1..], which, s[0]);
      }
      forall x | x in KeepOne(s[0], which)
        ensures x !in Keep(s[1..], which)
      {
      }
      DistinctConcat(KeepOne(s[0], which), Keep(s[1..], which));
    }
  }

  /** A program printed from trees that fit the graph, cover its blocks and label what their jumps ask for is faithful. */
  lemma PrintedIsFaithful(cfg: Cfg, nodes: seq<Node>, labeled: set<ElemId>)
    requires AllFit(cfg, nodes, None) && HeadOf(nodes) == Some(0)
    requires Covers(AllBlocks(nodes), LiveBlocks(cfg))
    requires labeled == AllTargets(nodes) && labeled <= LiveBlocks(cfg)
    ensures Faithful(cfg, EmitAll(nodes, labeled))
  {
    var prog := EmitAll(nodes, labeled);
    forall os
      ensures Does(cfg, prog, Then(prog, End), None, os, CfgRun(cfg, 0, os))
    {
      PrintedProgramFollowsGraph(cfg, nodes, labeled, os);
    }
    EmitAllConserves(nodes, labeled);
    KeepCovers(AllBlocks(nodes), LiveBlocks(cfg), labeled);
    EmitAllGotos(cfg, nodes, None, labeled);
  }

  lemma LabelsAreBlocks(cfg: Cfg, g: seq<Meta>, labeled: set<ElemId>, targets: set<ElemId>)
    requires MetaOk(cfg, g) && labeled == HeadsOf(g, targets) && forall t :: t in targets ==> Known(g, t)
    ensures labeled <= LiveBlocks(cfg)
  {
    forall l | l in labeled
      ensures Live(cfg, l)
    {
      var t :| t in targets && HeadAt(g, t) == l;
      assert g[t].head in g[t].leaves;
    }
  }

  /** The laid out top-level body, as trees. */
  lemma TopFits(cfg: Cfg, g: seq<Meta>, d: Arena, fall: Falls, body: Body)
    requires Finished(cfg, g, d, fall) && BodyOk(g, body, true) && BodyLaid(g, body, fall, None)
    requires Live(cfg, 0) && body.entry == 0 && LeavesOf(g, body.elems) == LiveBlocks(cfg)
    ensures var c := ForestOf(cfg, g, d, fall);
      && c.HasAll(body.layout)
      && AllFit(cfg, c.Trees(body.layout), None) && HeadOf(c.Trees(body.layout)) == Some(0)
      && Covers(AllBlocks(c.Trees(body.layout)), LiveBlocks(cfg))
  {
    BodyFits(cfg, g, d, fall, body, true, None, None);
    BodyCovers(cfg, g, d, fall, body, true, None);
    ForestTrees(cfg, g, d, fall, body.layout, LeavesOf(g, body.elems), true);
  }

  /** The elements of a graph, as they are after folding, and the body that holds them all. */
  datatype FoldedGraph = FoldedGraph(g: seq<Meta>, d: Arena, body: Body)

  /** The graph folded as the source folds it: from one flat body, first its loops and then its ifs,
      each in the order the search meets them, and so in every body below. Every live block is there once. */
  ghost predicate Structured(cfg: Cfg, s: FoldedGraph) {
    && CfgOk(cfg) && Live(cfg, 0) && ArenaOk(cfg, s.g, s.d) && AllBare(s.d)
    && BodyOk(s.g, s.body, true) && LeavesOf(s.g, s.body.elems) == LiveBlocks(cfg) && s.body.entry == 0 && s.body.layout == []
    && ScopePresent(s.g, s.d, LiveBlocks(cfg), true)
    && Folds(s.g, FlatBody(cfg), {}, s.body) && AllBelow(s.g, s.d, s.body.elems)
  }

  /** No body of the structure lost the element it is entered at. */
  ghost predicate KeepsEntries(s: FoldedGraph) {
    BodyKeeps(s.g, s.d, s.body)
  }

  /** In every loop of the structure the ifs meet their joins. */
  ghost predicate MeetsJoins(s: FoldedGraph) {
    BodyJoins(s.g, s.d, s.body)
  }

  ghost function TopTask(cfg: Cfg, s: FoldedGraph): Task {
    Task(cfg, s.g, s.d, s.d, map[], s.body, true, LiveBlocks(cfg), NoParent, [], 0)
  }

  /** The flat body, which stands for the blocks `v`, and its arena, before anything is folded. */
  ghost predicate FlatStart(cfg: Cfg, g: seq<Meta>, d: Arena, b: Body, v: set<ElemId>) {
    && b == FlatBody(cfg) && CfgOk(cfg) && Live(cfg, 0) && ArenaOk(cfg, g, d) && AllBare(d)
    && BodyOk(g, b, true) && HoldsBlocks(g, b.elems, v) && ScopePresent(g, d, v, true) && Unfolded(g, d, v, true)
  }

  lemma FlatStarts(cfg: Cfg, d: Arena) returns (v: set<ElemId>)
    requires CfgOk(cfg) && Live(cfg, 0) && |d| == |cfg| && forall b :: 0 <= b < |cfg| ==> FlatAt(cfg, d, b)
    ensures FlatStart(cfg, BlockMetas(cfg), d, FlatBody(cfg), v) && IsLive(cfg, v)
  {
    FlatMetas(cfg);
    FlatBodyIsOk(cfg, BlockMetas(cfg));
    FlatIsSound(cfg, d);
    v := LiveBlocks(cfg);
  }

  ghost predicate IsLive(cfg: Cfg, v: set<ElemId>) {
    v == LiveBlocks(cfg)
  }

  method Infer(cfg: Cfg) returns (data: ControlFlowData, body: Body)
    requires CfgOk(cfg) && Live(cfg, 0) && cfg[|cfg| - 1].Some?
    ensures fresh(data) && data.cfg == cfg && Structured(cfg, FoldedGraph(data.meta, data.elems, body))
  {
    data, body := FromIrNaive(cfg);
    ghost var v := FlatStarts(cfg, data.elems);
    body := InferFlat(body, data, v);
    AllBlocksFolded(cfg, FoldedGraph(data.meta, data.elems, body), v);
  }

  /** A folded graph that stands for the blocks `v`. */
  ghost predicate FoldedOver(cfg: Cfg, s: FoldedGraph, v: set<ElemId>) {
    && CfgOk(cfg) && Live(cfg, 0) && ArenaOk(cfg, s.g, s.d) && AllBare(s.d)
    && BodyOk(s.g, s.body, true) && HoldsBlocks(s.g, s.body.elems, v) && s.body.entry == 0 && s.body.layout == []
    && ScopePresent(s.g, s.d, v, true)
    && Folds(s.g, FlatBody(cfg), {}, s.body) && AllBelow(s.g, s.d, s.body.elems)
  }

  lemma AllBlocksFolded(cfg: Cfg, s: FoldedGraph, v: set<ElemId>)
    requires FoldedOver(cfg, s, v) && IsLive(cfg, v)
    ensures Structured(cfg, s)
  {
    BlocksAre(s.g, s.body.elems, v);
  }

  method InferFlat(body: Body, data: ControlFlowData, ghost v: set<ElemId>) returns (r: Body)
    requires FlatStart(data.cfg, data.meta, data.elems, body, v)
    modifies data
    ensures FoldedOver(data.cfg, FoldedGraph(data.meta, data.elems, r), v)
  {
    r := InferStructure(body, None, data, v);
  }

  lemma StructureIsSound(cfg: Cfg, s: FoldedGraph)
    requires Structured(cfg, s)
    ensures Sound(cfg, s.g)
  {
    ScopeOfAll(cfg, s.g, s.d);
    forall x | Known(s.g, x)
      ensures KnownSound(cfg, s.g, x)
    {
      assert ElemAt(cfg, s.g, s.d, x);
    }
  }

  lemma FlatIsPlain(cfg: Cfg, g: seq<Meta>)
    requires CfgOk(cfg) && MetaOk(cfg, g)
    ensures StartsPlain(cfg, g, FlatBody(cfg)) && AllWell(cfg, g, LiveBlocks(cfg))
  {
    forall x | x in LiveBlocks(cfg)
      ensures PlainAt(cfg, g, x) && WellMade(cfg, g, x)
    {
      assert g[x] == BlockMeta(cfg, x) && Live(cfg, x);
      forall i | 0 <= i < |g[x].made.exits|
        ensures g[x].made.exits[i] < |cfg|
      {
        assert Live(cfg, cfg[x].value[i]);
      }
    }
  }

  lemma StructureKnows(cfg: Cfg, s: FoldedGraph)
    requires Structured(cfg, s)
    ensures Sound(cfg, s.g) && AllWell(cfg, s.g, s.body.elems) && BodyKnown(s.g, s.body)
  {
    StructureIsSound(cfg, s);
    FlatIsPlain(cfg, s.g);
    FoldedBodyKnows(cfg, s.g, FlatBody(cfg), {}, s.body);
  }

  lemma StructureIsReady(cfg: Cfg, s: FoldedGraph)
    requires Structured(cfg, s)
    ensures BodyReady(s.g, s.d, s.body)
  {
    StructureKnows(cfg, s);
    forall x | x in s.body.elems
      ensures Ready(s.g, s.d, x)
    {
      assert WellMade(cfg, s.g, x) && FoldedBelow(s.g, s.d, x);
      FoldedIsReady(cfg, s.g, s.d, x);
    }
  }

  /** Where no block has both exits to the same block, no if was folded over such a block. */
  lemma TwinIfsNeedTwins(cfg: Cfg, s: FoldedGraph)
    requires Structured(cfg, s) && NoTwins(cfg)
    ensures NoTwinIfs(s.g)
  {
    ScopeOfAll(cfg, s.g, s.d);
    forall id: nat
      ensures !TwinIf(s.g, id)
    {
      if Known(s.g, id) && s.g[id].made.detail.If? {
        assert ElemAt(cfg, s.g, s.d, id);
        assert Live(cfg, s.g[id].entry) && s.g[s.g[id].entry] == BlockMeta(cfg, s.g[id].entry);
      }
    }
  }

  /** Without such an if, all ifs meet their joins: the asserts of the source hold by construction. */
  lemma JoinsAreMet(cfg: Cfg, s: FoldedGraph)
    requires Structured(cfg, s) && NoTwinIfs(s.g)
    ensures MeetsJoins(s)
  {
    StructureKnows(cfg, s);
    forall x | x in s.body.elems
      ensures JoinsMeet(s.g, s.d, x)
    {
      assert WellMade(cfg, s.g, x) && FoldedBelow(s.g, s.d, x);
      FoldedMeets(cfg, s.g, s.d, x);
    }
  }

  lemma FlatIsEntered(cfg: Cfg, g: seq<Meta>)
    requires CfgOk(cfg) && MetaOk(cfg, g) && Live(cfg, 0)
    ensures Entered(cfg, g, FlatBody(cfg), 0) && Known(g, 0) && g[0].head == 0
  {
    var flat := FlatBody(cfg);
    forall x | x in flat.elems
      ensures NoLoops(cfg, g, x) && Known(g, x) && g[x].leaves == {x}
    {
      BlockHasNoLoop(cfg, g, x);
      assert g[x] == BlockMeta(cfg, x);
    }
    assert g[0] == BlockMeta(cfg, 0);
    assert EnteredWith(cfg, g, flat, 0, flat.elems);
  }

  /** In a graph without cycles in which nothing leads to the first block, nothing is lost and there are no loops. */
  lemma NoCyclesNoLoops(cfg: Cfg, s: FoldedGraph)
    requires Structured(cfg, s) && NoCycle(cfg) && NoneLeadsTo(cfg, 0)
    ensures KeepsEntries(s) && MeetsJoins(s)
  {
    StructureKnows(cfg, s);
    FlatIsEntered(cfg, s.g);
    assert AtFirstOf(cfg, s.g, 0, 0);
    FoldsToIfs(cfg, s.g, FlatBody(cfg), s.body);
    assert EnteredWith(cfg, s.g, s.body, 0, s.body.elems);
    NothingBelowStops(cfg, s);
  }

  lemma NothingBelowStops(cfg: Cfg, s: FoldedGraph)
    requires NoCycle(cfg) && AllLoopless(cfg, s.g, s.body.elems) && AllWell(cfg, s.g, s.body.elems) && AllBelow(s.g, s.d, s.body.elems)
    ensures forall x :: x in s.body.elems ==> Keeps(s.g, s.d, x) && JoinsMeet(s.g, s.d, x)
  {
    forall x | x in s.body.elems
      ensures Keeps(s.g, s.d, x) && JoinsMeet(s.g, s.d, x)
    {
      assert NoLoops(cfg, s.g, x) && WellMade(cfg, s.g, x) && FoldedBelow(s.g, s.d, x);
      NothingStops(cfg, s.g, s.d, x);
    }
  }

  /** Such graphs, and those without cycles all of whose blocks can be reached, are decompiled. */
  ghost predicate Orderly(cfg: Cfg) {
    Live(cfg, 0) && NoCycle(cfg) && (NoneLeadsTo(cfg, 0) || AllReachable(cfg))
  }

  lemma OrderlyCompletes(cfg: Cfg, s: FoldedGraph)
    ensures Structured(cfg, s) && Orderly(cfg) ==> KeepsEntries(s) && MeetsJoins(s)
  {
    if Structured(cfg, s) && Orderly(cfg) {
      if AllReachable(cfg) {
        FirstIsFirst(cfg);
      }
      NoCyclesNoLoops(cfg, s);
    }
  }

  lemma TopReady(cfg: Cfg, s: FoldedGraph)
    requires Structured(cfg, s)
    ensures Waiting(TopTask(cfg, s))
    ensures TopTask(cfg, s).Completes() <==> KeepsEntries(s) && MeetsJoins(s)
  {
    AllStartsFresh(cfg, s.g, s.d);
    SnapStarts(s.d);
    StructureKnows(cfg, s);
    StructureIsReady(cfg, s);
    assert ToBeLaid(TopTask(cfg, s), s.d);
  }

  lemma TopLaid(cfg: Cfg, s: FoldedGraph, d: Arena, fall: Falls, r: Body, next: Option<ElemId>)
    requires Structured(cfg, s) && BodyDone(TopTask(cfg, s), d, fall, r, next)
    ensures Finished(cfg, s.g, d, fall)
    ensures var c := ForestOf(cfg, s.g, d, fall);
      && c.HasAll(r.layout)
      && AllFit(cfg, c.Trees(r.layout), None) && HeadOf(c.Trees(r.layout)) == Some(0)
      && Covers(AllBlocks(c.Trees(r.layout)), LiveBlocks(cfg))
  {
    LayoutFinishes(cfg, s.g, s.d, d, fall);
    TopFits(cfg, s.g, d, fall, r);
  }

  /** The structurer: fold, lay out, label. `ok` is false where the source panics. */
  method FromIr(cfg: Cfg)
    returns (ok: bool, data: ControlFlowData, body: Body, ghost s: FoldedGraph, ghost c: Forest, ghost labeled: set<ElemId>)
    requires CfgOk(cfg) && (cfg != [] ==> cfg[|cfg| - 1].Some?)
    ensures ok ==> c.Ok() && c.HasAll(body.layout) && Marked(c.d, data.elems, labeled)
    ensures ok ==> var nodes := c.Trees(body.layout);
      && AllFit(cfg, nodes, None) && HeadOf(nodes) == Some(0)
      && Covers(AllBlocks(nodes), LiveBlocks(cfg))
      && labeled == AllTargets(nodes) && labeled <= LiveBlocks(cfg)
    ensures if Live(cfg, 0) then Structured(cfg, s) else !ok
    ensures ok <==> Live(cfg, 0) && KeepsEntries(s) && MeetsJoins(s)
  {
    ok, s, c, labeled := false, FoldedGraph([], [], NewBody(0)), Forest([], [], map[]), {};
    if |cfg| == 0 || cfg[0].None? {
      data, body := FromIrNaive(cfg);
      return;
    }
    data, body := Infer(cfg);
    s := FoldedGraph(data.meta, data.elems, body);
    TopReady(cfg, s);
    var scheduled, next;
    ghost var fall;
    scheduled, body, next, fall := ScheduleBody(body, NoParent, data, TopTask(cfg, s));
    if !scheduled { return; }
    TopLaid(cfg, s, data.elems, fall, body, next);
    ForestOk(cfg, s.g, data.elems, fall);
    c := ForestOf(cfg, s.g, data.elems, fall);
    ghost var targets;
    labeled, targets := LabelBlocksByDemand(body, data, c);
    LabelsAreBlocks(cfg, s.g, labeled, targets);
    ok := true;
  }

  /** A run completes exactly when there is a first block, no body of the folded structure lost its entry and all its
      ifs meet their joins, which they do where no if was folded over a block with both exits to one place. The
      printed program is then faithful to the graph. */
  method Build(cfg: Cfg) returns (ok: bool, prog: seq<Stmt>, ghost s: FoldedGraph)
    requires CfgOk(cfg) && (cfg != [] ==> cfg[|cfg| - 1].Some?)
    ensures ok ==> Faithful(cfg, prog)
    ensures if Live(cfg, 0) then Structured(cfg, s) else !ok
    ensures ok <==> Live(cfg, 0) && KeepsEntries(s) && MeetsJoins(s)
    ensures Live(cfg, 0) && NoTwinIfs(s.g) ==> MeetsJoins(s)
    ensures NoTwins(cfg) ==> (ok <==> Live(cfg, 0) && KeepsEntries(s))
    ensures Orderly(cfg) ==> ok
  {
    var data, body;
    ghost var c, labeled;
    ok, data, body, s, c, labeled := FromIr(cfg);
    WithoutTwins(cfg, s);
    OrderlyCompletes(cfg, s);
    prog := [];
    if !ok { return; }
    var iter := new FlowIter(body, data.elems, c, labeled);
    prog := ConvertBodyUntil(iter, 0, None, body.layout, []);
    PrintedIsFaithful(cfg, c.Trees(body.layout), labeled);
  }

  lemma WithoutTwins(cfg: Cfg, s: FoldedGraph)
    ensures Structured(cfg, s) && (NoTwinIfs(s.g) || NoTwins(cfg)) ==> MeetsJoins(s)
  {
    if Structured(cfg, s) && NoTwins(cfg) {
      TwinIfsNeedTwins(cfg, s);
    }
    if Structured(cfg, s) && NoTwinIfs(s.g) {
      JoinsAreMet(cfg, s);
    }
  }
}
