/** A laid out arena read as a tree, and why that tree keeps every edge of the graph. */
module ArenaTree {
  import opened Wrappers
  import opened ControlFlow
  import opened Ownership
  import opened Layout
  import opened FlowTree

  /** The block a jump target resolves to. */
  ghost function HeadAt(g: seq<Meta>, id: ElemId): ElemId {
    if id < |g| then g[id].head else id
  }

  ghost function Resolve(g: seq<Meta>, jump: Jump): Jump {
    match jump
    case UncondTarget(t) => UncondTarget(HeadAt(g, t))
    case CondTargetTrue(t) => CondTargetTrue(HeadAt(g, t))
    case CondTargetFalse(t) => CondTargetFalse(HeadAt(g, t))
    case CondTargetBoth(t, f) => CondTargetBoth(HeadAt(g, t), HeadAt(g, f))
    case Table(ts) => Table(seq(|ts|, i requires 0 <= i < |ts| => HeadAt(g, ts[i])))
    case _ => jump
  }

  /** `s` holds scheduled elements of a body over the blocks `v`. */
  ghost predicate Placeable(g: seq<Meta>, fall: Falls, s: seq<ElemId>, v: set<ElemId>, full: bool) {
    forall x :: x in s ==> x in fall && InScope(g, v, full, x)
  }

  lemma BodyPlaceable(g: seq<Meta>, fall: Falls, b: Body, full: bool, out: Option<ElemId>)
    requires BodyOk(g, b, full) && BodyLaid(g, b, fall, out)
    ensures Placeable(g, fall, b.layout, LeavesOf(g, b.elems), full)
  {
    forall x | x in b.layout
      ensures x in fall && InScope(g, LeavesOf(g, b.elems), full, x)
    {
      var i :| 0 <= i < |b.layout| && b.layout[i] == x;
      assert Follows(fall, b.layout, i, out);
    }
  }

  /** What a laid out element is known to be. */
  lemma LaidElem(cfg: Cfg, g: seq<Meta>, d: Arena, fall: Falls, id: ElemId)
    requires LayoutState(cfg, g, d, fall) && id in fall
    ensures Present(d, id) && ElemOk(cfg, g, id, d[id].value) && ElemLaid(g, d[id].value, fall, fall[id].next)
  {
    assert LaidAt(g, d, fall, id) && ElemAt(cfg, g, d, id);
  }

  /** What an element's parts are, for reading it as a tree. */
  lemma PartsPlaceable(cfg: Cfg, g: seq<Meta>, d: Arena, fall: Falls, id: ElemId)
    requires LayoutState(cfg, g, d, fall) && id in fall
    ensures Present(d, id) && Known(g, id) && d[id].value.jump.Some?
    ensures match d[id].value.detail
      case BasicBlock(_) => true
      case Loop(_, b) => g[id].loop && Placeable(g, fall, b.layout, g[id].leaves, false)
      case If(_, t, e) =>
        && |d[id].value.exits| == 1
        && Placeable(g, fall, t.layout, LeavesOf(g, t.elems), true) && LeavesOf(g, t.elems) < g[id].leaves
        && (e.Some? ==> Placeable(g, fall, e.value.layout, LeavesOf(g, e.value.elems), true) && LeavesOf(g, e.value.elems) < g[id].leaves)
  {
    LaidElem(cfg, g, d, fall, id);
    match d[id].value.detail {
      case BasicBlock(_) =>
      case Loop(_, b) => BodyPlaceable(g, fall, b, false, None);
      case If(_, t, e) =>
        BodyPlaceable(g, fall, t, true, fall[id].next);
        if e.Some? {
          BodyPlaceable(g, fall, e.value, true, fall[id].next);
        }
    }
  }

  ghost function TreeOf(cfg: Cfg, g: seq<Meta>, d: Arena, fall: Falls, id: ElemId): Node
    requires LayoutState(cfg, g, d, fall) && id in fall && Known(g, id)
    decreases g[id].leaves, if g[id].loop then 2 else 0
  {
    PartsPlaceable(cfg, g, d, fall, id);
    var e := d[id].value;
    var jump := Resolve(g, e.jump.value);
    match e.detail
    case BasicBlock(_) => BlockNode(id, jump)
    case Loop(_, b) => LoopNode(id, TreesOf(cfg, g, d, fall, b.layout, g[id].leaves, false), jump)
    case If(inverted, t, other) =>
      IfNode(id, e.entry, inverted, HeadAt(g, e.exits[0]),
             TreesOf(cfg, g, d, fall, t.layout, LeavesOf(g, t.elems), true),
             if other.None? then NoArm
             else Arm(TreesOf(cfg, g, d, fall, other.value.layout, LeavesOf(g, other.value.elems), true)),
             jump)
  }

  ghost function TreesOf(cfg: Cfg, g: seq<Meta>, d: Arena, fall: Falls, s: seq<ElemId>, v: set<ElemId>, full: bool): seq<Node>
    requires LayoutState(cfg, g, d, fall) && Placeable(g, fall, s, v, full)
    decreases v, if full then 3 else 1, |s|
  {
    if s == [] then []
    else
      assert s[0] in s;
      [TreeOf(cfg, g, d, fall, s[0])] + TreesOf(cfg, g, d, fall, s[1..], v, full)
  }

  /** The scope only bounds the recursion. */
  lemma {:induction false} TreesOfAnyScope(cfg: Cfg, g: seq<Meta>, d: Arena, fall: Falls, s: seq<ElemId>,
                                           v: set<ElemId>, full: bool, w: set<ElemId>, wfull: bool)
    requires LayoutState(cfg, g, d, fall) && Placeable(g, fall, s, v, full) && Placeable(g, fall, s, w, wfull)
    ensures TreesOf(cfg, g, d, fall, s, v, full) == TreesOf(cfg, g, d, fall, s, w, wfull)
    decreases |s|
  {
    if s != [] {
      TreesOfAnyScope(cfg, g, d, fall, s[1..], v, full, w, wfull);
    }
  }

  // ------------------------------------------------------------------------
  // Every edge is kept.

  /** `next` is what is printed after an element that chose `choice` to follow it. */
  ghost predicate NextIs(g: seq<Meta>, choice: Option<ElemId>, next: Option<ElemId>) {
    choice.Some? ==> Known(g, choice.value) && next == Some(g[choice.value].head)
  }

  lemma BlockHead(cfg: Cfg, g: seq<Meta>, b: ElemId)
    requires MetaOk(cfg, g) && Live(cfg, b)
    ensures HeadAt(g, b) == b && Known(g, b)
  {
  }

  lemma BlockTreeFits(cfg: Cfg, g: seq<Meta>, b: ElemId, exits: seq<ElemId>, jump: Jump, choice: Option<ElemId>, next: Option<ElemId>)
    requires CfgOk(cfg) && MetaOk(cfg, g) && Live(cfg, b) && cfg[b] == Some(exits)
    requires BlockJump(g, exits, jump, choice) && NextIs(g, choice, next)
    ensures BlockFits(exits, Resolve(g, jump), next)
  {
    forall i | 0 <= i < |exits|
      ensures HeadAt(g, exits[i]) == exits[i]
    {
      BlockHead(cfg, g, exits[i]);
    }
  }

  lemma LeaveFits(g: seq<Meta>, exit: ElemId, jump: Jump, choice: Option<ElemId>, next: Option<ElemId>)
    requires LeaveJump(g, exit, jump, choice) && NextIs(g, choice, next)
    ensures LeadsTo(Resolve(g, jump), HeadAt(g, exit), next)
    ensures NextIs(g, choice, Some(HeadAt(g, exit)))
  {
  }

  lemma {:induction false} TreeFits(cfg: Cfg, g: seq<Meta>, d: Arena, fall: Falls, id: ElemId, next: Option<ElemId>)
    requires CfgOk(cfg) && LayoutState(cfg, g, d, fall) && id in fall && Known(g, id) && NextIs(g, fall[id].next, next)
    ensures Fits(cfg, TreeOf(cfg, g, d, fall, id), next) && Head(TreeOf(cfg, g, d, fall, id)) == Some(g[id].head)
    decreases g[id].leaves, if g[id].loop then 2 else 0
  {
    PartsPlaceable(cfg, g, d, fall, id);
    LaidElem(cfg, g, d, fall, id);
    var e := d[id].value;
    match e.detail {
      case BasicBlock(_) =>
        BlockTreeFits(cfg, g, id, e.exits, e.jump.value, fall[id].next, next);
      case Loop(_, b) =>
        BodyFits(cfg, g, d, fall, b, false, None, None);
      case If(inverted, t, other) =>
        var exit := HeadAt(g, e.exits[0]);
        LeaveFits(g, e.exits[0], e.jump.value, fall[id].next, next);
        BodyFits(cfg, g, d, fall, t, true, fall[id].next, Some(exit));
        if other.Some? {
          BodyFits(cfg, g, d, fall, other.value, true, fall[id].next, Some(exit));
        }
    }
  }

  lemma {:induction false} BodyFits(cfg: Cfg, g: seq<Meta>, d: Arena, fall: Falls, b: Body, full: bool, out: Option<ElemId>, next: Option<ElemId>)
    requires CfgOk(cfg) && LayoutState(cfg, g, d, fall) && BodyOk(g, b, full) && BodyLaid(g, b, fall, out) && NextIs(g, out, next)
    ensures Placeable(g, fall, b.layout, LeavesOf(g, b.elems), full)
    ensures var ts := TreesOf(cfg, g, d, fall, b.layout, LeavesOf(g, b.elems), full);
      AllFit(cfg, ts, next) && HeadOf(ts) == Some(g[b.entry].head)
    decreases LeavesOf(g, b.elems), if full then 3 else 1, |b.layout| + 1
  {
    BodyPlaceable(g, fall, b, full, out);
    SuffixFits(cfg, g, d, fall, b.layout, 0, LeavesOf(g, b.elems), full, out, next);
    assert b.layout[0..] == b.layout;
  }

  lemma {:induction false} SuffixFits(cfg: Cfg, g: seq<Meta>, d: Arena, fall: Falls, s: seq<ElemId>, i: nat, v: set<ElemId>, full: bool,
                                      out: Option<ElemId>, next: Option<ElemId>)
    requires CfgOk(cfg) && LayoutState(cfg, g, d, fall) && Placeable(g, fall, s, v, full)
    requires i < |s| && (forall j :: 0 <= j < |s| ==> Follows(fall, s, j, out)) && NextIs(g, out, next)
    ensures Placeable(g, fall, s[i..], v, full) && s[i] < |g|
    ensures var ts := TreesOf(cfg, g, d, fall, s[i..], v, full);
      AllFit(cfg, ts, next) && HeadOf(ts) == Some(g[s[i]].head)
    decreases v, if full then 3 else 1, |s| - i
  {
    assert s[i] in s && Follows(fall, s, i, out);
    assert s[i..][0] == s[i] && s[i..][1..] == s[i + 1..];
    if i + 1 < |s| {
      SuffixFits(cfg, g, d, fall, s, i + 1, v, full, out, next);
      assert s[i + 1] in s;
      TreeFits(cfg, g, d, fall, s[i], Some(g[s[i + 1]].head));
    } else {
      TreeFits(cfg, g, d, fall, s[i], next);
    }
  }

  // ------------------------------------------------------------------------
  // Every block is there once.

  lemma DistinctConcat(a: seq<ElemId>, b: seq<ElemId>)
    requires Distinct(a) && Distinct(b) && forall x :: x in a ==> x !in b
    ensures Distinct(a + b)
  {
    var s := a + b;
    forall i, j | 0 <= i < j < |s|
      ensures s[i] != s[j]
    {
      if i < |a| && |a| <= j {
        assert s[i] in a && s[j] in b;
      }
    }
  }

  ghost predicate Covers(s: seq<ElemId>, blocks: set<ElemId>) {
    Distinct(s) && forall b :: b in s <==> b in blocks
  }

  lemma CoversConcat(a: seq<ElemId>, s: set<ElemId>, b: seq<ElemId>, t: set<ElemId>)
    requires Covers(a, s) && Covers(b, t) && s !! t
    ensures Covers(a + b, s + t)
  {
    DistinctConcat(a, b);
  }

  lemma {:induction false} TreeCovers(cfg: Cfg, g: seq<Meta>, d: Arena, fall: Falls, id: ElemId)
    requires LayoutState(cfg, g, d, fall) && id in fall && Known(g, id)
    ensures Covers(Blocks(TreeOf(cfg, g, d, fall, id)), g[id].leaves)
    decreases g[id].leaves, if g[id].loop then 2 else 0
  {
    PartsPlaceable(cfg, g, d, fall, id);
    LaidElem(cfg, g, d, fall, id);
    match d[id].value.detail {
      case BasicBlock(_) => CoversOne(id);
      case Loop(_, b) => BodyCovers(cfg, g, d, fall, b, false, None);
      case If(_, _, _) => IfTreeCovers(cfg, g, d, fall, id);
    }
  }

  lemma IfSplitAt(cfg: Cfg, g: seq<Meta>, d: Arena, fall: Falls, id: ElemId)
    requires LayoutState(cfg, g, d, fall) && id in fall && Present(d, id) && d[id].value.detail.If?
    ensures Known(g, id)
    ensures var e := d[id].value; var t, o := LeavesOf(g, e.detail.thenBody.elems), ElseLeaves(g, e.detail.elseBody);
      g[id].leaves == {e.entry} + t + o && e.entry !in t && e.entry !in o && t !! o
    ensures BodyOk(g, d[id].value.detail.thenBody, true)
    ensures d[id].value.detail.elseBody.Some? ==> BodyOk(g, d[id].value.detail.elseBody.value, true)
  {
    LaidElem(cfg, g, d, fall, id);
  }

  lemma {:induction false} IfTreeCovers(cfg: Cfg, g: seq<Meta>, d: Arena, fall: Falls, id: ElemId)
    requires LayoutState(cfg, g, d, fall) && id in fall && Known(g, id)
    requires Present(d, id) && d[id].value.detail.If?
    ensures Covers(Blocks(TreeOf(cfg, g, d, fall, id)), g[id].leaves)
    decreases g[id].leaves, if g[id].loop then 2 else 0, -1
  {
    PartsPlaceable(cfg, g, d, fall, id);
    LaidElem(cfg, g, d, fall, id);
    IfSplitAt(cfg, g, d, fall, id);
    var t, other := d[id].value.detail.thenBody, d[id].value.detail.elseBody;
    BodyCovers(cfg, g, d, fall, t, true, fall[id].next);
    if other.Some? {
      BodyCovers(cfg, g, d, fall, other.value, true, fall[id].next);
    }
    IfCovers(TreeOf(cfg, g, d, fall, id), LeavesOf(g, t.elems), ElseLeaves(g, other));
  }

  lemma CoversOne(b: ElemId)
    ensures Covers([b], {b})
  {
  }

  lemma IfCovers(node: Node, t: set<ElemId>, e: set<ElemId>)
    requires node.IfNode? && Covers(AllBlocks(node.thenBody), t)
    requires if node.elseBody.Arm? then Covers(AllBlocks(node.elseBody.nodes), e) else e == {}
    requires node.entry !in t && node.entry !in e && t !! e
    ensures Covers(Blocks(node), {node.entry} + t + e)
  {
    var tb, eb := AllBlocks(node.thenBody), if node.elseBody.Arm? then AllBlocks(node.elseBody.nodes) else [];
    CoversOne(node.entry);
    CoversConcat([node.entry], {node.entry}, tb, t);
    CoversConcat([node.entry] + tb, {node.entry} + t, eb, e);
  }

  lemma {:induction false} BodyCovers(cfg: Cfg, g: seq<Meta>, d: Arena, fall: Falls, b: Body, full: bool, out: Option<ElemId>)
    requires LayoutState(cfg, g, d, fall) && BodyOk(g, b, full) && BodyLaid(g, b, fall, out)
    ensures Placeable(g, fall, b.layout, LeavesOf(g, b.elems), full)
    ensures Covers(AllBlocks(TreesOf(cfg, g, d, fall, b.layout, LeavesOf(g, b.elems), full)), LeavesOf(g, b.elems))
    decreases LeavesOf(g, b.elems), if full then 3 else 1, |b.layout| + 1
  {
    BodyPlaceable(g, fall, b, full, out);
    SuffixCovers(cfg, g, d, fall, b.layout, LeavesOf(g, b.elems), full);
    assert (set x | x in b.layout) == b.elems;
  }

  lemma {:induction false} SuffixCovers(cfg: Cfg, g: seq<Meta>, d: Arena, fall: Falls, s: seq<ElemId>, v: set<ElemId>, full: bool)
    requires LayoutState(cfg, g, d, fall) && Placeable(g, fall, s, v, full)
    requires Distinct(s) && MembersOk(g, set x | x in s)
    ensures Covers(AllBlocks(TreesOf(cfg, g, d, fall, s, v, full)), LeavesOf(g, set x | x in s))
    decreases v, if full then 3 else 1, |s|
  {
    if s != [] {
      var members, rest := set x | x in s, set x | x in s[1..];
      assert s[0] in s && s[0] !in s[1..];
      assert members == {s[0]} + rest;
      TreeCovers(cfg, g, d, fall, s[0]);
      SuffixCovers(cfg, g, d, fall, s[1..], v, full);
      Structure.LeavesOfOne(g, s[0]);
      Structure.LeavesOfUnion(g, {s[0]}, rest);
      Structure.LeavesOfDisjoint(g, members, {s[0]}, rest);
      CoversConcat(Blocks(TreeOf(cfg, g, d, fall, s[0])), g[s[0]].leaves, AllBlocks(TreesOf(cfg, g, d, fall, s[1..], v, full)), LeavesOf(g, rest));
    }
  }
}
