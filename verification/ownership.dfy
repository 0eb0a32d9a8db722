/** Which blocks an element stands for, and when an arena of elements is sound. */
module Ownership {
  import opened Wrappers
  import opened ControlFlow

  /** Fixed for the life of an element: the blocks below it, the block it starts with, and what it
      was when it was made, before anything was folded in its bodies. */
  datatype Meta = Meta(leaves: set<ElemId>, head: ElemId, made: Elem) {
    const entry := made.entry
    const loop := made.detail.Loop?
  }

  ghost function BlockMeta(cfg: Cfg, b: ElemId): Meta
    requires b < |cfg|
  {
    if cfg[b].Some? then Meta({b}, b, BlockElem(b, cfg[b].value)) else Meta({}, b, BlockElem(b, []))
  }

  ghost predicate Live(cfg: Cfg, b: ElemId) {
    b < |cfg| && cfg[b].Some?
  }

  /** A graph without jump tables: every block has at most two exits, all to live blocks. */
  ghost predicate CfgOk(cfg: Cfg) {
    forall b: nat :: Live(cfg, b) ==>
      |cfg[b].value| <= 2 && forall i :: 0 <= i < |cfg[b].value| ==> Live(cfg, cfg[b].value[i])
  }

  ghost predicate Known(g: seq<Meta>, id: ElemId) {
    id < |g| && g[id].leaves != {}
  }

  ghost predicate SameHead(g: seq<Meta>, a: ElemId, b: ElemId) {
    Known(g, a) && Known(g, b) && g[a].head == g[b].head
  }

  ghost predicate MetaOk(cfg: Cfg, g: seq<Meta>) {
    && |cfg| <= |g|
    && (forall b :: 0 <= b < |cfg| ==> g[b] == BlockMeta(cfg, b))
    && (forall id :: |cfg| <= id < |g| ==> Known(g, id))
    && (forall id: nat :: Known(g, id) ==> g[id].head in g[id].leaves)
    && (forall id, b :: 0 <= id < |g| && b in g[id].leaves ==> Live(cfg, b))
  }

  ghost function LeavesOf(g: seq<Meta>, s: set<ElemId>): set<ElemId> {
    set x, b | x in s && x < |g| && b in g[x].leaves :: b
  }

  ghost predicate HasBlock(g: seq<Meta>, s: set<ElemId>, b: ElemId) {
    b in LeavesOf(g, s)
  }

  /** The members `s` stand for exactly the blocks `v`. */
  ghost predicate HoldsBlocks(g: seq<Meta>, s: set<ElemId>, v: set<ElemId>) {
    forall b {:trigger HasBlock(g, s, b)} :: HasBlock(g, s, b) <==> b in v
  }

  lemma BlocksAre(g: seq<Meta>, s: set<ElemId>, v: set<ElemId>)
    requires HoldsBlocks(g, s, v)
    ensures LeavesOf(g, s) == v
  {
    forall b
      ensures b in LeavesOf(g, s) <==> b in v
    {
      assert HasBlock(g, s, b) <==> b in v;
    }
  }

  lemma LeavesAreBlocks(g: seq<Meta>, s: set<ElemId>)
    ensures HoldsBlocks(g, s, LeavesOf(g, s))
  {
  }

  /** Members with no block in common. */
  ghost predicate MembersOk(g: seq<Meta>, s: set<ElemId>) {
    && (forall x :: x in s ==> Known(g, x))
    && (forall x, y :: x in s && y in s && x != y ==> g[x].leaves !! g[y].leaves)
  }

  /** The elements that may lie below a body holding the blocks `v`. A loop whose body
      this is has the same blocks, so a loop body (`full` false) leaves such loops out. */
  ghost predicate InScope(g: seq<Meta>, v: set<ElemId>, full: bool, id: ElemId) {
    Known(g, id) && g[id].leaves <= v && (g[id].loop && g[id].leaves == v ==> full)
  }

  /** `x` is the element that took over the name `k` by folding it as its entry. */
  ghost predicate Renames(g: seq<Meta>, k: ElemId, x: ElemId) {
    SameHead(g, k, x) && g[x].entry == k
  }

  /** Members with no block in common, and names of what was folded into one of them. */
  ghost predicate Named(g: seq<Meta>, b: Body) {
    MembersOk(g, b.elems) && Known(g, b.entry) && forall k :: k in b.remap ==> Renames(g, k, b.remap[k]) && k !in b.elems
  }

  ghost predicate BodyOk(g: seq<Meta>, b: Body, full: bool) {
    && MembersOk(g, b.elems)
    && (forall x :: x in b.elems ==> InScope(g, LeavesOf(g, b.elems), full, x))
    && InScope(g, LeavesOf(g, b.elems), full, b.entry)
    && (forall k :: k in b.remap ==> Renames(g, k, b.remap[k]) && k !in b.elems)
  }

  /** The exit of block `b` taken on branch outcome `taken` (the first exit is the taken one). */
  ghost function BranchExit(cfg: Cfg, b: ElemId, taken: bool): ElemId
    requires Live(cfg, b) && |cfg[b].value| == 2
  {
    cfg[b].value[if taken then 0 else 1]
  }

  ghost predicate LoopHead(g: seq<Meta>, id: ElemId, e: Elem, bodyEntry: ElemId)
    requires Known(g, id)
  {
    && g[id].loop
    && e.entry < id
    && SameHead(g, bodyEntry, id)
    && (forall i :: 0 <= i < |e.exits| ==> e.exits[i] < id && e.exits[i] != e.entry)
  }

  ghost predicate LoopOk(g: seq<Meta>, id: ElemId, e: Elem)
    requires e.detail.Loop? && Known(g, id)
  {
    var body := e.detail.body;
    && LoopHead(g, id, e, body.entry)
    && BodyOk(g, body, false)
    && LeavesOf(g, body.elems) == g[id].leaves
  }

  /** How an if over header `e.entry` splits the blocks `leaves` between its arms, and where the arms start. */
  ghost predicate IfSplit(cfg: Cfg, g: seq<Meta>, e: Elem, leaves: set<ElemId>,
                          thenEntry: ElemId, thenLeaves: set<ElemId>, elseEntry: ElemId, elseLeaves: set<ElemId>)
    requires e.detail.If?
  {
    && Live(cfg, e.entry) && |cfg[e.entry].value| == 2
    && Known(g, thenEntry) && g[thenEntry].head == BranchExit(cfg, e.entry, !e.detail.inverted)
    && Known(g, elseEntry) && g[elseEntry].head == BranchExit(cfg, e.entry, e.detail.inverted)
    && leaves == {e.entry} + thenLeaves + elseLeaves
    && e.entry !in thenLeaves && e.entry !in elseLeaves && thenLeaves !! elseLeaves
  }

  ghost function ElseLeaves(g: seq<Meta>, b: Option<Body>): set<ElemId> {
    if b.Some? then LeavesOf(g, b.value.elems) else {}
  }

  ghost predicate IfOk(cfg: Cfg, g: seq<Meta>, id: ElemId, e: Elem)
    requires e.detail.If? && Known(g, id)
  {
    var arm, other := e.detail.thenBody, e.detail.elseBody;
    && !g[id].loop
    && |e.exits| == 1
    && BodyOk(g, arm, true)
    && (other.Some? ==> BodyOk(g, other.value, true))
    && IfSplit(cfg, g, e, g[id].leaves, arm.entry, LeavesOf(g, arm.elems),
               if other.Some? then other.value.entry else e.exits[0], ElseLeaves(g, other))
  }

  ghost predicate ElemHead(cfg: Cfg, g: seq<Meta>, id: ElemId, e: Elem) {
    && SameHead(g, e.entry, id)
    && SameKind(g[id].made, e)
    && (forall i :: 0 <= i < |e.exits| ==> Known(g, e.exits[i]))
    && (!e.detail.BasicBlock? ==> |cfg| <= id)
  }

  ghost predicate ElemOk(cfg: Cfg, g: seq<Meta>, id: ElemId, e: Elem) {
    && ElemHead(cfg, g, id, e)
    && match e.detail
       case BasicBlock(_) => Live(cfg, id) && e.entry == id && cfg[id] == Some(e.exits)
       case Loop(_, _) => LoopOk(g, id, e)
       case If(_, _, _) => IfOk(cfg, g, id, e)
  }

  ghost predicate ElemAt(cfg: Cfg, g: seq<Meta>, d: Arena, id: ElemId)
    requires id < |d|
  {
    d[id].Some? ==> ElemOk(cfg, g, id, d[id].value)
  }

  ghost predicate ArenaOk(cfg: Cfg, g: seq<Meta>, d: Arena) {
    && |d| == |g|
    && MetaOk(cfg, g)
    && (forall id :: 0 <= id < |d| ==> ElemAt(cfg, g, d, id))
  }

  ghost predicate ScopePresent(g: seq<Meta>, d: Arena, v: set<ElemId>, full: bool) {
    forall id :: InScope(g, v, full, id) ==> Present(d, id)
  }

  // ------------------------------------------------------------------------
  // Growing the arena does not disturb what is known of the old elements.

  lemma LeavesOfPrefix(g: seq<Meta>, h: seq<Meta>, s: set<ElemId>)
    requires g <= h && forall x :: x in s ==> x < |g|
    ensures LeavesOf(g, s) == LeavesOf(h, s)
  {
  }

  lemma BodyOkPrefix(g: seq<Meta>, h: seq<Meta>, b: Body, full: bool)
    requires g <= h && BodyOk(g, b, full)
    ensures BodyOk(h, b, full) && LeavesOf(g, b.elems) == LeavesOf(h, b.elems)
  {
    LeavesOfPrefix(g, h, b.elems);
    forall k | k in b.remap
      ensures Renames(h, k, b.remap[k])
    {
      assert Renames(g, k, b.remap[k]);
    }
  }

  lemma IfOkPrefix(cfg: Cfg, g: seq<Meta>, h: seq<Meta>, id: ElemId, e: Elem)
    requires g <= h && e.detail.If? && Known(g, id) && IfOk(cfg, g, id, e)
    ensures IfOk(cfg, h, id, e)
  {
    BodyOkPrefix(g, h, e.detail.thenBody, true);
    if e.detail.elseBody.Some? {
      BodyOkPrefix(g, h, e.detail.elseBody.value, true);
    }
  }

  lemma LoopOkPrefix(g: seq<Meta>, h: seq<Meta>, id: ElemId, e: Elem)
    requires g <= h && e.detail.Loop? && Known(g, id) && LoopOk(g, id, e)
    ensures LoopOk(h, id, e)
  {
    BodyOkPrefix(g, h, e.detail.body, false);
  }

  lemma ElemOkPrefix(cfg: Cfg, g: seq<Meta>, h: seq<Meta>, id: ElemId, e: Elem)
    requires g <= h && ElemOk(cfg, g, id, e)
    ensures ElemOk(cfg, h, id, e)
  {
    match e.detail {
      case BasicBlock(_) =>
      case Loop(_, _) => LoopOkPrefix(g, h, id, e);
      case If(_, _, _) => IfOkPrefix(cfg, g, h, id, e);
    }
  }

  lemma ArenaOkAppend(cfg: Cfg, g: seq<Meta>, d: Arena, m: Meta, e: Elem)
    requires ArenaOk(cfg, g, d) && MetaOk(cfg, g + [m])
    requires ElemOk(cfg, g + [m], |d|, e)
    ensures ArenaOk(cfg, g + [m], d + [Some(e)])
  {
    forall id | 0 <= id < |d| + 1
      ensures ElemAt(cfg, g + [m], d + [Some(e)], id)
    {
      if id < |d| && d[id].Some? {
        assert ElemAt(cfg, g, d, id);
        ElemOkPrefix(cfg, g, g + [m], id, d[id].value);
      }
    }
  }

  /** Regrouping members keeps the blocks: some members are replaced by one element
      that stands for exactly their blocks. */
  lemma RegroupMembers(g: seq<Meta>, s: set<ElemId>, out: set<ElemId>, m: Meta)
    requires MembersOk(g, s) && out <= s && m.leaves == LeavesOf(g, out) && m.leaves != {}
    ensures MembersOk(g + [m], s - out + {|g|})
    ensures LeavesOf(g + [m], s - out + {|g|}) == LeavesOf(g, s)
  {
    var h, t := g + [m], s - out + {|g|};
    forall b
      ensures b in LeavesOf(h, t) <==> b in LeavesOf(g, s)
    {
      if b in LeavesOf(g, s) {
        var x :| x in s && x < |g| && b in g[x].leaves;
        if x in out {
          assert b in LeavesOf(g, out);
          assert |g| in t && b in h[|g|].leaves;
        } else {
          assert x in t && b in h[x].leaves;
        }
      }
      if b in LeavesOf(h, t) {
        var x :| x in t && x < |h| && b in h[x].leaves;
        if x == |g| {
          assert b in LeavesOf(g, out);
          var y :| y in out && y < |g| && b in g[y].leaves;
          assert y in s;
        } else {
          assert x in s && b in g[x].leaves;
        }
      }
    }
    forall x | x in s - out
      ensures g[x].leaves !! m.leaves
    {
      if b :| b in g[x].leaves && b in m.leaves {
        var w :| w in out && w < |g| && b in g[w].leaves;
        assert w in s && w != x;
      }
    }
  }
}
