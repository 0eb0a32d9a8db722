/** Folding a flat body into loops and if statements
    (dis86/src/decompile/control_flow.rs, infer_loop, infer_if, infer_structure). */
module Structure {
  import opened Wrappers
  import opened ControlFlow
  import opened Ownership
  import opened Dfs
  import opened FirstCycle

  /** An element before layout: no jump chosen, no body laid out, no label asked for. */
  ghost predicate Bare(e: Elem) {
    && e.jump.None?
    && match e.detail
       case BasicBlock(labeled) => !labeled
       case Loop(_, body) => body.layout == []
       case If(_, arm, other) => arm.layout == [] && (other.Some? ==> other.value.layout == [])
  }

  ghost predicate BareAt(d: Arena, id: ElemId)
    requires id < |d|
  {
    d[id].Some? ==> Bare(d[id].value)
  }

  ghost predicate AllBare(d: Arena) {
    forall id :: 0 <= id < |d| ==> BareAt(d, id)
  }

  lemma AppendBare(d: Arena, e: Elem)
    requires AllBare(d) && Bare(e)
    ensures AllBare(d + [Some(e)])
  {
    var d1 := d + [Some(e)];
    forall id | 0 <= id < |d1|
      ensures BareAt(d1, id)
    {
      if id < |d| {
        assert BareAt(d, id);
      }
    }
  }

  lemma UpdateBare(d: Arena, id: ElemId, e: Option<Elem>)
    requires AllBare(d) && id < |d| && (e.Some? ==> Bare(e.value))
    ensures AllBare(d[id := e])
  {
    var d1 := d[id := e];
    forall x | 0 <= x < |d1|
      ensures BareAt(d1, x)
    {
      assert BareAt(d, x);
    }
  }

  class ControlFlowData {
    var elems: Arena
    ghost var meta: seq<Meta>
    ghost const cfg: Cfg

    constructor (ghost cfg: Cfg)
      ensures this.cfg == cfg && elems == [] && meta == []
    {
      this.cfg, elems, meta := cfg, [], [];
    }

    /** Sound, and nothing laid out yet. */
    ghost predicate Valid()
      reads this
    {
      CfgOk(cfg) && ArenaOk(cfg, meta, elems) && AllBare(elems)
    }

    method Append(elem: Elem, ghost m: Meta) returns (id: ElemId)
      modifies this
      ensures id == |old(elems)|
      ensures elems == old(elems) + [Some(elem)] && meta == old(meta) + [m]
    {
      id := |elems|;
      elems := elems + [Some(elem)];
      meta := meta + [m];
    }

    /** Blocks keep their own number: skipped numbers become empty slots. */
    method AppendWithId(id: ElemId, elem: Elem)
      requires |elems| <= id
      modifies this`elems
      ensures |elems| == id + 1 && elems[id] == Some(elem)
      ensures forall i :: 0 <= i < id ==> elems[i] == if i < |old(elems)| then old(elems)[i] else None
    {
      while |elems| < id
        invariant |old(elems)| <= |elems| <= id
        invariant forall i :: 0 <= i < |elems| ==> elems[i] == if i < |old(elems)| then old(elems)[i] else None
      {
        elems := elems + [None];
      }
      elems := elems + [Some(elem)];
    }

    method Checkout(id: ElemId) returns (elem: Elem)
      requires Present(elems, id)
      modifies this`elems
      ensures elem == old(elems)[id].value && elems == old(elems)[id := None]
    {
      elem := elems[id].value;
      elems := elems[id := None];
    }

    method Release(id: ElemId, elem: Elem)
      requires id < |elems| && elems[id].None?
      modifies this`elems
      ensures elems == old(elems)[id := Some(elem)]
    {
      elems := elems[id := Some(elem)];
    }
  }

  /** Exit `w.1` at the end of the simple path `w.0` leads back to the path's node `t`. */
  ghost predicate Closes(g: Graph, w: (seq<ElemId>, nat), t: ElemId) {
    g.Step(w) && g.Target(g.Last(w.0), w.1) == t && g.Open(t) && t in w.0
  }

  /** The nodes of `p` from `t` on. */
  ghost predicate OnCycle(p: seq<ElemId>, t: ElemId, x: ElemId) {
    exists i, j :: 0 <= i <= j < |p| && p[i] == t && p[j] == x
  }

  ghost predicate Backedge(done: set<(seq<ElemId>, nat)>, g: Graph, t: ElemId, x: ElemId) {
    exists w :: w in done && Closes(g, w, t) && g.Last(w.0) == x
  }

  ghost predicate Captured(done: set<(seq<ElemId>, nat)>, g: Graph, t: ElemId, x: ElemId) {
    exists w :: w in done && Closes(g, w, t) && OnCycle(w.0, t, x)
  }

  /** Every (path, exit) pair of the simple paths from `entry`. */
  ghost predicate AllSteps(g: Graph, entry: ElemId, done: set<(seq<ElemId>, nat)>) {
    && (forall w :: w in done ==> g.Step(w) && w.0[0] == entry)
    && g.Covered(done, [entry])
  }

  datatype LoopShape = LoopShape(entry: ElemId, backedges: set<ElemId>, elems: set<ElemId>)

  /** What the loop under construction holds after the pairs in `done`. */
  ghost predicate Gathered(g: Graph, done: set<(seq<ElemId>, nat)>, lp: Option<LoopShape>) {
    match lp
    case None => forall w, t :: w in done ==> !Closes(g, w, t)
    case Some(LoopShape(entry, backedges, elems)) =>
      && (exists w :: w in done && Closes(g, w, entry))
      && (forall x :: x in backedges <==> Backedge(done, g, entry, x))
      && (forall x :: x in elems <==> Captured(done, g, entry, x))
  }

  /** Walk the path backwards to the loop entry, as the source does. */
  method CapturePath(path: seq<ElemId>, entry: ElemId, elems: set<ElemId>) returns (r: set<ElemId>)
    requires Distinct(path) && entry in path
    ensures forall x :: x in r <==> x in elems || OnCycle(path, entry, x)
  {
    r := elems;
    var k := |path|;
    var stop := false;
    while !stop
      invariant 0 <= k <= |path|
      invariant stop <==> k < |path| && path[k] == entry
      invariant forall j :: k < j < |path| ==> path[j] != entry
      invariant forall x :: x in r <==> x in elems || x in path[k..]
      decreases k
    {
      k := k - 1;
      r := r + {path[k]};
      stop := path[k] == entry;
    }
    forall x
      ensures x in path[k..] <==> OnCycle(path, entry, x)
    {
      if x in path[k..] {
        var j :| 0 <= j < |path[k..]| && path[k..][j] == x;
        assert path[k] == entry && path[k + j] == x;
      }
    }
  }

  lemma GatherOther(g: Graph, done: set<(seq<ElemId>, nat)>, w: (seq<ElemId>, nat), lp: Option<LoopShape>)
    requires Gathered(g, done, lp)
    requires forall t :: Closes(g, w, t) ==> lp.Some? && lp.value.entry != t
    ensures Gathered(g, done + {w}, lp)
  {
    if lp.Some? {
      var w0 :| w0 in done && Closes(g, w0, lp.value.entry);
      assert w0 in done + {w};
    }
  }

  lemma GatherCycle(g: Graph, done: set<(seq<ElemId>, nat)>, w: (seq<ElemId>, nat), lp: Option<LoopShape>, t: ElemId, lq: LoopShape)
    requires Gathered(g, done, lp) && Closes(g, w, t)
    requires lp.Some? ==> lp.value.entry == t
    requires lq.entry == t
    requires lq.backedges == {g.Last(w.0)} + if lp.Some? then lp.value.backedges else {}
    requires forall x :: x in lq.elems <==> (lp.Some? && x in lp.value.elems) || OnCycle(w.0, t, x)
    ensures Gathered(g, done + {w}, Some(lq))
  {
    var more := done + {w};
    assert w in more;
    forall x
      ensures x in lq.backedges <==> Backedge(more, g, t, x)
      ensures x in lq.elems <==> Captured(more, g, t, x)
    {
      if lp.Some? && Backedge(done, g, t, x) {
        var v :| v in done && Closes(g, v, t) && g.Last(v.0) == x;
        assert v in more;
      }
      if lp.Some? && Captured(done, g, t, x) {
        var v :| v in done && Closes(g, v, t) && OnCycle(v.0, t, x);
        assert v in more;
      }
    }
  }

  /** One report of the search: only the first cycle target seen is worked on, others are ignored. */
  method Absorb(action: DFSAction, path: seq<ElemId>, lp: Option<LoopShape>,
                ghost g: Graph, ghost done: set<(seq<ElemId>, nat)>, ghost i: nat)
    returns (r: Option<LoopShape>)
    requires Gathered(g, done, lp)
    requires g.Step((path, i)) && action == ActionFor(g, path, i)
    ensures Gathered(g, done + {(path, i)}, r)
    ensures lp.Some? ==> r.Some? && r.value.entry == lp.value.entry
    ensures lp.None? ==> (r.None? <==> !action.Cycle?)
    ensures lp.None? && action.Cycle? ==> r.value.entry == action.to
  {
    r := lp;
    if action.Cycle? && (lp.None? || lp.value.entry == action.to) {
      var have := if lp.Some? then lp.value else LoopShape(action.to, {}, {});
      var elems := CapturePath(path, action.to, have.elems);
      r := Some(LoopShape(action.to, have.backedges + {action.from}, elems));
      GatherCycle(g, done, (path, i), lp, action.to, r.value);
    } else {
      GatherOther(g, done, (path, i), lp);
    }
  }

  /** The first loop the search meets, complete: every cycle through its entry that a
      simple path reaches. `None` exactly when no simple path closes a cycle. */
  method FindLoop(body: Body, exclude: set<ElemId>, data: Arena) returns (lp: Option<LoopShape>, ghost done: set<(seq<ElemId>, nat)>)
    requires Graph(body, exclude, data).Ok() && Present(data, body.entry)
    ensures AllSteps(Graph(body, exclude, data), body.entry, done)
    ensures Gathered(Graph(body, exclude, data), done, lp)
    ensures Graph(body, exclude, data).SimplePath([body.entry])
    ensures FirstFrom(Graph(body, exclude, data), [body.entry], 0) == if lp.Some? then Some(lp.value.entry) else None
  {
    ghost var g := Graph(body, exclude, data);
    var dfs := new DFS(body.entry, body, exclude, data);
    AheadAtStart(dfs.Value());
    lp := None;
    var running := true;
    while running
      invariant dfs.Value().Valid() && dfs.Value().g == g && dfs.Value().entry == body.entry
      invariant Gathered(g, dfs.done, lp)
      invariant g.SimplePath([body.entry])
      invariant lp.Some? ==> FirstFrom(g, [body.entry], 0) == Some(lp.value.entry)
      invariant lp.None? ==> FirstFrom(g, [body.entry], 0) == if running then FirstAhead(dfs.Value()) else None
      invariant !running ==> g.Covered(dfs.done, [body.entry])
      modifies dfs
      decreases running, dfs.Value().Measure()
    {
      ghost var s := dfs.Value();
      NextKeepsValid(s);
      NextKeepsAhead(s);
      var action := dfs.Next();
      if action.Done? {
        running := false;
      } else {
        NextShrinks(s);
        if !action.Backtrack? {
          ghost var i :| 0 <= i && g.Step((dfs.path, i)) && dfs.done == s.done + {(dfs.path, i)} && action == ActionFor(g, dfs.path, i);
          lp := Absorb(action, dfs.path, lp, g, s.done, i);
        }
      }
    }
    done := dfs.done;
  }

  // ------------------------------------------------------------------------
  // Folding a loop keeps the arena sound.

  /** The element and body after a loop over the members `c` was inserted. */
  function LoopElem(entry: ElemId, exits: seq<ElemId>, backedges: set<ElemId>, c: set<ElemId>): Elem {
    Elem(entry, exits, None, Loop(backedges, NewBody(entry).(elems := c)))
  }

  ghost function LoopMeta(g: seq<Meta>, e: Elem): Meta
    requires e.entry < |g| && e.detail.Loop?
  {
    Meta(LeavesOf(g, e.detail.body.elems), g[e.entry].head, e)
  }

  function Fold(body: Body, entry: ElemId, out: set<ElemId>, id: ElemId): Body {
    body.(elems := body.elems - out + {id}, remap := body.remap[entry := id])
  }

  lemma MemberLeaves(g: seq<Meta>, s: set<ElemId>, x: ElemId)
    requires MembersOk(g, s) && x in s
    ensures g[x].leaves <= LeavesOf(g, s) && LeavesOf(g, s) != {}
  {
    var b :| b in g[x].leaves;
    assert b in LeavesOf(g, s);
  }

  /** One member's blocks are not all of them when there is another member. */
  lemma TwoMembers(g: seq<Meta>, s: set<ElemId>, x: ElemId, y: ElemId)
    requires MembersOk(g, s) && x in s && y in s && x != y
    ensures g[x].leaves != LeavesOf(g, s)
  {
    var b :| b in g[y].leaves;
    assert b in LeavesOf(g, s) && b !in g[x].leaves;
  }

  lemma FoldKeepsScope(g: seq<Meta>, body: Body, full: bool, entry: ElemId, out: set<ElemId>, m: Meta)
    requires BodyOk(g, body, full) && out <= body.elems && m.leaves == LeavesOf(g, out) && m.leaves != {}
    requires m.leaves <= LeavesOf(g, body.elems)
    requires !full && m.loop ==> m.leaves != LeavesOf(g, body.elems)
    ensures var v := LeavesOf(g, body.elems);
      && (forall x :: x in Fold(body, entry, out, |g|).elems ==> InScope(g + [m], v, full, x))
      && InScope(g + [m], v, full, body.entry)
  {
  }

  lemma FoldKeepsRemap(g: seq<Meta>, body: Body, full: bool, entry: ElemId, out: set<ElemId>, m: Meta)
    requires BodyOk(g, body, full) && Known(g, entry) && m.leaves != {}
    requires m.entry == entry && m.head == g[entry].head && entry in out
    ensures forall k :: k in Fold(body, entry, out, |g|).remap ==>
      Renames(g + [m], k, Fold(body, entry, out, |g|).remap[k]) && k !in Fold(body, entry, out, |g|).elems
  {
    forall k | k in Fold(body, entry, out, |g|).remap
      ensures Renames(g + [m], k, Fold(body, entry, out, |g|).remap[k]) && k !in Fold(body, entry, out, |g|).elems
    {
      if k != entry {
        assert Renames(g, k, body.remap[k]);
      }
    }
  }

  lemma LeavesOfSubset(g: seq<Meta>, s: set<ElemId>, t: set<ElemId>)
    requires s <= t
    ensures LeavesOf(g, s) <= LeavesOf(g, t)
  {
  }

  lemma FoldKeepsBody(cfg: Cfg, g: seq<Meta>, body: Body, full: bool, entry: ElemId, out: set<ElemId>, m: Meta)
    requires MetaOk(cfg, g) && BodyOk(g, body, full)
    requires out <= body.elems && entry in out && m.leaves == LeavesOf(g, out)
    requires m.entry == entry && m.head == g[entry].head
    requires !full && m.loop ==> m.leaves != LeavesOf(g, body.elems)
    ensures MetaOk(cfg, g + [m])
    ensures BodyOk(g + [m], Fold(body, entry, out, |g|), full)
    ensures LeavesOf(g + [m], Fold(body, entry, out, |g|).elems) == LeavesOf(g, body.elems)
  {
    MemberLeaves(g, out, entry);
    LeavesOfSubset(g, out, body.elems);
    RegroupMembers(g, body.elems, out, m);
    FoldKeepsScope(g, body, full, entry, out, m);
    FoldKeepsRemap(g, body, full, entry, out, m);
    MetaOkAppend(cfg, g, out, m);
  }

  lemma MetaOkAppend(cfg: Cfg, g: seq<Meta>, out: set<ElemId>, m: Meta)
    requires MetaOk(cfg, g) && m.leaves == LeavesOf(g, out) && m.head in m.leaves
    ensures MetaOk(cfg, g + [m])
  {
    var h := g + [m];
    forall id, b | 0 <= id < |h| && b in h[id].leaves
      ensures Live(cfg, b)
    {
      if id == |g| {
        var x :| x in out && x < |g| && b in g[x].leaves;
      }
    }
    forall id: nat | Known(h, id)
      ensures h[id].head in h[id].leaves
    {
      if id < |g| {
        assert Known(g, id);
      }
    }
  }

  lemma LoopElemOk(cfg: Cfg, g: seq<Meta>, entry: ElemId, exits: seq<ElemId>, backedges: set<ElemId>, c: set<ElemId>)
    requires MembersOk(g, c) && entry in c
    requires forall x :: x in c && g[x].loop ==> g[x].leaves != LeavesOf(g, c)
    requires forall i :: 0 <= i < |exits| ==> Known(g, exits[i]) && exits[i] !in c
    requires |cfg| <= |g|
    ensures ElemOk(cfg, g + [LoopMeta(g, LoopElem(entry, exits, backedges, c))], |g|, LoopElem(entry, exits, backedges, c))
  {
    var h := g + [LoopMeta(g, LoopElem(entry, exits, backedges, c))];
    LeavesOfPrefix(g, h, c);
    forall x | x in c
      ensures InScope(h, LeavesOf(h, c), false, x)
    {
      MemberLeaves(g, c, x);
    }
    MemberLeaves(g, c, entry);
  }

  lemma InsertLoopOk(cfg: Cfg, g: seq<Meta>, d: Arena, body: Body, full: bool,
                     entry: ElemId, exits: seq<ElemId>, backedges: set<ElemId>, c: set<ElemId>)
    requires ArenaOk(cfg, g, d) && BodyOk(g, body, full)
    requires c <= body.elems && entry in c
    requires forall x :: x in c && g[x].loop ==> g[x].leaves != LeavesOf(g, c)
    requires !full ==> LeavesOf(g, c) != LeavesOf(g, body.elems)
    requires forall i :: 0 <= i < |exits| ==> Known(g, exits[i]) && exits[i] !in c
    ensures ArenaOk(cfg, g + [LoopMeta(g, LoopElem(entry, exits, backedges, c))], d + [Some(LoopElem(entry, exits, backedges, c))])
    ensures BodyOk(g + [LoopMeta(g, LoopElem(entry, exits, backedges, c))], Fold(body, entry, c, |d|), full)
    ensures LeavesOf(g + [LoopMeta(g, LoopElem(entry, exits, backedges, c))], Fold(body, entry, c, |d|).elems) == LeavesOf(g, body.elems)
  {
    FoldKeepsBody(cfg, g, body, full, entry, c, LoopMeta(g, LoopElem(entry, exits, backedges, c)));
    LoopElemOk(cfg, g, entry, exits, backedges, c);
    ArenaOkAppend(cfg, g, d, LoopMeta(g, LoopElem(entry, exits, backedges, c)), LoopElem(entry, exits, backedges, c));
  }

  // ------------------------------------------------------------------------
  // Loop inference.

  /** Exit `w.1` at the end of the simple path `w.0` leaves the body for `t`. */
  ghost predicate Escapes(g: Graph, w: (seq<ElemId>, nat), t: ElemId) {
    g.Step(w) && g.Target(g.Last(w.0), w.1) == t && t !in g.body.elems
  }

  ghost predicate EscapeOf(g: Graph, done: set<(seq<ElemId>, nat)>, t: ElemId) {
    exists w :: w in done && Escapes(g, w, t)
  }

  /** A simple path from the entry leads out of the body to `t`. */
  ghost predicate LeadsOut(g: Graph, entry: ElemId, t: ElemId) {
    exists w :: Escapes(g, w, t) && w.0[0] == entry
  }

  lemma EscapesLeadOut(g: Graph, entry: ElemId, done: set<(seq<ElemId>, nat)>, t: ElemId)
    requires AllSteps(g, entry, done)
    ensures EscapeOf(g, done, t) <==> LeadsOut(g, entry, t)
  {
    if w :| Escapes(g, w, t) && w.0[0] == entry {
      assert [entry] <= w.0 && g.Step((w.0, w.1)) && (w.0, w.1) == w;
    }
  }

  /** The elements outside the body that its simple paths lead to. */
  method FindLoopExits(body: Body, data: Arena) returns (exits: set<ElemId>, ghost done: set<(seq<ElemId>, nat)>)
    requires Graph(body, {}, data).Ok() && Present(data, body.entry)
    ensures AllSteps(Graph(body, {}, data), body.entry, done)
    ensures forall t :: t in exits <==> EscapeOf(Graph(body, {}, data), done, t)
    ensures forall t :: t in exits <==> LeadsOut(Graph(body, {}, data), body.entry, t)
  {
    ghost var g := Graph(body, {}, data);
    var dfs := new DFS(body.entry, body, {}, data);
    exits := {};
    var running := true;
    while running
      invariant dfs.Value().Valid() && dfs.Value().g == g && dfs.Value().entry == body.entry
      invariant forall t :: t in exits <==> EscapeOf(g, dfs.done, t)
      invariant !running ==> g.Covered(dfs.done, [body.entry])
      modifies dfs
      decreases running, dfs.Value().Measure()
    {
      ghost var s := dfs.Value();
      NextKeepsValid(s);
      var action := dfs.Next();
      if action.Done? {
        running := false;
      } else {
        NextShrinks(s);
        if !action.Backtrack? {
          ghost var i :| 0 <= i && g.Step((dfs.path, i)) && dfs.done == s.done + {(dfs.path, i)} && action == ActionFor(g, dfs.path, i);
          EscapeStep(g, s.done, dfs.path, i, exits);
          if action.Exit? {
            exits := exits + {action.to};
          }
        }
      }
    }
    done := dfs.done;
    forall t
      ensures t in exits <==> LeadsOut(g, body.entry, t)
    {
      EscapesLeadOut(g, body.entry, done, t);
    }
  }

  lemma EscapeStep(g: Graph, done: set<(seq<ElemId>, nat)>, p: seq<ElemId>, i: nat, exits: set<ElemId>)
    requires g.Step((p, i)) && forall t :: t in exits <==> EscapeOf(g, done, t)
    ensures var action := ActionFor(g, p, i);
      forall t :: t in (if action.Exit? then exits + {action.to} else exits) <==> EscapeOf(g, done + {(p, i)}, t)
  {
    EscapeOfMore(g, done, (p, i));
  }

  lemma EscapeOfMore(g: Graph, done: set<(seq<ElemId>, nat)>, w: (seq<ElemId>, nat))
    ensures forall t :: EscapeOf(g, done + {w}, t) <==> EscapeOf(g, done, t) || Escapes(g, w, t)
  {
    forall t
      ensures EscapeOf(g, done + {w}, t) <==> EscapeOf(g, done, t) || Escapes(g, w, t)
    {
      if EscapeOf(g, done, t) {
        var v :| v in done && Escapes(g, v, t);
        assert v in done + {w};
      }
      assert w in done + {w};
    }
  }

  /** The elements of a set in some order, as the source turns a hash set into a list. */
  method SomeOrder(s: set<ElemId>) returns (r: seq<ElemId>)
    ensures forall x :: x in r <==> x in s
  {
    r := [];
    var left := s;
    while left != {}
      invariant left <= s
      invariant forall x :: x in r <==> x in s && x !in left
      decreases left
    {
      var x :| x in left;
      left := left - {x};
      r := r + [x];
    }
  }

  ghost predicate LoopFound(g: Graph, entry: ElemId, done: set<(seq<ElemId>, nat)>, lp: LoopShape) {
    AllSteps(g, entry, done) && Gathered(g, done, Some(lp))
  }

  /** A captured member is open, and so are the loop entry and the sources of the backedges. */
  lemma CapturedIsOpen(g: Graph, entry: ElemId, done: set<(seq<ElemId>, nat)>, lp: LoopShape)
    requires LoopFound(g, entry, done, lp)
    ensures forall x :: x in lp.elems ==> g.Open(x)
    ensures lp.entry in lp.elems && lp.backedges <= lp.elems && lp.backedges != {}
  {
    forall x | x in lp.elems
      ensures g.Open(x)
    {
      var w :| w in done && Closes(g, w, lp.entry) && OnCycle(w.0, lp.entry, x);
      var i, j :| 0 <= i <= j < |w.0| && w.0[i] == lp.entry && w.0[j] == x;
      if j > 0 {
        assert g.Entered(w.0, j);
      }
    }
    var w :| w in done && Closes(g, w, lp.entry);
    CycleEnds(g, w, lp.entry);
    assert Backedge(done, g, lp.entry, g.Last(w.0));
    assert Captured(done, g, lp.entry, lp.entry);
    forall x | x in lp.backedges
      ensures x in lp.elems
    {
      var v :| v in done && Closes(g, v, lp.entry) && g.Last(v.0) == x;
      CycleEnds(g, v, lp.entry);
    }
  }

  lemma CycleEnds(g: Graph, w: (seq<ElemId>, nat), t: ElemId)
    requires Closes(g, w, t)
    ensures OnCycle(w.0, t, t) && OnCycle(w.0, t, g.Last(w.0))
  {
    var i :| 0 <= i < |w.0| && w.0[i] == t;
    assert 0 <= i <= |w.0| - 1 < |w.0|;
  }

  /** A loop element has no edge to itself: its exits lie outside it, and only its entry is renamed to it. */
  lemma LoopHasNoSelfEdge(cfg: Cfg, g: seq<Meta>, d: Arena, body: Body, full: bool, exclude: set<ElemId>, x: ElemId)
    requires ArenaOk(cfg, g, d) && BodyOk(g, body, full) && Present(d, x) && g[x].loop
    ensures !Graph(body, exclude, d).Edge(x, x)
  {
    assert ElemAt(cfg, g, d, x);
    var gr := Graph(body, exclude, d);
    forall i | 0 <= i < gr.Deg(x)
      ensures gr.Target(x, i) != x
    {
      var t := d[x].value.exits[i];
      if t in body.remap {
        assert Renames(g, t, body.remap[t]);
      }
    }
  }

  /** A loop of one member has an edge from that member to itself. */
  lemma LoneMemberLoops(g: Graph, entry: ElemId, done: set<(seq<ElemId>, nat)>, lp: LoopShape)
    requires LoopFound(g, entry, done, lp) && lp.elems == {lp.entry}
    ensures g.Open(lp.entry) && Present(g.data, lp.entry) && g.Edge(lp.entry, lp.entry)
  {
    var w :| w in done && Closes(g, w, lp.entry);
    CycleEnds(g, w, lp.entry);
    assert Captured(done, g, lp.entry, g.Last(w.0));
    assert g.Last(w.0) == lp.entry;
  }

  /** No loop among the captured members already stands for all of their blocks. */
  lemma CapturedRank(cfg: Cfg, g: seq<Meta>, d: Arena, body: Body, full: bool, exclude: set<ElemId>,
                     done: set<(seq<ElemId>, nat)>, lp: LoopShape, x: ElemId)
    requires ArenaOk(cfg, g, d) && BodyOk(g, body, full)
    requires LoopFound(Graph(body, exclude, d), body.entry, done, lp)
    requires x in lp.elems && lp.elems <= body.elems && lp.entry in lp.elems && g[x].loop
    ensures g[x].leaves != LeavesOf(g, lp.elems)
  {
    if y :| y in lp.elems && y != x {
      TwoMembers(g, lp.elems, x, y);
    } else {
      assert lp.elems == {lp.entry};
      LoneMemberLoops(Graph(body, exclude, d), body.entry, done, lp);
      LoopHasNoSelfEdge(cfg, g, d, body, full, exclude, x);
    }
  }

  ghost function SelfEdges(g: Graph): set<ElemId>
    requires g.Ok()
  {
    set x | x in g.body.elems && g.Edge(x, x)
  }

  lemma ScopeGivesGraph(g: seq<Meta>, d: Arena, body: Body, full: bool, exclude: set<ElemId>)
    requires BodyOk(g, body, full) && ScopePresent(g, d, LeavesOf(g, body.elems), full)
    ensures Graph(body, exclude, d).Ok() && Present(d, body.entry)
  {
  }

  lemma EscapesAreKnown(cfg: Cfg, g: seq<Meta>, d: Arena, entry: ElemId, c: set<ElemId>, w: (seq<ElemId>, nat), t: ElemId)
    requires ArenaOk(cfg, g, d) && Escapes(Graph(NewBody(entry).(elems := c), {}, d), w, t)
    ensures Known(g, t) && t !in c
  {
    var x := w.0[|w.0| - 1];
    assert ElemAt(cfg, g, d, x);
  }

  /** Everything a found loop has to satisfy to be inserted. */
  lemma FoundLoopFits(cfg: Cfg, g: seq<Meta>, d: Arena, body: Body, full: bool, exclude: set<ElemId>,
                      done: set<(seq<ElemId>, nat)>, lp: LoopShape)
    requires ArenaOk(cfg, g, d) && BodyOk(g, body, full)
    requires !full ==> exclude * body.elems != {}
    requires LoopFound(Graph(body, exclude, d), body.entry, done, lp)
    ensures lp.elems <= body.elems && lp.elems !! exclude && lp.entry in lp.elems
    ensures lp.backedges <= lp.elems && lp.backedges != {}
    ensures forall x :: x in lp.elems && g[x].loop ==> g[x].leaves != LeavesOf(g, lp.elems)
    ensures !full ==> LeavesOf(g, lp.elems) != LeavesOf(g, body.elems)
  {
    CapturedIsOpen(Graph(body, exclude, d), body.entry, done, lp);
    forall x | x in lp.elems && g[x].loop
      ensures g[x].leaves != LeavesOf(g, lp.elems)
    {
      CapturedRank(cfg, g, d, body, full, exclude, done, lp, x);
    }
    if !full {
      var z :| z in exclude && z in body.elems;
      OutsiderLeaves(g, body.elems, lp.elems, z);
    }
  }

  lemma OutsiderLeaves(g: seq<Meta>, s: set<ElemId>, c: set<ElemId>, z: ElemId)
    requires MembersOk(g, s) && c <= s && z in s && z !in c
    ensures LeavesOf(g, c) != LeavesOf(g, s)
  {
    var b :| b in g[z].leaves;
    assert b in LeavesOf(g, s);
    assert b !in LeavesOf(g, c);
  }

  ghost predicate ExitsOfLoop(d: Arena, entry: ElemId, c: set<ElemId>, exits: seq<ElemId>) {
    var g := Graph(NewBody(entry).(elems := c), {}, d);
    exists inner :: AllSteps(g, entry, inner) && forall t :: t in exits <==> EscapeOf(g, inner, t)
  }

  /** The exits of a captured loop: exactly the outside elements its paths lead to. */
  method LoopExits(entry: ElemId, c: set<ElemId>, data: Arena, ghost cfg: Cfg, ghost g: seq<Meta>) returns (exits: seq<ElemId>)
    requires ArenaOk(cfg, g, data) && entry in c && forall x :: x in c ==> Present(data, x)
    ensures ExitsOfLoop(data, entry, c, exits)
    ensures forall i :: 0 <= i < |exits| ==> Known(g, exits[i]) && exits[i] !in c
  {
    var loopBody := NewBody(entry).(elems := c);
    var outside, inner := FindLoopExits(loopBody, data);
    exits := SomeOrder(outside);
    forall i | 0 <= i < |exits|
      ensures Known(g, exits[i]) && exits[i] !in c
    {
      assert exits[i] in outside;
      var w :| w in inner && Escapes(Graph(loopBody, {}, data), w, exits[i]);
      EscapesAreKnown(cfg, g, data, entry, c, w, exits[i]);
    }
  }

  /** The arena and body after the loop `lp` was found and folded. */
  ghost predicate LoopFolded(g: seq<Meta>, d: Arena, body: Body, lp: LoopShape, exits: seq<ElemId>, g': seq<Meta>, d': Arena, r: Body) {
    && lp.entry < |g|
    && lp.elems <= body.elems
    && ExitsOfLoop(d, lp.entry, lp.elems, exits)
    && d' == d + [Some(LoopElem(lp.entry, exits, lp.backedges, lp.elems))]
    && g' == g + [LoopMeta(g, LoopElem(lp.entry, exits, lp.backedges, lp.elems))]
    && r == Fold(body, lp.entry, lp.elems, |d|)
  }

  /** Find one loop and fold it into one element. */
  method InferLoop(body: Body, exclude: set<ElemId>, data: ControlFlowData, ghost v: set<ElemId>, ghost full: bool)
    returns (r: Body, found: bool, ghost done: set<(seq<ElemId>, nat)>, ghost lp: Option<LoopShape>, ghost exits: seq<ElemId>)
    requires data.Valid() && BodyOk(data.meta, body, full) && HoldsBlocks(data.meta, body.elems, v)
    requires ScopePresent(data.meta, data.elems, v, full)
    requires !full ==> exclude * body.elems != {}
    modifies data
    ensures data.Valid()
    ensures AllSteps(Graph(body, exclude, old(data.elems)), body.entry, done)
    ensures Gathered(Graph(body, exclude, old(data.elems)), done, lp)
    ensures Graph(body, exclude, old(data.elems)).Ok() && Graph(body, exclude, old(data.elems)).SimplePath([body.entry])
    ensures found ==> lp.Some? && FirstFrom(Graph(body, exclude, old(data.elems)), [body.entry], 0) == Some(lp.value.entry)
    ensures found == lp.Some?
    ensures !found ==> r == body && data.elems == old(data.elems) && data.meta == old(data.meta)
    ensures found ==> LoopFolded(old(data.meta), old(data.elems), body, lp.value, exits, data.meta, data.elems, r)
    ensures BodyOk(data.meta, r, full) && HoldsBlocks(data.meta, r.elems, v)
  {
    ghost var g, d := data.meta, data.elems;
    BlocksAre(g, body.elems, v);
    ScopeGivesGraph(g, d, body, full, exclude);
    var shape, steps := FindLoop(body, exclude, data.elems);
    lp, done, exits := shape, steps, [];
    if shape.None? {
      return body, false, done, lp, exits;
    }
    var entry, elems, backedges := shape.value.entry, shape.value.elems, shape.value.backedges;
    FoundLoopFits(data.cfg, g, d, body, full, exclude, done, shape.value);
    var order := LoopExits(entry, elems, data.elems, data.cfg, g);
    exits := order;
    InsertLoopOk(data.cfg, g, d, body, full, entry, order, backedges, elems);
    AppendBare(d, LoopElem(entry, order, backedges, elems));
    var id := data.Append(LoopElem(entry, order, backedges, elems), LoopMeta(g, LoopElem(entry, order, backedges, elems)));
    r := Fold(body, entry, elems, id);
    LeavesAreBlocks(data.meta, r.elems);
    found := true;
  }

  // ------------------------------------------------------------------------
  // Folding loops comes to an end: each fold leaves fewer members, or as many
  // members of which fewer have an edge to themselves.

  ghost predicate Smaller(g': Graph, g: Graph)
    requires g'.Ok() && g.Ok()
  {
    |g'.body.elems| < |g.body.elems| || (|g'.body.elems| == |g.body.elems| && |SelfEdges(g')| < |SelfEdges(g)|)
  }

  lemma FoldSize(s: set<ElemId>, out: set<ElemId>, id: ElemId)
    requires out <= s && id !in s
    ensures |s - out + {id}| == |s| - |out| + 1
  {
    assert |s| == |out| + |s - out| by {
      assert s == out + (s - out);
    }
  }

  lemma ProperSubsetSize(a: set<ElemId>, b: set<ElemId>)
    requires a < b
    ensures |a| < |b|
  {
    var x :| x in b && x !in a;
    assert a <= b - {x};
    SubsetSize(a, b - {x});
  }

  lemma {:induction false} SubsetSize(a: set<ElemId>, b: set<ElemId>)
    requires a <= b
    ensures |a| <= |b|
  {
    if a != {} {
      var x :| x in a;
      SubsetSize(a - {x}, b - {x});
    }
  }

  /** Edges to itself after a fold: the new loop has none, the others' are their old ones. */
  lemma SelfEdgeWasThere(g: seq<Meta>, d: Arena, body: Body, exclude: set<ElemId>, lp: LoopShape,
                         exits: seq<ElemId>, g': seq<Meta>, d': Arena, r: Body, x: ElemId)
    requires LoopFolded(g, d, body, lp, exits, g', d', r)
    requires x in body.elems && Present(d, x) && Present(d', x) && Graph(r, exclude, d').Edge(x, x) && x != |d|
    ensures Graph(body, exclude, d).Edge(x, x)
  {
    var before, after := Graph(body, exclude, d), Graph(r, exclude, d');
    assert d'[x] == d[x];
    var i :| 0 <= i < after.Deg(x) && after.Target(x, i) == x;
    assert d[x].value.exits[i] != lp.entry;
    assert before.Target(x, i) == x;
  }

  lemma SelfEdgesAfterFold(g: seq<Meta>, d: Arena, body: Body, exclude: set<ElemId>, lp: LoopShape,
                           exits: seq<ElemId>, g': seq<Meta>, d': Arena, r: Body)
    requires LoopFolded(g, d, body, lp, exits, g', d', r)
    requires Graph(body, exclude, d).Ok() && Graph(r, exclude, d').Ok()
    requires !Graph(r, exclude, d').Edge(|d|, |d|)
    ensures SelfEdges(Graph(r, exclude, d')) <= SelfEdges(Graph(body, exclude, d)) - lp.elems
  {
    forall x | x in SelfEdges(Graph(r, exclude, d'))
      ensures x in SelfEdges(Graph(body, exclude, d)) && x !in lp.elems
    {
      SelfEdgeWasThere(g, d, body, exclude, lp, exits, g', d', r, x);
    }
  }

  lemma FewerSelfEdges(g: seq<Meta>, d: Arena, body: Body, exclude: set<ElemId>, lp: LoopShape,
                       exits: seq<ElemId>, g': seq<Meta>, d': Arena, r: Body)
    requires LoopFolded(g, d, body, lp, exits, g', d', r)
    requires Graph(body, exclude, d).Ok() && Graph(r, exclude, d').Ok()
    requires !Graph(r, exclude, d').Edge(|d|, |d|)
    requires lp.entry in lp.elems && lp.entry in body.elems && Graph(body, exclude, d).Edge(lp.entry, lp.entry)
    ensures |SelfEdges(Graph(r, exclude, d'))| < |SelfEdges(Graph(body, exclude, d))|
  {
    SelfEdgesAfterFold(g, d, body, exclude, lp, exits, g', d', r);
    assert lp.entry in SelfEdges(Graph(body, exclude, d));
    ProperSubsetSize(SelfEdges(Graph(r, exclude, d')), SelfEdges(Graph(body, exclude, d)));
  }

  lemma LoopFoldShrinks(g: seq<Meta>, d: Arena, body: Body, exclude: set<ElemId>,
                        done: set<(seq<ElemId>, nat)>, lp: LoopShape, exits: seq<ElemId>, g': seq<Meta>, d': Arena, r: Body)
    requires LoopFound(Graph(body, exclude, d), body.entry, done, lp)
    requires LoopFolded(g, d, body, lp, exits, g', d', r)
    requires Graph(body, exclude, d).Ok() && Graph(r, exclude, d').Ok()
    requires |d| !in body.elems && !Graph(r, exclude, d').Edge(|d|, |d|)
    ensures Smaller(Graph(r, exclude, d'), Graph(body, exclude, d))
  {
    CapturedIsOpen(Graph(body, exclude, d), body.entry, done, lp);
    FoldSize(body.elems, lp.elems, |d|);
    if |lp.elems| == 1 {
      LoneElement(lp.elems, lp.entry);
      LoneMemberLoops(Graph(body, exclude, d), body.entry, done, lp);
      FewerSelfEdges(g, d, body, exclude, lp, exits, g', d', r);
    } else {
      assert |lp.elems| > 0;
    }
  }

  lemma LoneElement(s: set<ElemId>, x: ElemId)
    requires |s| == 1 && x in s
    ensures s == {x}
  {
    if y :| y in s && y != x {
      assert {x, y} <= s;
      SubsetSize({x, y}, s);
    }
  }

  // ------------------------------------------------------------------------
  // If inference.

  /** `x` is a member whose only exit leads to `t`. */
  ghost predicate SingleExit(body: Body, d: Arena, x: ElemId, t: ElemId)
    requires Graph(body, {}, d).Ok()
  {
    x in body.elems && |d[x].value.exits| == 1 && body.Remap(d[x].value.exits[0]) == t
  }

  ghost function Nth(c: seq<ElemId>, k: nat, dst: ElemId): ElemId {
    if k < |c| then c[k] else dst
  }

  ghost predicate Link(body: Body, d: Arena, c: seq<ElemId>, dst: ElemId, k: nat)
    requires Graph(body, {}, d).Ok() && k < |c|
  {
    SingleExit(body, d, c[k], Nth(c, k + 1, dst)) && (k > 0 ==> c[k] != dst)
  }

  /** `c` is the chain src -> ... -> dst through members with a single exit each. */
  ghost predicate Chain(body: Body, d: Arena, src: ElemId, dst: ElemId, c: seq<ElemId>)
    requires Graph(body, {}, d).Ok()
  {
    c != [] && c[0] == src && Distinct(c) && forall k :: 0 <= k < |c| ==> Link(body, d, c, dst, k)
  }

  /** The part of a chain walked so far: `blks`, with `cur` next. */
  ghost predicate Walked(body: Body, d: Arena, src: ElemId, dst: ElemId, blks: seq<ElemId>, cur: ElemId)
    requires Graph(body, {}, d).Ok()
  {
    && Distinct(blks)
    && Nth(blks, 0, cur) == src
    && (blks != [] ==> cur != dst)
    && (forall k :: 0 <= k < |blks| ==> Link(body, d, blks + [cur], dst, k))
  }

  /** Every chain from `src` to `dst` starts with what was walked. */
  ghost predicate Forced(body: Body, d: Arena, src: ElemId, dst: ElemId, blks: seq<ElemId>, cur: ElemId)
    requires Graph(body, {}, d).Ok()
  {
    forall c :: Chain(body, d, src, dst, c) ==> blks + [cur] <= c
  }

  lemma ChainGoesOn(body: Body, d: Arena, src: ElemId, dst: ElemId, blks: seq<ElemId>, cur: ElemId, c: seq<ElemId>)
    requires Graph(body, {}, d).Ok()
    requires Chain(body, d, src, dst, c) && blks + [cur] <= c
    ensures cur !in blks && SingleExit(body, d, cur, Nth(c, |blks| + 1, dst))
  {
    assert c[|blks|] == cur;
    assert forall k :: 0 <= k < |blks| ==> c[k] == blks[k];
    assert Link(body, d, c, dst, |blks|);
  }

  lemma WalkedStep(body: Body, d: Arena, src: ElemId, dst: ElemId, blks: seq<ElemId>, cur: ElemId, t: ElemId)
    requires Graph(body, {}, d).Ok()
    requires Walked(body, d, src, dst, blks, cur) && cur !in blks && SingleExit(body, d, cur, t)
    ensures t == dst ==> Chain(body, d, src, dst, blks + [cur])
    ensures t != dst ==> Walked(body, d, src, dst, blks + [cur], t)
  {
    var next := blks + [cur];
    forall k | 0 <= k < |next|
      ensures t == dst ==> Link(body, d, next, dst, k)
      ensures t != dst ==> Link(body, d, next + [t], dst, k)
    {
      if k < |blks| {
        assert Link(body, d, blks + [cur], dst, k);
      }
    }
  }

  lemma ForcedStep(body: Body, d: Arena, src: ElemId, dst: ElemId, blks: seq<ElemId>, cur: ElemId, t: ElemId)
    requires Graph(body, {}, d).Ok()
    requires Forced(body, d, src, dst, blks, cur) && SingleExit(body, d, cur, t) && t != dst
    ensures Forced(body, d, src, dst, blks + [cur], t)
  {
    forall c | Chain(body, d, src, dst, c)
      ensures blks + [cur] + [t] <= c
    {
      ChainGoesOn(body, d, src, dst, blks, cur, c);
    }
  }

  /** The chain src -> ... -> dst, if there is one. */
  method SequentiallyReaching(src: ElemId, dst: ElemId, body: Body, data: Arena) returns (r: Option<seq<ElemId>>)
    requires Graph(body, {}, data).Ok()
    ensures r.Some? ==> Chain(body, data, src, dst, r.value)
    ensures r.None? ==> forall c :: !Chain(body, data, src, dst, c)
  {
    var cur, blks := src, [];
    var visited: set<ElemId> := {};
    while true
      invariant visited <= body.elems && forall x :: x in visited <==> x in blks
      invariant Walked(body, data, src, dst, blks, cur)
      invariant Forced(body, data, src, dst, blks, cur)
      decreases body.elems - visited
    {
      if c :| Chain(body, data, src, dst, c) {
        ChainGoesOn(body, data, src, dst, blks, cur, c);
      }
      if cur in visited { return None; }
      if cur !in body.elems { return None; }
      var exits := body.Exits(cur, data).value;
      if |exits| != 1 { return None; }
      WalkedStep(body, data, src, dst, blks, cur, exits[0]);
      visited := visited + {cur};
      blks := blks + [cur];
      if exits[0] == dst { return Some(blks); }
      ForcedStep(body, data, src, dst, blks[..|blks| - 1], cur, exits[0]);
      cur := exits[0];
    }
  }

  datatype IfShape = IfShape(entry: ElemId, thenBlks: seq<ElemId>, elseBlks: Option<seq<ElemId>>, join: ElemId, inverted: bool)

  /** A member that is a basic block with two exits. */
  ghost predicate Header(body: Body, d: Arena, x: ElemId)
    requires Graph(body, {}, d).Ok()
  {
    x in body.elems && d[x].value.detail.BasicBlock? && |d[x].value.exits| == 2
  }

  ghost function Way(body: Body, d: Arena, x: ElemId, i: nat): ElemId
    requires Graph(body, {}, d).Ok() && Header(body, d, x) && i < 2
  {
    body.Remap(d[x].value.exits[i])
  }

  ghost predicate Disjoint(a: seq<ElemId>, b: seq<ElemId>) {
    forall x :: x in a ==> x !in b
  }

  ghost predicate IsIf(body: Body, d: Arena, f: IfShape)
    requires Graph(body, {}, d).Ok()
  {
    && Header(body, d, f.entry)
    && var a, b := Way(body, d, f.entry, 0), Way(body, d, f.entry, 1);
    if f.elseBlks.None? then
      && f.join == (if f.inverted then a else b)
      && Chain(body, d, if f.inverted then b else a, f.join, f.thenBlks)
    else
      && !f.inverted
      && Chain(body, d, a, f.join, f.thenBlks)
      && Chain(body, d, b, f.join, f.elseBlks.value)
      && Disjoint(f.thenBlks, f.elseBlks.value)
      && f.join in body.elems
      && f.join != f.entry
  }

  /** Which of two ifs is taken: one with one arm, then the lower header, then the direct arm, or the lower join. */
  ghost predicate Preferred(a: IfShape, b: IfShape) {
    if a.elseBlks.None? != b.elseBlks.None? then a.elseBlks.None?
    else if a.entry != b.entry then a.entry < b.entry
    else if a.elseBlks.None? then !a.inverted && b.inverted
    else a.join < b.join
  }

  ghost predicate OneArmAt(body: Body, d: Arena, x: ElemId)
    requires Graph(body, {}, d).Ok()
  {
    exists f :: IsIf(body, d, f) && f.entry == x && f.elseBlks.None?
  }

  /** The members in ascending order. */
  method Sorted(s: set<ElemId>) returns (r: seq<ElemId>)
    ensures forall x :: x in r <==> x in s
    ensures forall i, j :: 0 <= i < j < |r| ==> r[i] < r[j]
  {
    r := [];
    var left := s;
    while left != {}
      invariant left <= s
      invariant forall x :: x in r <==> x in s && x !in left
      invariant forall i, j :: 0 <= i < j < |r| ==> r[i] < r[j]
      invariant forall i, x :: 0 <= i < |r| && x in left ==> r[i] < x
      decreases left
    {
      var x := Least(left);
      left := left - {x};
      r := r + [x];
    }
  }

  method Least(s: set<ElemId>) returns (m: ElemId)
    requires s != {}
    ensures m in s && forall x :: x in s ==> m <= x
  {
    m :| m in s;
    var left := s - {m};
    while left != {}
      invariant left <= s && m in s && forall x :: x in s && x !in left ==> m <= x
      decreases left
    {
      var x :| x in left;
      left := left - {x};
      if x < m { m := x; }
    }
  }

  method NormalizeIfArms(a: seq<ElemId>, b: seq<ElemId>) returns (r: Option<(seq<ElemId>, Option<seq<ElemId>>, bool)>)
    ensures r.None? <==> (a == [] && b == []) || !Disjoint(a, b)
    ensures r.Some? && a == [] ==> r.value == (b, None, true)
    ensures r.Some? && a != [] && b == [] ==> r.value == (a, None, false)
    ensures r.Some? && a != [] && b != [] ==> r.value == (a, Some(b), false)
  {
    if a == [] && b == [] { return None; }
    var shared := exists i | 0 <= i < |b| :: b[i] in a;
    if shared { return None; }
    if a == [] {
      r := Some((b, None, true));
    } else if b == [] {
      r := Some((a, None, false));
    } else {
      r := Some((a, Some(b), false));
    }
  }

  /** The first header, in ascending order, one of whose exits reaches the other in a chain. */
  method FindOneArm(body: Body, data: Arena) returns (found: Option<IfShape>)
    requires Graph(body, {}, data).Ok()
    ensures found.Some? ==> IsIf(body, data, found.value) && found.value.elseBlks.None?
    ensures found.Some? ==> forall f :: IsIf(body, data, f) ==> !Preferred(f, found.value)
    ensures found.None? ==> forall f :: IsIf(body, data, f) ==> f.elseBlks.Some?
  {
    var order := Sorted(body.elems);
    for n := 0 to |order|
      invariant forall k :: 0 <= k < n ==> !OneArmAt(body, data, order[k])
    {
      var id := order[n];
      assert id in order;
      if !data[id].value.detail.BasicBlock? { continue; }
      var exits := body.Exits(id, data).value;
      if |exits| != 2 { continue; }
      var straight := SequentiallyReaching(exits[0], exits[1], body, data);
      if straight.Some? {
        return Some(IfShape(id, straight.value, None, exits[1], false));
      }
      var crossed := SequentiallyReaching(exits[1], exits[0], body, data);
      if crossed.Some? {
        return Some(IfShape(id, crossed.value, None, exits[0], true));
      }
    }
    found := None;
  }

  ghost predicate TwoArmsAt(body: Body, d: Arena, x: ElemId)
    requires Graph(body, {}, d).Ok()
  {
    exists f :: IsIf(body, d, f) && f.entry == x && f.elseBlks.Some?
  }

  ghost predicate TwoArmsTo(body: Body, d: Arena, x: ElemId, join: ElemId)
    requires Graph(body, {}, d).Ok()
  {
    exists f :: IsIf(body, d, f) && f.entry == x && f.elseBlks.Some? && f.join == join
  }

  /** The two arms of a header towards a given join. */
  method ArmsTo(body: Body, data: Arena, id: ElemId, join: ElemId) returns (found: Option<IfShape>)
    requires Graph(body, {}, data).Ok() && Header(body, data, id) && join in body.elems && join != id
    ensures found.Some? ==> IsIf(body, data, found.value) && found.value.entry == id && found.value.elseBlks.Some? && found.value.join == join
    ensures found.None? ==> !TwoArmsTo(body, data, id, join)
  {
    var exits := body.Exits(id, data).value;
    var armA := SequentiallyReaching(exits[0], join, body, data);
    if armA.None? { return None; }
    var armB := SequentiallyReaching(exits[1], join, body, data);
    if armB.None? { return None; }
    var arms := NormalizeIfArms(armA.value, armB.value);
    if arms.None? {
      forall f | IsIf(body, data, f) && f.entry == id && f.elseBlks.Some? && f.join == join
        ensures false
      {
        ChainIsUnique(body, data, exits[0], join, armA.value, f.thenBlks);
        ChainIsUnique(body, data, exits[1], join, armB.value, f.elseBlks.value);
      }
      return None;
    }
    found := Some(IfShape(id, arms.value.0, arms.value.1, join, arms.value.2));
  }

  lemma {:induction false} ChainIsUnique(body: Body, d: Arena, src: ElemId, dst: ElemId, a: seq<ElemId>, b: seq<ElemId>)
    requires Graph(body, {}, d).Ok()
    requires Chain(body, d, src, dst, a) && Chain(body, d, src, dst, b)
    ensures a == b
  {
    ChainsAgree(body, d, src, dst, a, b, 0);
  }

  lemma {:induction false} ChainsAgree(body: Body, d: Arena, src: ElemId, dst: ElemId, a: seq<ElemId>, b: seq<ElemId>, n: nat)
    requires Graph(body, {}, d).Ok()
    requires Chain(body, d, src, dst, a) && Chain(body, d, src, dst, b)
    requires n < |a| && n < |b| && a[..n + 1] == b[..n + 1]
    ensures a == b
    decreases |a| - n
  {
    assert Link(body, d, a, dst, n) && Link(body, d, b, dst, n);
    assert a[n] == a[..n + 1][n] == b[n];
    assert Nth(a, n + 1, dst) == Nth(b, n + 1, dst);
    if n + 1 < |a| {
      assert Link(body, d, a, dst, n + 1);
    }
    if n + 1 < |b| {
      assert Link(body, d, b, dst, n + 1);
    }
    if n + 1 < |a| && n + 1 < |b| {
      assert a[..n + 2] == a[..n + 1] + [a[n + 1]] && b[..n + 2] == b[..n + 1] + [b[n + 1]];
      ChainsAgree(body, d, src, dst, a, b, n + 1);
    }
  }

  /** The first header, in ascending order, whose two exits reach a common join in disjoint chains. */
  method FindTwoArms(body: Body, data: Arena) returns (found: Option<IfShape>)
    requires Graph(body, {}, data).Ok()
    ensures found.Some? ==> IsIf(body, data, found.value) && found.value.elseBlks.Some?
    ensures found.Some? ==> forall f :: IsIf(body, data, f) && f.elseBlks.Some? ==> !Preferred(f, found.value)
    ensures found.None? ==> forall f :: IsIf(body, data, f) ==> f.elseBlks.None?
  {
    var order := Sorted(body.elems);
    for n := 0 to |order|
      invariant forall k :: 0 <= k < n ==> !TwoArmsAt(body, data, order[k])
    {
      var id := order[n];
      assert id in order;
      if !data[id].value.detail.BasicBlock? { continue; }
      var exits := body.Exits(id, data).value;
      if |exits| != 2 { continue; }
      for m := 0 to |order|
        invariant forall k :: 0 <= k < m ==> !TwoArmsTo(body, data, id, order[k])
      {
        var join := order[m];
        assert join in order;
        if join == id { continue; }
        found := ArmsTo(body, data, id, join);
        if found.Some? { return; }
      }
    }
    found := None;
  }

  // ------------------------------------------------------------------------
  // Folding an if keeps the arena sound.

  /** An arm: its members, and the names its members took over when they were folded. */
  ghost predicate IsArm(d: Arena, blks: seq<ElemId>, arm: Body) {
    && blks != []
    && arm.entry == blks[0]
    && (forall x :: x in arm.elems <==> x in blks)
    && arm.layout == []
    && (forall k :: k in arm.remap ==>
          arm.remap[k] in blks && arm.remap[k] != k && Present(d, arm.remap[k]) && d[arm.remap[k]].value.entry == k)
    && (forall x :: x in blks && Present(d, x) && d[x].value.entry != x ==> d[x].value.entry in arm.remap)
  }

  method BuildArm(blks: seq<ElemId>, data: Arena) returns (arm: Body)
    requires blks != [] && forall x :: x in blks ==> Present(data, x)
    ensures IsArm(data, blks, arm)
  {
    var elems: set<ElemId>, remap: map<ElemId, ElemId> := {}, map[];
    for n := 0 to |blks|
      invariant forall x :: x in elems <==> x in blks[..n]
      invariant forall k :: k in remap ==>
        remap[k] in blks && remap[k] != k && Present(data, remap[k]) && data[remap[k]].value.entry == k
      invariant forall x :: x in blks[..n] && Present(data, x) && data[x].value.entry != x ==> data[x].value.entry in remap
    {
      assert blks[n] in blks;
      elems := elems + {blks[n]};
      var entry := data[blks[n]].value.entry;
      if entry != blks[n] {
        remap := remap[entry := blks[n]];
      }
    }
    arm := Body(blks[0], elems, remap, []);
  }

  function IfElem(f: IfShape, thenBody: Body, elseBody: Option<Body>): Elem {
    Elem(f.entry, [f.join], None, If(f.inverted, thenBody, elseBody))
  }

  ghost function ArmSet(b: Option<Body>): set<ElemId> {
    if b.Some? then b.value.elems else {}
  }

  ghost function IfMeta(g: seq<Meta>, f: IfShape, thenBody: Body, elseBody: Option<Body>): Meta
    requires f.entry < |g|
  {
    Meta(LeavesOf(g, IfOut(f, thenBody, elseBody)), g[f.entry].head, IfElem(f, thenBody, elseBody))
  }

  lemma ArmOk(cfg: Cfg, g: seq<Meta>, d: Arena, body: Body, full: bool, blks: seq<ElemId>, arm: Body)
    requires ArenaOk(cfg, g, d) && BodyOk(g, body, full)
    requires IsArm(d, blks, arm) && arm.elems <= body.elems
    ensures BodyOk(g, arm, true)
  {
    forall k | k in arm.remap
      ensures Renames(g, k, arm.remap[k]) && k !in arm.elems
    {
      assert ElemAt(cfg, g, d, arm.remap[k]);
      assert arm.remap[k] in arm.elems && g[k].head in g[k].leaves;
    }
    forall x | x in arm.elems
      ensures InScope(g, LeavesOf(g, arm.elems), true, x)
    {
      MemberLeaves(g, arm.elems, x);
    }
    assert arm.entry in arm.elems;
  }

  lemma RemapKeepsHead(g: seq<Meta>, body: Body, full: bool, k: ElemId)
    requires BodyOk(g, body, full) && Known(g, k)
    ensures SameHead(g, k, body.Remap(k))
  {
    if k in body.remap {
      assert Renames(g, k, body.remap[k]);
    }
  }

  lemma LeavesOfUnion(g: seq<Meta>, a: set<ElemId>, b: set<ElemId>)
    ensures LeavesOf(g, a + b) == LeavesOf(g, a) + LeavesOf(g, b)
  {
    forall x
      ensures x in LeavesOf(g, a + b) <==> x in LeavesOf(g, a) + LeavesOf(g, b)
    {
      if x in LeavesOf(g, a + b) {
        var y :| y in a + b && y < |g| && x in g[y].leaves;
        assert y in a || y in b;
      }
      if x in LeavesOf(g, a) {
        var y :| y in a && y < |g| && x in g[y].leaves;
        assert y in a + b;
      }
      if x in LeavesOf(g, b) {
        var y :| y in b && y < |g| && x in g[y].leaves;
        assert y in a + b;
      }
    }
  }

  lemma LeavesOfDisjoint(g: seq<Meta>, s: set<ElemId>, a: set<ElemId>, b: set<ElemId>)
    requires MembersOk(g, s) && a <= s && b <= s && a !! b
    ensures LeavesOf(g, a) !! LeavesOf(g, b)
  {
  }

  lemma LeavesOfOne(g: seq<Meta>, x: ElemId)
    requires x < |g|
    ensures LeavesOf(g, {x}) == g[x].leaves
  {
  }

  lemma LeavesOfThree(g: seq<Meta>, entry: ElemId, arm: set<ElemId>, other: set<ElemId>)
    requires entry < |g| && g[entry].leaves == {entry}
    ensures LeavesOf(g, {entry} + arm + other) == {entry} + LeavesOf(g, arm) + LeavesOf(g, other)
  {
    LeavesOfOne(g, entry);
    LeavesOfUnion(g, {entry} + arm, other);
    LeavesOfUnion(g, {entry}, arm);
  }

  lemma EntryApart(g: seq<Meta>, s: set<ElemId>, entry: ElemId, arm: set<ElemId>)
    requires MembersOk(g, s) && entry in s && g[entry].leaves == {entry} && arm <= s && entry !in arm
    ensures entry !in LeavesOf(g, arm)
  {
    LeavesOfDisjoint(g, s, {entry}, arm);
    LeavesOfOne(g, entry);
  }

  lemma IfLeaves(g: seq<Meta>, s: set<ElemId>, entry: ElemId, arm: set<ElemId>, other: set<ElemId>)
    requires MembersOk(g, s) && entry in s && g[entry].leaves == {entry}
    requires arm <= s && other <= s && entry !in arm && entry !in other && arm !! other
    ensures LeavesOf(g, {entry} + arm + other) == {entry} + LeavesOf(g, arm) + LeavesOf(g, other)
    ensures entry !in LeavesOf(g, arm) && entry !in LeavesOf(g, other) && LeavesOf(g, arm) !! LeavesOf(g, other)
  {
    LeavesOfThree(g, entry, arm, other);
    EntryApart(g, s, entry, arm);
    EntryApart(g, s, entry, other);
    LeavesOfDisjoint(g, s, arm, other);
  }

  /** The members of a chain have one exit, so a header is not among them. */
  lemma ChainMembers(body: Body, d: Arena, src: ElemId, dst: ElemId, c: seq<ElemId>)
    requires Graph(body, {}, d).Ok() && Chain(body, d, src, dst, c)
    ensures forall x :: x in c ==> x in body.elems && |d[x].value.exits| == 1
  {
    forall x | x in c
      ensures x in body.elems && |d[x].value.exits| == 1
    {
      var k :| 0 <= k < |c| && c[k] == x;
      assert Link(body, d, c, dst, k);
    }
  }

  lemma ArmsOfIf(body: Body, d: Arena, f: IfShape, thenBody: Body, elseBody: Option<Body>)
    requires Graph(body, {}, d).Ok() && IsIf(body, d, f)
    requires IsArm(d, f.thenBlks, thenBody)
    requires f.elseBlks.Some? == elseBody.Some? && (elseBody.Some? ==> IsArm(d, f.elseBlks.value, elseBody.value))
    ensures thenBody.elems <= body.elems && ArmSet(elseBody) <= body.elems && thenBody.elems !! ArmSet(elseBody)
    ensures f.entry in body.elems && f.entry !in thenBody.elems && f.entry !in ArmSet(elseBody)
  {
    var a, b := Way(body, d, f.entry, 0), Way(body, d, f.entry, 1);
    if f.elseBlks.None? {
      ChainMembers(body, d, if f.inverted then b else a, f.join, f.thenBlks);
    } else {
      ChainMembers(body, d, a, f.join, f.thenBlks);
      ChainMembers(body, d, b, f.join, f.elseBlks.value);
    }
  }

  /** Where the two sides of the header lead, by the block each starts with. */
  lemma IfHeads(cfg: Cfg, g: seq<Meta>, d: Arena, body: Body, full: bool, f: IfShape, thenBody: Body, elseBody: Option<Body>)
    requires ArenaOk(cfg, g, d) && CfgOk(cfg) && BodyOk(g, body, full)
    requires Graph(body, {}, d).Ok() && IsIf(body, d, f)
    requires IsArm(d, f.thenBlks, thenBody)
    requires f.elseBlks.Some? == elseBody.Some? && (elseBody.Some? ==> IsArm(d, f.elseBlks.value, elseBody.value))
    ensures Live(cfg, f.entry) && |cfg[f.entry].value| == 2 && g[f.entry] == BlockMeta(cfg, f.entry)
    ensures Known(g, f.join) && Known(g, thenBody.entry) && (elseBody.Some? ==> Known(g, elseBody.value.entry))
    ensures g[thenBody.entry].head == BranchExit(cfg, f.entry, !f.inverted)
    ensures g[if elseBody.Some? then elseBody.value.entry else f.join].head == BranchExit(cfg, f.entry, f.inverted)
  {
    assert ElemAt(cfg, g, d, f.entry);
    var x0, x1 := cfg[f.entry].value[0], cfg[f.entry].value[1];
    assert Live(cfg, x0) && Live(cfg, x1);
    RemapKeepsHead(g, body, full, x0);
    RemapKeepsHead(g, body, full, x1);
    if f.elseBlks.Some? {
      assert Known(g, f.join);
    }
  }

  lemma NewArmOk(cfg: Cfg, g: seq<Meta>, d: Arena, body: Body, full: bool, blks: seq<ElemId>, arm: Body, m: Meta)
    requires ArenaOk(cfg, g, d) && BodyOk(g, body, full)
    requires IsArm(d, blks, arm) && arm.elems <= body.elems
    ensures BodyOk(g + [m], arm, true) && LeavesOf(g + [m], arm.elems) == LeavesOf(g, arm.elems)
  {
    ArmOk(cfg, g, d, body, full, blks, arm);
    BodyOkPrefix(g, g + [m], arm, true);
  }

  ghost function IfOut(f: IfShape, thenBody: Body, elseBody: Option<Body>): set<ElemId> {
    {f.entry} + thenBody.elems + ArmSet(elseBody)
  }

  lemma IfElemOk(cfg: Cfg, g: seq<Meta>, d: Arena, body: Body, full: bool, f: IfShape, thenBody: Body, elseBody: Option<Body>)
    requires ArenaOk(cfg, g, d) && CfgOk(cfg) && BodyOk(g, body, full)
    requires Graph(body, {}, d).Ok() && IsIf(body, d, f)
    requires IsArm(d, f.thenBlks, thenBody)
    requires f.elseBlks.Some? == elseBody.Some? && (elseBody.Some? ==> IsArm(d, f.elseBlks.value, elseBody.value))
    ensures f.entry < |g|
    ensures ElemOk(cfg, g + [IfMeta(g, f, thenBody, elseBody)], |g|, IfElem(f, thenBody, elseBody))
  {
    ArmsOfIf(body, d, f, thenBody, elseBody);
    IfHeads(cfg, g, d, body, full, f, thenBody, elseBody);
    IfLeaves(g, body.elems, f.entry, thenBody.elems, ArmSet(elseBody));
    var m := IfMeta(g, f, thenBody, elseBody);
    NewArmOk(cfg, g, d, body, full, f.thenBlks, thenBody, m);
    if elseBody.Some? {
      NewArmOk(cfg, g, d, body, full, f.elseBlks.value, elseBody.value, m);
    }
    IfElemParts(cfg, g, g + [m], f, thenBody, elseBody, m);
  }

  lemma IfElemParts(cfg: Cfg, g: seq<Meta>, h: seq<Meta>, f: IfShape, thenBody: Body, elseBody: Option<Body>, m: Meta)
    requires h == g + [m] && |cfg| <= |g| && Live(cfg, f.entry) && |cfg[f.entry].value| == 2
    requires g[f.entry] == BlockMeta(cfg, f.entry)
    requires Known(g, f.join) && Known(g, thenBody.entry) && (elseBody.Some? ==> Known(g, elseBody.value.entry))
    requires BodyOk(h, thenBody, true) && (elseBody.Some? ==> BodyOk(h, elseBody.value, true))
    requires g[thenBody.entry].head == BranchExit(cfg, f.entry, !f.inverted)
    requires g[if elseBody.Some? then elseBody.value.entry else f.join].head == BranchExit(cfg, f.entry, f.inverted)
    requires MembersOk(g, thenBody.elems) && MembersOk(g, ArmSet(elseBody))
    requires m == Meta({f.entry} + LeavesOf(g, thenBody.elems) + LeavesOf(g, ArmSet(elseBody)), f.entry, IfElem(f, thenBody, elseBody))
    requires f.entry !in LeavesOf(g, thenBody.elems) && f.entry !in LeavesOf(g, ArmSet(elseBody))
    requires LeavesOf(g, thenBody.elems) !! LeavesOf(g, ArmSet(elseBody))
    ensures ElemOk(cfg, h, |g|, IfElem(f, thenBody, elseBody))
  {
    IfSplitNew(cfg, g, h, f, thenBody, elseBody, m);
    IfPartsOk(cfg, h, |g|, f, thenBody, elseBody);
    assert SameHead(h, f.entry, |g|);
  }

  lemma IfPartsOk(cfg: Cfg, h: seq<Meta>, id: ElemId, f: IfShape, thenBody: Body, elseBody: Option<Body>)
    requires Known(h, id) && !h[id].loop && BodyOk(h, thenBody, true) && (elseBody.Some? ==> BodyOk(h, elseBody.value, true))
    requires IfSplit(cfg, h, IfElem(f, thenBody, elseBody), h[id].leaves, thenBody.entry, LeavesOf(h, thenBody.elems),
                     if elseBody.Some? then elseBody.value.entry else f.join, ElseLeaves(h, elseBody))
    ensures IfOk(cfg, h, id, IfElem(f, thenBody, elseBody))
  {
  }

  lemma IfSplitNew(cfg: Cfg, g: seq<Meta>, h: seq<Meta>, f: IfShape, thenBody: Body, elseBody: Option<Body>, m: Meta)
    requires |cfg| <= |g| && Live(cfg, f.entry) && |cfg[f.entry].value| == 2 && h == g + [m]
    requires Known(g, f.join) && Known(g, thenBody.entry) && (elseBody.Some? ==> Known(g, elseBody.value.entry))
    requires g[thenBody.entry].head == BranchExit(cfg, f.entry, !f.inverted)
    requires g[if elseBody.Some? then elseBody.value.entry else f.join].head == BranchExit(cfg, f.entry, f.inverted)
    requires MembersOk(g, thenBody.elems) && MembersOk(g, ArmSet(elseBody))
    requires m.leaves == {f.entry} + LeavesOf(g, thenBody.elems) + LeavesOf(g, ArmSet(elseBody))
    requires f.entry !in LeavesOf(g, thenBody.elems) && f.entry !in LeavesOf(g, ArmSet(elseBody))
    requires LeavesOf(g, thenBody.elems) !! LeavesOf(g, ArmSet(elseBody))
    ensures IfSplit(cfg, h, IfElem(f, thenBody, elseBody), m.leaves, thenBody.entry, LeavesOf(h, thenBody.elems),
                    if elseBody.Some? then elseBody.value.entry else f.join, ElseLeaves(h, elseBody))
  {
    LeavesOfPrefix(g, h, thenBody.elems);
    LeavesOfPrefix(g, h, ArmSet(elseBody));
  }

  ghost predicate IfFolded(g: seq<Meta>, d: Arena, body: Body, f: IfShape, thenBody: Body, elseBody: Option<Body>, g': seq<Meta>, d': Arena, r: Body) {
    && f.entry < |g|
    && IsArm(d, f.thenBlks, thenBody)
    && f.elseBlks.Some? == elseBody.Some?
    && (elseBody.Some? ==> IsArm(d, f.elseBlks.value, elseBody.value))
    && IfOut(f, thenBody, elseBody) <= body.elems
    && d' == d + [Some(IfElem(f, thenBody, elseBody))]
    && g' == g + [IfMeta(g, f, thenBody, elseBody)]
    && r == Fold(body, f.entry, IfOut(f, thenBody, elseBody), |d|)
  }

  method FindIf(body: Body, data: Arena) returns (found: Option<IfShape>)
    requires Graph(body, {}, data).Ok()
    ensures found.Some? ==> IsIf(body, data, found.value)
    ensures found.None? ==> forall f :: !IsIf(body, data, f)
    ensures found.Some? ==> forall f :: IsIf(body, data, f) ==> !Preferred(f, found.value)
  {
    found := FindOneArm(body, data);
    if found.None? {
      found := FindTwoArms(body, data);
    }
  }

  /** Removing members that are not there is an error in the source; no caller does it. */
  function RemoveElems(body: Body, out: set<ElemId>): Body
    requires out <= body.elems
  {
    body.(elems := body.elems - out)
  }

  lemma InsertIfBody(cfg: Cfg, g: seq<Meta>, d: Arena, body: Body, full: bool, f: IfShape, thenBody: Body, elseBody: Option<Body>, out: set<ElemId>)
    requires MetaOk(cfg, g) && BodyOk(g, body, full) && Graph(body, {}, d).Ok() && IsIf(body, d, f)
    requires IsArm(d, f.thenBlks, thenBody)
    requires f.elseBlks.Some? == elseBody.Some? && (elseBody.Some? ==> IsArm(d, f.elseBlks.value, elseBody.value))
    requires out == IfOut(f, thenBody, elseBody)
    ensures out <= body.elems && f.entry < |g| && f.entry in out && f.thenBlks[0] in out && f.thenBlks[0] != f.entry
    ensures MetaOk(cfg, g + [IfMeta(g, f, thenBody, elseBody)])
    ensures BodyOk(g + [IfMeta(g, f, thenBody, elseBody)], Fold(body, f.entry, out, |g|), full)
    ensures LeavesOf(g + [IfMeta(g, f, thenBody, elseBody)], Fold(body, f.entry, out, |g|).elems) == LeavesOf(g, body.elems)
  {
    OutOfIf(g, d, body, f, thenBody, elseBody);
    FoldKeepsBody(cfg, g, body, full, f.entry, out, IfMeta(g, f, thenBody, elseBody));
  }

  lemma OutOfIf(g: seq<Meta>, d: Arena, body: Body, f: IfShape, thenBody: Body, elseBody: Option<Body>)
    requires MembersOk(g, body.elems) && Graph(body, {}, d).Ok() && IsIf(body, d, f) && IsArm(d, f.thenBlks, thenBody)
    requires f.elseBlks.Some? == elseBody.Some? && (elseBody.Some? ==> IsArm(d, f.elseBlks.value, elseBody.value))
    ensures var out := IfOut(f, thenBody, elseBody);
      out <= body.elems && f.entry < |g| && f.entry in out && f.thenBlks[0] in out && f.thenBlks[0] != f.entry
  {
    ArmsOfIf(body, d, f, thenBody, elseBody);
    assert f.thenBlks[0] in f.thenBlks;
  }

  lemma FewerMembers(s: set<ElemId>, out: set<ElemId>, id: ElemId, x: ElemId, y: ElemId)
    requires out <= s && id !in s && x in out && y in out && x != y
    ensures |s - out + {id}| < |s|
  {
    FoldSize(s, out, id);
    SubsetSize({x, y}, out);
  }

  lemma InsertIfOk(cfg: Cfg, g: seq<Meta>, d: Arena, body: Body, full: bool, f: IfShape, thenBody: Body, elseBody: Option<Body>, out: set<ElemId>)
    requires ArenaOk(cfg, g, d) && CfgOk(cfg) && BodyOk(g, body, full)
    requires Graph(body, {}, d).Ok() && IsIf(body, d, f)
    requires IsArm(d, f.thenBlks, thenBody)
    requires f.elseBlks.Some? == elseBody.Some? && (elseBody.Some? ==> IsArm(d, f.elseBlks.value, elseBody.value))
    requires out == IfOut(f, thenBody, elseBody)
    ensures out <= body.elems && f.entry < |g|
    ensures ArenaOk(cfg, g + [IfMeta(g, f, thenBody, elseBody)], d + [Some(IfElem(f, thenBody, elseBody))])
    ensures BodyOk(g + [IfMeta(g, f, thenBody, elseBody)], Fold(body, f.entry, out, |d|), full)
    ensures LeavesOf(g + [IfMeta(g, f, thenBody, elseBody)], Fold(body, f.entry, out, |d|).elems) == LeavesOf(g, body.elems)
    ensures |Fold(body, f.entry, out, |d|).elems| < |body.elems|
  {
    InsertIfBody(cfg, g, d, body, full, f, thenBody, elseBody, out);
    FewerMembers(body.elems, out, |d|, f.entry, f.thenBlks[0]);
    InsertIfArena(cfg, g, d, body, full, f, thenBody, elseBody);
  }

  lemma InsertIfArena(cfg: Cfg, g: seq<Meta>, d: Arena, body: Body, full: bool, f: IfShape, thenBody: Body, elseBody: Option<Body>)
    requires ArenaOk(cfg, g, d) && CfgOk(cfg) && BodyOk(g, body, full) && Graph(body, {}, d).Ok() && IsIf(body, d, f)
    requires IsArm(d, f.thenBlks, thenBody)
    requires f.elseBlks.Some? == elseBody.Some? && (elseBody.Some? ==> IsArm(d, f.elseBlks.value, elseBody.value))
    requires f.entry < |g| && MetaOk(cfg, g + [IfMeta(g, f, thenBody, elseBody)])
    ensures ArenaOk(cfg, g + [IfMeta(g, f, thenBody, elseBody)], d + [Some(IfElem(f, thenBody, elseBody))])
  {
    IfElemOk(cfg, g, d, body, full, f, thenBody, elseBody);
    ArenaOkAppend(cfg, g, d, IfMeta(g, f, thenBody, elseBody), IfElem(f, thenBody, elseBody));
  }

  method BuildArms(body: Body, data: Arena, f: IfShape) returns (thenBody: Body, elseBody: Option<Body>)
    requires Graph(body, {}, data).Ok() && IsIf(body, data, f)
    ensures IsArm(data, f.thenBlks, thenBody)
    ensures f.elseBlks.Some? == elseBody.Some? && (elseBody.Some? ==> IsArm(data, f.elseBlks.value, elseBody.value))
  {
    ghost var a, b := Way(body, data, f.entry, 0), Way(body, data, f.entry, 1);
    ChainMembers(body, data, if f.elseBlks.None? && f.inverted then b else a, f.join, f.thenBlks);
    thenBody := BuildArm(f.thenBlks, data);
    elseBody := None;
    if f.elseBlks.Some? {
      ChainMembers(body, data, b, f.join, f.elseBlks.value);
      var other := BuildArm(f.elseBlks.value, data);
      elseBody := Some(other);
    }
  }

  /** The members of the if make way for the new element, arm by arm. */
  function ReplaceByIf(body: Body, entry: ElemId, thenBody: Body, elseBody: Option<Body>, id: ElemId): (r: Body)
    requires thenBody.elems <= body.elems && ArmSet(elseBody) <= body.elems && thenBody.elems !! ArmSet(elseBody)
    requires entry in body.elems && entry !in thenBody.elems && entry !in ArmSet(elseBody)
    ensures r == Fold(body, entry, {entry} + thenBody.elems + ArmSet(elseBody), id)
  {
    var b0 := RemoveElems(body, thenBody.elems);
    var b1 := if elseBody.Some? then RemoveElems(b0, elseBody.value.elems) else b0;
    var b2 := RemoveElems(b1, {entry});
    assert b2.elems == body.elems - ({entry} + thenBody.elems + ArmSet(elseBody));
    b2.(elems := b2.elems + {id}, remap := b2.remap[entry := id])
  }

  /** Find one if statement and fold it into one element. */
  method InferIf(body: Body, data: ControlFlowData, ghost v: set<ElemId>, ghost full: bool)
    returns (r: Body, found: bool, ghost f: IfShape, ghost thenArm: Body, ghost elseArm: Option<Body>)
    requires data.Valid() && BodyOk(data.meta, body, full) && HoldsBlocks(data.meta, body.elems, v)
    requires ScopePresent(data.meta, data.elems, v, full)
    modifies data
    ensures data.Valid()
    ensures Graph(body, {}, old(data.elems)).Ok()
    ensures !found ==> r == body && data.elems == old(data.elems) && data.meta == old(data.meta)
    ensures !found ==> forall f :: !IsIf(body, old(data.elems), f)
    ensures found ==> IsIf(body, old(data.elems), f) && forall f' :: IsIf(body, old(data.elems), f') ==> !Preferred(f', f)
    ensures found ==> IfFolded(old(data.meta), old(data.elems), body, f, thenArm, elseArm, data.meta, data.elems, r)
    ensures found ==> |r.elems| < |body.elems|
    ensures BodyOk(data.meta, r, full) && HoldsBlocks(data.meta, r.elems, v)
  {
    ghost var g, d := data.meta, data.elems;
    BlocksAre(g, body.elems, v);
    ScopeGivesGraph(g, d, body, full, {});
    var shape := FindIf(body, data.elems);
    thenArm, elseArm := body, None;
    f := if shape.Some? then shape.value else IfShape(0, [], None, 0, false);
    if shape.None? {
      return body, false, f, thenArm, elseArm;
    }
    var s := shape.value;
    var thenBody, elseBody := BuildArms(body, data.elems, s);
    thenArm, elseArm := thenBody, elseBody;
    ghost var out := IfOut(s, thenBody, elseBody);
    InsertIfOk(data.cfg, g, d, body, full, s, thenBody, elseBody, out);
    ArmsOfIf(body, d, s, thenBody, elseBody);
    AppendBare(d, IfElem(s, thenBody, elseBody));
    var id := data.Append(IfElem(s, thenBody, elseBody), IfMeta(g, s, thenBody, elseBody));
    r := ReplaceByIf(body, s.entry, thenBody, elseBody, id);
    LeavesAreBlocks(data.meta, r.elems);
    found := true;
  }
}
