/** A body that lost its entry to an if never gets it back; and a program that loses one: two nested loops
    closed by one branch, blocks 0 -> 1, 1 -> 2, 2 -> 0 or 1. */
module LostEntry {
  import opened Wrappers
  import opened ControlFlow
  import opened Ownership
  import opened Dfs
  import opened FirstCycle
  import opened Structure
  import opened Steps
  import opened Progress
  import opened CSyntax
  import opened Decompile

  ghost predicate Lost(b: Body) {
    b.entry !in b.elems && b.entry !in b.remap
  }

  /** Later folds do not bring the entry back. */
  lemma {:induction false} StaysLost(g: seq<Meta>, bs: seq<Body>, ids: seq<ElemId>, i: nat, j: nat)
    requires IfsTo(g, bs, ids) && i <= j < |bs| && Lost(bs[i])
    ensures Lost(bs[j])
    decreases j - i
  {
    if i < j {
      assert IfAt(g, bs, ids, i);
      var f, arm, other :| IfStepOf(g, bs[i], bs[i + 1], ids[i], f, arm, other);
      assert f.entry in bs[i].elems;
      StaysLost(g, bs, ids, i + 1, j);
    }
  }

  // ------------------------------------------------------------------------
  // The program.

  function NestedLoops(): Cfg {
    [Some([1]), Some([2]), Some([0, 1])]
  }

  ghost function All(): Body {
    Body(0, {0, 1, 2}, map[], [])
  }

  /** Before anything is folded: the three blocks with their exits. */
  ghost predicate Blocks012(d: Arena) {
    && Present(d, 0) && d[0].value == BlockElem(0, [1])
    && Present(d, 1) && d[1].value == BlockElem(1, [2])
    && Present(d, 2) && d[2].value == BlockElem(2, [0, 1])
  }

  lemma BlocksAreMade(g: seq<Meta>)
    requires MetaOk(NestedLoops(), g)
    ensures Blocks012(Made(g)) && LiveBlocks(NestedLoops()) == {0, 1, 2}
  {
    var cfg := NestedLoops();
    assert g[0] == BlockMeta(cfg, 0) && g[1] == BlockMeta(cfg, 1) && g[2] == BlockMeta(cfg, 2);
  }

  lemma Paths(d: Arena, exclude: set<ElemId>)
    requires Blocks012(d) && exclude <= {2}
    ensures var gr := Graph(All(), exclude, d);
      gr.Ok() && gr.SimplePath([0]) && gr.SimplePath([0, 1]) && (exclude == {} ==> gr.SimplePath([0, 1, 2]))
  {
    var gr := Graph(All(), exclude, d);
    assert gr.Target(0, 0) == 1 && gr.Target(1, 0) == 2;
    assert gr.Entered([0, 1], 1);
    if exclude == {} {
      assert gr.Entered([0, 1, 2], 1) && gr.Entered([0, 1, 2], 2);
    }
  }

  /** The search goes 0, 1, 2 and closes on 0. */
  lemma FirstIsZero(d: Arena)
    requires Blocks012(d)
    ensures var gr := Graph(All(), {}, d); gr.Ok() && gr.SimplePath([0]) && FirstFrom(gr, [0], 0) == Some(0)
  {
    var gr := Graph(All(), {}, d);
    Paths(d, {});
    assert gr.Target(0, 0) == 1 && gr.Target(1, 0) == 2 && gr.Target(2, 0) == 0;
    assert [0] + [1] == [0, 1] && [0, 1] + [2] == [0, 1, 2];
    assert FirstFrom(gr, [0, 1, 2], 0) == Some(0);
    assert FirstFrom(gr, [0, 1], 0) == Some(0);
  }

  lemma NoneAvoiding2(d: Arena)
    requires Blocks012(d)
    ensures var gr := Graph(All(), {2}, d); gr.Ok() && gr.SimplePath([0]) && FirstFrom(gr, [0], 0) == None
  {
    var gr := Graph(All(), {2}, d);
    Paths(d, {2});
    assert gr.Target(0, 0) == 1 && gr.Target(1, 0) == 2;
    assert [0] + [1] == [0, 1];
    assert FirstFrom(gr, [0, 1], 1) == None;
    assert FirstFrom(gr, [0, 1], 0) == None;
    assert FirstFrom(gr, [0], 1) == None;
  }

  /** The cycle that closes on 0 holds all three blocks, and its backedge leaves 2. */
  lemma WholeLoop(d: Arena, done: set<(seq<ElemId>, nat)>, lp: LoopShape)
    requires Blocks012(d) && lp.entry == 0 && LoopFound(Graph(All(), {}, d), 0, done, lp)
    ensures lp.elems == {0, 1, 2} && lp.backedges == {2}
  {
    var gr := Graph(All(), {}, d);
    Paths(d, {});
    CapturedIsOpen(gr, 0, done, lp);
    var w: seq<ElemId>, i: nat := [0, 1, 2], 0;
    assert gr.Target(2, 0) == 0;
    assert gr.Step((w, i)) && [0] <= w;
    assert (w, i) in done;
    assert Closes(gr, (w, i), 0);
    forall x | x in {0, 1, 2}
      ensures x in lp.elems
    {
      assert w[0] == 0 && w[x] == x;
      assert OnCycle(w, 0, x);
      assert Captured(done, gr, 0, x);
    }
    forall x
      ensures x in lp.backedges <==> x == 2
    {
      if x in lp.backedges {
        var v :| v in done && Closes(gr, v, 0) && gr.Last(v.0) == x;
        assert gr.Open(x) && x in {0, 1, 2};
      }
      assert x == 2 ==> Backedge(done, gr, 0, x);
    }
  }

  lemma StaysInside(d: Arena, w: (seq<ElemId>, nat))
    requires Blocks012(d) && Graph(All(), {}, d).Ok() && Graph(All(), {}, d).Step(w) && w.0[0] == 0
    ensures Graph(All(), {}, d).Target(Graph(All(), {}, d).Last(w.0), w.1) in All().elems
  {
    var gr := Graph(All(), {}, d);
    var k := |w.0| - 1;
    assert k > 0 ==> gr.Entered(w.0, k);
  }

  /** It has no exits. */
  lemma NoWayOut(d: Arena, exits: seq<ElemId>)
    requires Blocks012(d) && ExitsOfLoop(d, 0, {0, 1, 2}, exits)
    ensures exits == []
  {
    assert exits == [] || exits[0] in exits;
    var gr := Graph(All(), {}, d);
    Paths(d, {});
    var inner :| AllSteps(gr, 0, inner) && forall t :: t in exits <==> EscapeOf(gr, inner, t);
    forall t
      ensures t !in exits
    {
      forall w | w in inner
        ensures !Escapes(gr, w, t)
      {
        StaysInside(d, w);
      }
    }
  }

  /** After the first fold the loop is all there is. */
  ghost predicate OneLoop(g: seq<Meta>, b: Body, id: ElemId) {
    && id < |g| && Known(g, id) && g[id].made == LoopElem(0, [], {2}, {0, 1, 2}) && 2 < id
    && b == All().(elems := {id}, remap := map[0 := id])
  }

  lemma FirstLoopIs(g: seq<Meta>, b: Body, id: ElemId) returns (done: set<(seq<ElemId>, nat)>)
    requires Blocks012(Made(g)) && LoopStep(g, {}, All(), b, id)
    ensures g[id].made.detail.Loop? && g[id].made.entry == 0
    ensures var lp := LoopShape(0, g[id].made.detail.backedges, g[id].made.detail.body.elems);
      LoopFound(Graph(All(), {}, Made(g)), 0, done, lp)
  {
    FirstIsZero(Made(g));
    done :| LoopFound(Graph(All(), {}, Made(g)), 0, done, LoopShape(g[id].made.entry, g[id].made.detail.backedges, g[id].made.detail.body.elems));
  }

  lemma FirstFold(g: seq<Meta>, b: Body, id: ElemId)
    requires Blocks012(Made(g)) && LoopStep(g, {}, All(), b, id)
    ensures OneLoop(g, b, id)
  {
    var done := FirstLoopIs(g, b, id);
    var e := g[id].made;
    WholeLoop(Made(g), done, LoopShape(0, e.detail.backedges, e.detail.body.elems));
    NoWayOut(Made(g), e.exits);
    assert Within(g, id, 0);
  }

  lemma NotAcyclic(d: Arena)
    requires Blocks012(d)
    ensures !Acyclic(Graph(All(), {}, d), 0)
  {
    var gr := Graph(All(), {}, d);
    Paths(d, {});
    var w: seq<ElemId>, i: nat := [0, 1, 2], 0;
    assert gr.Target(2, 0) == 0 && gr.Step((w, i));
    assert Closes(gr, (w, i), 0);
  }

  lemma NoMoreLoop(g: seq<Meta>, b: Body, id: ElemId, b': Body, id': ElemId)
    requires Blocks012(Made(g)) && OneLoop(g, b, id)
    ensures !LoopStep(g, {}, b, b', id')
  {
    var gr := Graph(b, {}, Made(g));
    assert gr.Ok() && gr.SimplePath([0]) && gr.Target(0, 0) == 1;
    assert FirstFrom(gr, [0], 1) == None;
    assert FirstFrom(gr, [0], 0) == None;
  }

  lemma NoMoreIf(g: seq<Meta>, b: Body, id: ElemId, b': Body, id': ElemId)
    requires OneLoop(g, b, id)
    ensures !IfStep(g, b, b', id')
  {
    forall x
      ensures Graph(b, {}, Made(g)).Ok() && !Header(b, Made(g), x)
    {
    }
  }

  /** So the whole program folds into one loop. */
  lemma FoldsToOneLoop(g: seq<Meta>, r: Body) returns (id: ElemId)
    requires Blocks012(Made(g)) && Folds(g, All(), {}, r)
    ensures OneLoop(g, r, id)
  {
    var h :| FoldsVia(g, All(), {}, r, h);
    NotAcyclic(Made(g));
    assert h.loopIds != [];
    id := h.loopIds[0];
    assert LoopAt(g, {}, h.loops, h.loopIds, 0);
    FirstFold(g, h.loops[1], id);
    if |h.loopIds| > 1 {
      assert LoopAt(g, {}, h.loops, h.loopIds, 1);
      NoMoreLoop(g, h.loops[1], id, h.loops[2], h.loopIds[1]);
    }
    if h.ifIds != [] {
      assert IfAt(g, h.ifs, h.ifIds, 0);
      NoMoreIf(g, h.ifs[0], id, h.ifs[1], h.ifIds[0]);
    }
  }

  // ------------------------------------------------------------------------
  // Inside that loop.

  lemma NoInnerLoop(g: seq<Meta>, b: Body, id: ElemId)
    requires Blocks012(Made(g))
    ensures !LoopStep(g, {2}, All(), b, id)
  {
    NoneAvoiding2(Made(g));
  }

  /** Block 2 heads an if over block 0. */
  lemma AnIf(d: Arena)
    requires Blocks012(d)
    ensures !NoIfs(All(), d)
  {
    Paths(d, {});
    var f := IfShape(2, [0], None, 1, false);
    assert Link(All(), d, [0], 1, 0);
    assert Chain(All(), d, 0, 1, [0]);
    assert IsIf(All(), d, f);
  }

  /** Whichever if is taken, it takes block 0, where the loop is entered. */
  lemma TakesZero(d: Arena, f: IfShape)
    requires Blocks012(d) && Graph(All(), {}, d).Ok() && IsIf(All(), d, f)
    ensures f.entry == 2 && f.thenBlks != [] && f.thenBlks[0] == 0
  {
    if f.elseBlks.None? && f.inverted {
      NoChainBack(d, f.join, f.thenBlks);
    }
  }

  lemma NoChainBack(d: Arena, dst: ElemId, c: seq<ElemId>)
    requires Blocks012(d) && Graph(All(), {}, d).Ok() && dst == 0
    ensures !Chain(All(), d, 1, dst, c)
  {
    if |c| > 0 && c[0] == 1 {
      assert (|c| > 1 && c[1] == 2) || !Link(All(), d, c, dst, 0);
      assert |c| > 1 && c[1] == 2 ==> !Link(All(), d, c, dst, 1);
    }
  }

  lemma LosesZero(g: seq<Meta>, b: Body, id: ElemId)
    requires Blocks012(Made(g)) && IfStep(g, All(), b, id)
    ensures Lost(b)
  {
    var f, arm, other :| IfStepOf(g, All(), b, id, f, arm, other);
    TakesZero(Made(g), f);
    assert f.thenBlks[0] in f.thenBlks && 0 in arm.elems;
  }

  /** The body of the loop loses block 0 to an if, and with it its entry. */
  lemma InnerLosesEntry(g: seq<Meta>, r: Body)
    requires Blocks012(Made(g)) && Folds(g, All(), {2}, r)
    ensures Lost(r)
  {
    var h :| FoldsVia(g, All(), {2}, r, h);
    if h.loopIds != [] {
      assert LoopAt(g, {2}, h.loops, h.loopIds, 0);
      NoInnerLoop(g, h.loops[1], h.loopIds[0]);
    }
    AnIf(Made(g));
    assert h.ifIds != [];
    assert IfAt(g, h.ifs, h.ifIds, 0);
    LosesZero(g, h.ifs[1], h.ifIds[0]);
    StaysLost(g, h.ifs, h.ifIds, 1, |h.ifs| - 1);
  }

  /** However its elements are numbered, the folded program has lost an entry. */
  lemma NestedLoopsLoseEntry(s: FoldedGraph)
    requires Structured(NestedLoops(), s)
    ensures !KeepsEntries(s)
  {
    BlocksAreMade(s.g);
    var id := FoldsToOneLoop(s.g, s.body);
    assert id in s.body.elems && FoldedBelow(s.g, s.d, id);
    var r := s.d[id].value.detail.body;
    InnerLosesEntry(s.g, r);
    assert !Keeps(s.g, s.d, id);
  }

  /** So this program is not decompiled, though its loops are properly nested. */
  method BuildNestedLoops() returns (ok: bool, prog: seq<Stmt>)
    ensures !ok
  {
    ghost var s;
    ok, prog, s := Build(NestedLoops());
    NestedLoopsLoseEntry(s);
  }
}
