/** A program whose arms do not agree: blocks 0 and 7 loop; after it block 1 goes to 4 either way, and from there
    4, 2 and 6 go round, 4 past 5 and 2 past 3. The search for loops starts inside the loop of 0 and 7 and does not
    see that ring; so the if at 1 takes it for an arm. */
module TwinRing {
  import opened Wrappers
  import opened ControlFlow
  import opened Ownership
  import opened Dfs
  import opened FirstCycle
  import opened Structure
  import opened Steps
  import opened Names
  import opened Arms
  import opened Rings
  import opened Enclosing
  import opened Progress
  import opened CSyntax
  import opened Decompile

  function Program(): Cfg {
    [Some([7]), Some([4, 4]), Some([3, 6]), Some([6]), Some([5, 2]), Some([2]), Some([4]), Some([0, 1])]
  }

  ghost function Flat(): Body {
    Body(0, {0, 1, 2, 3, 4, 5, 6, 7}, map[], [])
  }

  ghost predicate Is(d: Arena, b: ElemId, exits: seq<ElemId>) {
    Present(d, b) && d[b].value == BlockElem(b, exits)
  }

  ghost predicate TheBlocks(d: Arena) {
    && Is(d, 0, [7]) && Is(d, 1, [4, 4]) && Is(d, 2, [3, 6]) && Is(d, 3, [6])
    && Is(d, 4, [5, 2]) && Is(d, 5, [2]) && Is(d, 6, [4]) && Is(d, 7, [0, 1])
  }

  lemma BlocksAreMade(g: seq<Meta>)
    requires MetaOk(Program(), g)
    ensures TheBlocks(Made(g))
  {
    var cfg := Program();
    assert g[0] == BlockMeta(cfg, 0) && g[1] == BlockMeta(cfg, 1) && g[2] == BlockMeta(cfg, 2) && g[3] == BlockMeta(cfg, 3);
    assert g[4] == BlockMeta(cfg, 4) && g[5] == BlockMeta(cfg, 5) && g[6] == BlockMeta(cfg, 6) && g[7] == BlockMeta(cfg, 7);
  }

  lemma AllAreLive()
    ensures LiveBlocks(Program()) == Flat().elems
  {
  }

  // ------------------------------------------------------------------------
  // The loop of 0 and 7, which is all that the search sees.

  lemma Path07(d: Arena)
    requires TheBlocks(d)
    ensures var gr := Graph(Flat(), {}, d);
      gr.Ok() && gr.SimplePath([0]) && gr.SimplePath([0, 7]) && Closes(gr, ([0, 7], 0), 0) && FirstFrom(gr, [0], 0) == Some(0)
  {
    var gr := Graph(Flat(), {}, d);
    assert gr.Target(0, 0) == 7 && gr.Target(7, 0) == 0;
    assert gr.Entered([0, 7], 1);
    assert [0] + [7] == [0, 7];
    assert FirstFrom(gr, [0, 7], 0) == Some(0);
  }

  lemma OnlyPath07(d: Arena, w: (seq<ElemId>, nat))
    requires TheBlocks(d) && w.0 != [] && w.0[0] == 0 && Closes(Graph(Flat(), {}, d), w, 0)
    ensures w.0 == [0, 7]
  {
    var gr, p := Graph(Flat(), {}, d), w.0;
    var x := gr.Last(p);
    assert gr.Target(x, w.1) == 0;
    assert |p| > 1 ==> gr.Entered(p, 1);
    assert |p| > 1 ==> gr.Entered(p, |p| - 1);
    assert x == 7;
    assert p[1] == 7 && p[|p| - 1] == 7;
  }

  lemma LoopIs07(d: Arena, done: set<(seq<ElemId>, nat)>, lp: LoopShape)
    requires TheBlocks(d) && lp.entry == 0 && LoopFound(Graph(Flat(), {}, d), 0, done, lp)
    ensures lp.elems == {0, 7}
  {
    var gr := Graph(Flat(), {}, d);
    Path07(d);
    var w: seq<ElemId>, i: nat := [0, 7], 0;
    assert gr.Step((w, i)) && [0] <= w;
    assert (w, i) in done;
    forall x
      ensures x in lp.elems <==> x in {0, 7}
    {
      if x in lp.elems {
        assert Captured(done, gr, 0, x);
        var v :| v in done && Closes(gr, v, 0) && OnCycle(v.0, 0, x);
        OnlyPath07(d, v);
      }
      if x in {0, 7} {
        assert w[0] == 0 && w[if x == 0 then 0 else 1] == x;
        assert OnCycle(w, 0, x);
        assert Captured(done, gr, 0, x);
      }
    }
  }

  /** What is left around the loop `l`. */
  ghost function Around(l: ElemId): Body {
    Flat().(elems := {l, 1, 2, 3, 4, 5, 6}, remap := map[0 := l])
  }

  ghost predicate IsLoop(g: seq<Meta>, l: ElemId) {
    Known(g, l) && g[l].made.detail.Loop? && 7 < l
  }

  lemma FirstLoopIs(g: seq<Meta>, b: Body, l: ElemId)
    requires TheBlocks(Made(g)) && LoopStep(g, {}, Flat(), b, l)
    ensures g[l].made.detail.Loop? && g[l].made.entry == 0 && g[l].made.detail.body.elems == {0, 7}
  {
    var e := g[l].made;
    Path07(Made(g));
    var done :| LoopFound(Graph(Flat(), {}, Made(g)), 0, done, LoopShape(e.entry, e.detail.backedges, e.detail.body.elems));
    LoopIs07(Made(g), done, LoopShape(0, e.detail.backedges, e.detail.body.elems));
  }

  lemma AroundIs(l: ElemId)
    ensures Flat().elems - {0, 7} + {l} == Around(l).elems
  {
  }

  lemma FirstFold(g: seq<Meta>, b: Body, l: ElemId)
    requires TheBlocks(Made(g)) && LoopStep(g, {}, Flat(), b, l)
    ensures IsLoop(g, l) && b == Around(l)
  {
    FirstLoopIs(g, b, l);
    assert Within(g, l, 0);
    assert 7 in Flat().elems;
    AroundIs(l);
  }

  lemma NoMoreLoop(g: seq<Meta>, l: ElemId, b': Body, id: ElemId)
    requires TheBlocks(Made(g)) && IsLoop(g, l)
    ensures !LoopStep(g, {}, Around(l), b', id)
  {
    var gr := Graph(Around(l), {}, Made(g));
    assert gr.Ok() && gr.SimplePath([0]) && gr.Target(0, 0) == 7;
    assert FirstFrom(gr, [0], 1) == None;
    assert FirstFrom(gr, [0], 0) == None;
  }

  /** The search starts at block 0, which only leads into the loop, so it meets no cycle; but there is one. */
  lemma RingIsNotSeen(g: seq<Meta>, l: ElemId)
    requires TheBlocks(Made(g)) && IsLoop(g, l)
    ensures Acyclic(Graph(Around(l), {}, Made(g)), 0) && Closes(Graph(Around(l), {}, Made(g)), ([4, 2, 6], 0), 4)
  {
    var gr := Graph(Around(l), {}, Made(g));
    forall w, t | gr.Step(w) && w.0[0] == 0
      ensures !Closes(gr, w, t)
    {
      assert gr.Target(0, 0) == 7;
      assert |w.0| > 1 ==> gr.Entered(w.0, 1);
    }
    assert gr.Target(4, 1) == 2 && gr.Target(2, 1) == 6 && gr.Target(6, 0) == 4;
    assert gr.Entered([4, 2, 6], 1) && gr.Entered([4, 2, 6], 2);
  }

  lemma LoopsEnd(g: seq<Meta>, bs: seq<Body>, ids: seq<ElemId>)
    requires TheBlocks(Made(g)) && LoopsTo(g, {}, bs, ids) && bs[0] == Flat() && Acyclic(Graph(LastOf(bs), {}, Made(g)), 0)
    ensures |ids| == 1 && IsLoop(g, ids[0]) && LastOf(bs) == Around(ids[0])
  {
    Path07(Made(g));
    assert ids != [];
    assert LoopAt(g, {}, bs, ids, 0);
    FirstFold(g, bs[1], ids[0]);
    if |ids| > 1 {
      assert LoopAt(g, {}, bs, ids, 1);
      NoMoreLoop(g, ids[0], bs[2], ids[1]);
    }
  }

  // ------------------------------------------------------------------------
  // The ifs, each the first that has one arm.

  lemma NoChainFrom(b: Body, d: Arena, src: ElemId, dst: ElemId, c: seq<ElemId>)
    requires Graph(b, {}, d).Ok() && (src in b.elems ==> |d[src].value.exits| != 1)
    ensures !Chain(b, d, src, dst, c)
  {
    if c != [] && c[0] == src {
      assert !Link(b, d, c, dst, 0);
    }
  }

  /** No one-armed if has a header below `h`. */
  ghost predicate NoneBelow(b: Body, d: Arena, h: ElemId)
    requires Graph(b, {}, d).Ok()
  {
    forall f :: IsIf(b, d, f) && f.elseBlks.None? ==> h <= f.entry
  }

  lemma Picked(b: Body, d: Arena, f: IfShape, g0: IfShape)
    requires ChosenIf(b, d, f) && IsIf(b, d, g0) && g0.elseBlks.None? && !g0.inverted && NoneBelow(b, d, g0.entry)
    ensures f.elseBlks.None? && f.entry == g0.entry && !f.inverted
  {
    assert !Preferred(g0, f);
  }

  /** An if at `h` whose one arm is the block `a`, going on at `join`. */
  ghost predicate IsIfOver(g: seq<Meta>, id: ElemId, h: ElemId, a: ElemId, join: ElemId) {
    && Known(g, id) && 7 < id && g[id].made.entry == h && g[id].made.exits == [join]
    && g[id].made.detail == Detail.If(false, Body(a, {a}, map[], []), None)
  }

  lemma SiteOver(b: Body, d: Arena, h: ElemId, a: ElemId, join: ElemId) returns (f: IfShape)
    requires Graph(b, {}, d).Ok() && Header(b, d, h) && Way(b, d, h, 0) == a && Way(b, d, h, 1) == join && SingleExit(b, d, a, join)
    ensures IsIf(b, d, f) && f == IfShape(h, [a], None, join, false)
  {
    f := IfShape(h, [a], None, join, false);
    assert Link(b, d, [a], join, 0);
    assert Chain(b, d, a, join, [a]);
  }

  /** A fold of the if at `h` over the block `a`, the first that there is. */
  lemma FoldOver(g: seq<Meta>, b: Body, b': Body, id: ElemId, h: ElemId, a: ElemId, join: ElemId)
    requires TheBlocks(Made(g)) && IfStep(g, b, b', id) && Graph(b, {}, Made(g)).Ok()
    requires Header(b, Made(g), h) && NoneBelow(b, Made(g), h)
    requires Way(b, Made(g), h, 0) == a && Way(b, Made(g), h, 1) == join && a != join && a < 8
    requires SingleExit(b, Made(g), a, join) && g[a].made.entry == a
    ensures g[id].made.entry == h && g[id].made.exits == [join] && g[id].made.detail == Detail.If(false, Body(a, {a}, map[], []), None)
    ensures b' == Fold(b, h, {h, a}, id) && (forall x :: x in b.elems ==> x < id) && Known(g, id)
  {
    var d := Made(g);
    var f0 := SiteOver(b, d, h, a, join);
    var f, arm, other :| IfStepOf(g, b, b', id, f, arm, other);
    Picked(b, d, f, f0);
    ShortChain(b, d, a, join, f.thenBlks);
    ArmOfOne(d, a, arm);
    assert IfOut(f, arm, other) == {h, a};
    assert Within(g, id, h);
  }

  lemma ShortChain(b: Body, d: Arena, a: ElemId, join: ElemId, c: seq<ElemId>)
    requires Graph(b, {}, d).Ok() && Chain(b, d, a, join, c) && SingleExit(b, d, a, join)
    ensures c == [a]
  {
    assert Link(b, d, c, join, 0);
    assert |c| > 1 && c[1] == join ==> !Link(b, d, c, join, 1);
  }

  lemma ArmOfOne(d: Arena, a: ElemId, arm: Body)
    requires IsArm(d, [a], arm) && Present(d, a) && d[a].value.entry == a
    ensures arm == Body(a, {a}, map[], [])
  {
    assert arm.elems == {a};
    assert arm.remap == map[] by {
      forall k
        ensures k !in arm.remap
      {
      }
    }
  }

  /** After the if at 2, and after the if at 4. */
  ghost function Without2(l: ElemId, i2: ElemId): Body {
    Flat().(elems := {l, 1, 4, 5, 6, i2}, remap := map[0 := l, 2 := i2])
  }

  ghost function Without4(l: ElemId, i2: ElemId, i4: ElemId): Body {
    Flat().(elems := {l, 1, 6, i2, i4}, remap := map[0 := l, 2 := i2, 4 := i4])
  }

  lemma FirstSite(g: seq<Meta>, l: ElemId)
    requires TheBlocks(Made(g)) && IsLoop(g, l)
    ensures var b, d := Around(l), Made(g);
      && Graph(b, {}, d).Ok() && Header(b, d, 2) && NoneBelow(b, d, 2)
      && Way(b, d, 2, 0) == 3 && Way(b, d, 2, 1) == 6 && SingleExit(b, d, 3, 6)
  {
    var b, d := Around(l), Made(g);
    forall f | IsIf(b, d, f) && f.elseBlks.None?
      ensures 2 <= f.entry
    {
      NoChainFrom(b, d, 4, f.join, f.thenBlks);
    }
  }

  lemma FirstIf(g: seq<Meta>, l: ElemId, b: Body, id: ElemId)
    requires TheBlocks(Made(g)) && IsLoop(g, l) && IfStep(g, Around(l), b, id)
    ensures IsIfOver(g, id, 2, 3, 6) && b == Without2(l, id) && l < id
  {
    FirstSite(g, l);
    FoldOver(g, Around(l), b, id, 2, 3, 6);
    assert l in Around(l).elems;
    assert Around(l).elems - {2, 3} + {id} == Without2(l, id).elems;
  }

  lemma SecondSite(g: seq<Meta>, l: ElemId, i2: ElemId)
    requires TheBlocks(Made(g)) && IsLoop(g, l) && IsIfOver(g, i2, 2, 3, 6)
    ensures var b, d := Without2(l, i2), Made(g);
      && Graph(b, {}, d).Ok() && Header(b, d, 4) && NoneBelow(b, d, 4)
      && Way(b, d, 4, 0) == 5 && Way(b, d, 4, 1) == i2 && SingleExit(b, d, 5, i2)
  {
    var b, d := Without2(l, i2), Made(g);
    forall f | IsIf(b, d, f) && f.elseBlks.None?
      ensures 4 <= f.entry
    {
      NoChainFrom(b, d, 4, f.join, f.thenBlks);
    }
  }

  lemma SecondIf(g: seq<Meta>, l: ElemId, i2: ElemId, b: Body, id: ElemId)
    requires TheBlocks(Made(g)) && IsLoop(g, l) && IsIfOver(g, i2, 2, 3, 6) && l < i2 && IfStep(g, Without2(l, i2), b, id)
    ensures IsIfOver(g, id, 4, 5, i2) && b == Without4(l, i2, id) && i2 < id
  {
    SecondSite(g, l, i2);
    FoldOver(g, Without2(l, i2), b, id, 4, 5, i2);
    assert i2 in Without2(l, i2).elems;
    assert Without2(l, i2).elems - {4, 5} + {id} == Without4(l, i2, id).elems;
  }

  // ------------------------------------------------------------------------
  // The if at 1, whose arm goes round.

  /** The loop and the two ifs that are left around block 1. */
  ghost predicate Folded2(g: seq<Meta>, l: ElemId, i2: ElemId, i4: ElemId) {
    TheBlocks(Made(g)) && IsLoop(g, l) && IsIfOver(g, i2, 2, 3, 6) && IsIfOver(g, i4, 4, 5, i2) && l < i2 < i4
  }

  lemma ThirdSite(g: seq<Meta>, l: ElemId, i2: ElemId, i4: ElemId) returns (f: IfShape)
    requires Folded2(g, l, i2, i4)
    ensures var b, d := Without4(l, i2, i4), Made(g);
      && Graph(b, {}, d).Ok() && (forall x :: Header(b, d, x) ==> x == 1) && Header(b, d, 1)
      && Way(b, d, 1, 0) == i4 && Way(b, d, 1, 1) == i4
      && SingleExit(b, d, i4, i2) && SingleExit(b, d, i2, 6) && SingleExit(b, d, 6, i4)
      && f == IfShape(1, [i4, i2, 6], None, i4, false) && IsIf(b, d, f)
  {
    var b, d := Without4(l, i2, i4), Made(g);
    var c := [i4, i2, 6];
    assert SingleExit(b, d, i4, i2) && SingleExit(b, d, i2, 6) && SingleExit(b, d, 6, i4);
    assert Link(b, d, c, i4, 0) && Link(b, d, c, i4, 1) && Link(b, d, c, i4, 2);
    assert Chain(b, d, i4, i4, c);
    f := IfShape(1, c, None, i4, false);
  }

  lemma RingChain(b: Body, d: Arena, i2: ElemId, i4: ElemId, c: seq<ElemId>)
    requires Graph(b, {}, d).Ok() && Chain(b, d, i4, i4, c) && 6 < i2 < i4
    requires SingleExit(b, d, i4, i2) && SingleExit(b, d, i2, 6) && SingleExit(b, d, 6, i4)
    ensures c == [i4, i2, 6]
  {
    assert Link(b, d, c, i4, 0);
    assert Link(b, d, c, i4, 1);
    assert Link(b, d, c, i4, 2);
  }

  lemma RingArm(g: seq<Meta>, l: ElemId, i2: ElemId, i4: ElemId, arm: Body)
    requires Folded2(g, l, i2, i4) && IsArm(Made(g), [i4, i2, 6], arm) && SameHead(g, 2, i2) && SameHead(g, 4, i4)
    ensures RunsRound(g, arm, [i4, i2, 6]) && arm.elems == {i4, i2, 6}
  {
    var d, run := Made(g), [i4, i2, 6];
    assert d[i4].value.entry == 4 && d[i2].value.entry == 2 && d[6].value.entry == 6;
    assert i4 in run && i2 in run && 6 in run;
    forall k | k in arm.remap
      ensures (k == 4 && arm.remap[k] == i4) || (k == 2 && arm.remap[k] == i2)
    {
    }
    assert arm.remap == map[4 := i4, 2 := i2];
    assert RingLink(g, arm, run, 0) && RingLink(g, arm, run, 1) && RingLink(g, arm, run, 2);
  }

  lemma ThirdShape(g: seq<Meta>, l: ElemId, i2: ElemId, i4: ElemId, f: IfShape)
    requires Folded2(g, l, i2, i4) && ChosenIf(Without4(l, i2, i4), Made(g), f)
    ensures f == IfShape(1, [i4, i2, 6], None, i4, false)
  {
    var f0 := ThirdSite(g, l, i2, i4);
    Picked(Without4(l, i2, i4), Made(g), f, f0);
    RingChain(Without4(l, i2, i4), Made(g), i2, i4, f.thenBlks);
  }

  lemma LeftOver(l: ElemId, i2: ElemId, i4: ElemId, id: ElemId)
    requires 7 < l < i2 < i4
    ensures {l, 1, 6, i2, i4} - {1, i4, i2, 6} + {id} == {l, id}
  {
  }

  lemma ThirdFold(g: seq<Meta>, l: ElemId, i2: ElemId, i4: ElemId, b: Body, id: ElemId) returns (arm: Body)
    requires Folded2(g, l, i2, i4) && IfStep(g, Without4(l, i2, i4), b, id)
    ensures Known(g, id) && g[id].made == IfElem(IfShape(1, [i4, i2, 6], None, i4, false), arm, None)
    ensures IsArm(Made(g), [i4, i2, 6], arm) && b.elems == {l, 1, 6, i2, i4} - {1, i4, i2, 6} + {id}
  {
    var f, a, other :| IfStepOf(g, Without4(l, i2, i4), b, id, f, a, other);
    ThirdShape(g, l, i2, i4, f);
    arm := a;
    RingOut(f, arm, i2, i4);
    assert Within(g, id, 1);
  }

  lemma RingOut(f: IfShape, arm: Body, i2: ElemId, i4: ElemId)
    requires f.entry == 1 && forall x :: x in arm.elems <==> x in [i4, i2, 6]
    ensures IfOut(f, arm, None) == {1, i4, i2, 6}
  {
  }

  lemma ThirdIf(g: seq<Meta>, l: ElemId, i2: ElemId, i4: ElemId, b: Body, id: ElemId)
    requires Folded2(g, l, i2, i4) && IfStep(g, Without4(l, i2, i4), b, id) && SameHead(g, 2, i2) && SameHead(g, 4, i4)
    ensures b.elems == {l, id} && Known(g, id) && g[id].made.detail.If? && g[id].made.detail.elseBody.None?
    ensures RunsRound(g, g[id].made.detail.thenBody, [i4, i2, 6]) && g[id].made.detail.thenBody.elems == {i4, i2, 6}
  {
    var arm := ThirdFold(g, l, i2, i4, b, id);
    LeftOver(l, i2, i4, id);
    RingArm(g, l, i2, i4, arm);
  }

  // ------------------------------------------------------------------------
  // The whole program.

  lemma NoFourth(g: seq<Meta>, l: ElemId, x: ElemId, b: Body, b': Body, id: ElemId)
    requires b.elems == {l, x} && IsLoop(g, l) && Known(g, x) && g[x].made.detail.If?
    ensures !IfStep(g, b, b', id)
  {
    forall h
      ensures Graph(b, {}, Made(g)).Ok() && !Header(b, Made(g), h)
    {
    }
  }

  /** The folds that were made: three ifs, and no more. */
  lemma IfsEnd(g: seq<Meta>, l: ElemId, bs: seq<Body>, ids: seq<ElemId>)
    requires TheBlocks(Made(g)) && Sound(Program(), g) && IsLoop(g, l)
    requires IfsTo(g, bs, ids) && bs[0] == Around(l) && NoIfs(LastOf(bs), Made(g))
    ensures |ids| == 3 && Folded2(g, l, ids[0], ids[1]) && LastOf(bs).elems == {l, ids[2]}
    ensures Known(g, ids[2]) && g[ids[2]].made.detail.If? && g[ids[2]].made.detail.elseBody.None?
    ensures RunsRound(g, g[ids[2]].made.detail.thenBody, [ids[1], ids[0], 6]) && g[ids[2]].made.detail.thenBody.elems == {ids[1], ids[0], 6}
  {
    FirstSite(g, l);
    var f1 := SiteOver(Around(l), Made(g), 2, 3, 6);
    assert ids != [] && IfAt(g, bs, ids, 0);
    FirstIf(g, l, bs[1], ids[0]);
    SecondSite(g, l, ids[0]);
    var f2 := SiteOver(Without2(l, ids[0]), Made(g), 4, 5, ids[0]);
    assert |ids| > 1 && IfAt(g, bs, ids, 1);
    SecondIf(g, l, ids[0], bs[2], ids[1]);
    var f3 := ThirdSite(g, l, ids[0], ids[1]);
    assert |ids| > 2 && IfAt(g, bs, ids, 2);
    assert KnownSound(Program(), g, ids[0]) && KnownSound(Program(), g, ids[1]);
    ThirdIf(g, l, ids[0], ids[1], bs[3], ids[2]);
    if |ids| > 3 {
      assert IfAt(g, bs, ids, 3);
      NoFourth(g, l, ids[2], bs[3], bs[4], ids[3]);
    }
  }

  /** What the folded program is: the loop and the if, whose arm was a ring. */
  ghost predicate FoldedTo(g: seq<Meta>, r: Body, i2: ElemId, i4: ElemId, x: ElemId) {
    && x in r.elems && Known(g, x) && g[x].made.detail.If? && g[x].made.detail.elseBody.None?
    && IsIfOver(g, i2, 2, 3, 6) && IsIfOver(g, i4, 4, 5, i2) && 7 < i2 < i4
    && RunsRound(g, g[x].made.detail.thenBody, [i4, i2, 6]) && g[x].made.detail.thenBody.elems == {i4, i2, 6}
  }

  lemma FoldsToRing(g: seq<Meta>, r: Body) returns (i2: ElemId, i4: ElemId, x: ElemId)
    requires TheBlocks(Made(g)) && Sound(Program(), g) && Folds(g, Flat(), {}, r)
    ensures FoldedTo(g, r, i2, i4, x)
  {
    var h :| FoldsVia(g, Flat(), {}, r, h);
    LoopsEnd(g, h.loops, h.loopIds);
    IfsEnd(g, h.loopIds[0], h.ifs, h.ifIds);
    i2, i4, x := h.ifIds[0], h.ifIds[1], h.ifIds[2];
  }

  // ------------------------------------------------------------------------
  // In the loop that the ring becomes, the if at 4 is left for 2 by that name, and goes on at the if over it.

  ghost function RingBody(i2: ElemId, i4: ElemId): Body {
    NewBody(i4).(elems := {i4, i2, 6})
  }

  lemma OffersLeft(p: Parent, x: ElemId)
    requires p.Parent? && p.body.LookupFromId(x) == Some(x) && x in p.remain
    ensures p.ElemAvail(x) == Some(x)
  {
    assert p.remain != {};
  }

  lemma NotOffered(g: seq<Meta>, i2: ElemId, i4: ElemId)
    requires IsIfOver(g, i2, 2, 3, 6) && IsIfOver(g, i4, 4, 5, i2) && 7 < i2 < i4 && TheBlocks(Made(g))
    ensures !Meets(g, Parent(RingBody(i2, i4), {i2, 6}, NoParent), i4)
  {
    var p, arm := Parent(RingBody(i2, i4), {i2, 6}, NoParent), Body(5, {5}, map[], []);
    assert RunLink(g, arm, [5], 2, 0);
    assert RunsTo(g, arm, [5], 2);
    OffersLeft(p, i2);
    assert p.body.LookupFromId(2).None? && p.ElemAvail(2) == p.next.ElemAvail(2);
  }

  lemma WalkFails(g: seq<Meta>, i2: ElemId, i4: ElemId)
    requires IsIfOver(g, i2, 2, 3, 6) && IsIfOver(g, i4, 4, 5, i2) && 7 < i2 < i4 && TheBlocks(Made(g))
    ensures !WalkMeets(g, RingBody(i2, i4), {i4, i2, 6}, Some(i4))
  {
    NotOffered(g, i2, i4);
    assert ComesNext({i4, i2, 6}, Some(i4), i4);
    assert {i4, i2, 6} - {i4} == {i2, 6};
  }

  lemma RingUnknown(g: seq<Meta>, i2: ElemId, i4: ElemId)
    requires IsIfOver(g, i2, 2, 3, 6) && IsIfOver(g, i4, 4, 5, i2) && 7 < i2 < i4 && TheBlocks(Made(g)) && SameHead(g, 2, i2)
    ensures !BodyKnown(g, RingBody(i2, i4))
  {
    var b, arm := RingBody(i2, i4), Body(5, {5}, map[], []);
    assert i2 in b.elems && SameHead(g, 2, i2) && b.Remap(2) != i2;
    assert !Names.Good(g, b, 2);
    assert g[5].made.exits[0] == 2 && arm.LookupFromId(2).None?;
    assert !Tied(g, b, 2, i2);
    assert !ArmTied(g, b, arm, i2);
    assert !JoinsKnown(g, b, i4);
  }

  lemma LoopFails(g: seq<Meta>, d: Arena, made: Body, i2: ElemId, i4: ElemId, arm: Body, loop: ElemId)
    requires IsIfOver(g, i2, 2, 3, 6) && IsIfOver(g, i4, 4, 5, i2) && 7 < i2 < i4 && TheBlocks(Made(g)) && SameHead(g, 2, i2)
    requires RunsRound(g, made, [i4, i2, 6]) && made.elems == {i4, i2, 6}
    requires RingLoop(g, made, [i4, i2, 6], loop) && FoldedBelow(g, d, loop)
    ensures !JoinsMeet(g, d, loop)
  {
    RingBodyStays(g, made, [i4, i2, 6], d[loop].value.detail.body);
    assert RingBody(i2, i4).LookupFromId(i4) == Some(i4);
    WalkFails(g, i2, i4);
    RingUnknown(g, i2, i4);
  }

  lemma RingFails(g: seq<Meta>, d: Arena, r: Body, i2: ElemId, i4: ElemId, x: ElemId)
    requires TheBlocks(Made(g)) && FoldedTo(g, r, i2, i4, x) && SameHead(g, 2, i2) && FoldedBelow(g, d, x)
    ensures !JoinsMeet(g, d, x)
  {
    var made, run, arm := g[x].made.detail.thenBody, [i4, i2, 6], d[x].value.detail.thenBody;
    var loop := RingFolds(g, made, run, arm);
    LoopFails(g, d, made, i2, i4, arm, loop);
    assert loop in arm.elems;
  }

  /** However its elements are numbered, in the folded program the arms of the if at 4 do not meet its join. */
  lemma ArmsDoNotMeet(s: FoldedGraph)
    requires Structured(Program(), s)
    ensures !MeetsJoins(s)
  {
    BlocksAreMade(s.g);
    AllAreLive();
    StructureIsSound(Program(), s);
    var i2, i4, x := FoldsToRing(s.g, s.body);
    assert KnownSound(Program(), s.g, i2);
    RingFails(s.g, s.d, s.body, i2, i4, x);
  }

  /** So this program, all of whose blocks are reachable, is not decompiled. */
  method BuildRing() returns (ok: bool, prog: seq<Stmt>)
    ensures !ok
  {
    ghost var s;
    ok, prog, s := Build(Program());
    ArmsDoNotMeet(s);
  }
}
