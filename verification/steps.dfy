/** Folding as the source does it, step by step, told of the elements as they were made:
    which loop is folded next, which if, and when a body has nothing left to fold. */
module Steps {
  import opened Wrappers
  import opened ControlFlow
  import opened Ownership
  import opened Dfs
  import opened FirstCycle
  import opened Structure

  /** The elements as they were made. */
  ghost function Made(g: seq<Meta>): Arena {
    seq(|g|, i requires 0 <= i < |g| => if Known(g, i) then Some(g[i].made) else None)
  }

  // ------------------------------------------------------------------------
  // One fold.

  ghost predicate FirstLoop(gr: Graph, entry: ElemId, lp: LoopShape) {
    && gr.Ok() && gr.SimplePath([entry]) && FirstFrom(gr, [entry], 0) == Some(lp.entry)
    && exists done :: LoopFound(gr, entry, done, lp)
  }

  ghost predicate ChosenIf(body: Body, d: Arena, f: IfShape) {
    && Graph(body, {}, d).Ok() && IsIf(body, d, f)
    && forall f' :: IsIf(body, d, f') ==> !Preferred(f', f)
  }

  /** Everything known of the body is older than `id`. */
  ghost predicate Older(g: seq<Meta>, b: Body, id: ElemId) {
    && id < |g| && Named(g, b) && b.entry < id
    && (forall x :: x in b.elems ==> x < id)
    && (forall x, i :: x in b.elems && 0 <= i < |g[x].made.exits| ==> g[x].made.exits[i] < id)
    && (forall k :: k in b.remap ==> k < id && b.remap[k] < id)
  }

  ghost predicate Within(g: seq<Meta>, id: ElemId, x: ElemId) {
    Known(g, id) && Known(g, x) && (g[x].leaves < g[id].leaves || (g[x].leaves == g[id].leaves && g[id].loop && !g[x].loop))
  }

  ghost predicate AllWithin(g: seq<Meta>, id: ElemId, s: set<ElemId>) {
    forall x {:trigger Within(g, id, x)} :: x in s ==> Within(g, id, x)
  }

  /** The first loop that a search of `b` meets was folded into `id`, with all that lies on cycles through
      its entry, its backedges, and the elements it leads to as exits. */
  ghost predicate LoopStep(g: seq<Meta>, exclude: set<ElemId>, b: Body, b': Body, id: ElemId) {
    && Older(g, b, id) && g[id].made.detail.Loop? && (forall i :: 0 <= i < |g[b.entry].made.exits| ==> g[b.entry].made.exits[i] < id)
    && var e := g[id].made;
    var c := e.detail.body.elems;
    && e == LoopElem(e.entry, e.exits, e.detail.backedges, c)
    && FirstLoop(Graph(b, exclude, Made(g)), b.entry, LoopShape(e.entry, e.detail.backedges, c))
    && ExitsOfLoop(Made(g), e.entry, c, e.exits)
    && c <= b.elems && AllWithin(g, id, c) && b' == Fold(b, e.entry, c, id)
  }

  /** The preferred if of `b` was folded into `id`. */
  ghost predicate IfStepOf(g: seq<Meta>, b: Body, b': Body, id: ElemId, f: IfShape, arm: Body, other: Option<Body>) {
    && Older(g, b, id) && g[id].made == IfElem(f, arm, other)
    && ChosenIf(b, Made(g), f)
    && IsArm(Made(g), f.thenBlks, arm) && f.elseBlks.Some? == other.Some?
    && (other.Some? ==> IsArm(Made(g), f.elseBlks.value, other.value))
    && IfOut(f, arm, other) <= b.elems && AllWithin(g, id, IfOut(f, arm, other)) && b' == Fold(b, f.entry, IfOut(f, arm, other), id)
  }

  ghost predicate IfStep(g: seq<Meta>, b: Body, b': Body, id: ElemId) {
    exists f, arm, other :: IfStepOf(g, b, b', id, f, arm, other)
  }

  // ------------------------------------------------------------------------
  // Folding one body.

  /** What a body went through: after each loop that was folded, and after each if. */
  datatype History = History(loops: seq<Body>, loopIds: seq<ElemId>, ifs: seq<Body>, ifIds: seq<ElemId>)

  ghost predicate LoopAt(g: seq<Meta>, exclude: set<ElemId>, bs: seq<Body>, ids: seq<ElemId>, i: nat)
    requires i < |ids| && |bs| == |ids| + 1
  {
    LoopStep(g, exclude, bs[i], bs[i + 1], ids[i])
  }

  ghost predicate IfAt(g: seq<Meta>, bs: seq<Body>, ids: seq<ElemId>, i: nat)
    requires i < |ids| && |bs| == |ids| + 1
  {
    IfStep(g, bs[i], bs[i + 1], ids[i])
  }

  ghost predicate LoopsTo(g: seq<Meta>, exclude: set<ElemId>, bs: seq<Body>, ids: seq<ElemId>) {
    |bs| == |ids| + 1 && forall i {:trigger LoopAt(g, exclude, bs, ids, i)} :: 0 <= i < |ids| ==> LoopAt(g, exclude, bs, ids, i)
  }

  ghost predicate IfsTo(g: seq<Meta>, bs: seq<Body>, ids: seq<ElemId>) {
    |bs| == |ids| + 1 && forall i {:trigger IfAt(g, bs, ids, i)} :: 0 <= i < |ids| ==> IfAt(g, bs, ids, i)
  }

  function LastOf(bs: seq<Body>): Body
    requires bs != []
  {
    bs[|bs| - 1]
  }

  /** No simple path from the entry closes a cycle. */
  ghost predicate Acyclic(g: Graph, entry: ElemId) {
    g.Ok() && forall w, t :: g.Step(w) && w.0[0] == entry ==> !Closes(g, w, t)
  }

  /** Every way on from `first` is one from `entry`. */
  ghost predicate LeadsNoFurther(g: Graph, entry: ElemId, first: ElemId)
    requires Present(g.data, entry) && Present(g.data, first)
  {
    forall t {:trigger g.Edge(first, t)} :: g.Edge(first, t) && g.Open(t) ==> g.Edge(entry, t)
  }

  lemma FromEntry(g: Graph, entry: ElemId, p: seq<ElemId>)
    requires g.SimplePath(p) && Present(g.data, entry) && LeadsNoFurther(g, entry, p[0]) && entry !in p
    ensures |p| > 1 ==> g.SimplePath([entry] + p[1..])
  {
    if |p| > 1 {
      var q := [entry] + p[1..];
      forall k | 0 < k < |q|
        ensures g.Entered(q, k)
      {
        assert g.Entered(p, k);
      }
    }
  }

  /** The search from the entry block speaks for the element that the entry is looked up as if that leads no further
      than the block does: if it is the block, or a loop of that block alone. */
  lemma AcyclicFromLookup(g: Graph, entry: ElemId, first: ElemId)
    requires Acyclic(g, entry) && Present(g.data, entry) && Present(g.data, first) && LeadsNoFurther(g, entry, first)
    requires entry == first || entry !in g.body.elems
    ensures Acyclic(g, first)
  {
    forall w, t | g.Step(w) && w.0[0] == first
      ensures !Closes(g, w, t)
    {
      if entry != first && Closes(g, w, t) {
        CycleFromEntry(g, entry, first, w, t);
      }
    }
  }

  /** A cycle from there is one from the entry block. */
  lemma CycleFromEntry(g: Graph, entry: ElemId, first: ElemId, w: (seq<ElemId>, nat), t: ElemId)
    requires g.Ok() && Present(g.data, entry) && entry !in g.body.elems && entry != first
    requires Closes(g, w, t) && w.0[0] == first && LeadsNoFurther(g, entry, first)
    ensures !Acyclic(g, entry)
  {
    var p, i := w.0, w.1;
    assert entry !in p by {
      forall k | 0 < k < |p|
        ensures p[k] != entry
      {
        assert g.Entered(p, k);
      }
    }
    FromEntry(g, entry, p);
    if t != first {
      var q := [entry] + p[1..];
      assert t in q && g.Last(q) == g.Last(p) && q[0] == entry;
      assert Closes(g, (q, i), t);
    } else {
      BackToFirst(g, entry, p, i);
    }
  }

  lemma BackToFirst(g: Graph, entry: ElemId, p: seq<ElemId>, i: nat)
    requires g.Ok() && Present(g.data, entry) && g.SimplePath(p) && LeadsNoFurther(g, entry, p[0]) && entry !in g.body.elems && entry !in p
    requires i < g.Deg(g.Last(p)) && g.Target(g.Last(p), i) == p[0] && g.Open(p[0])
    ensures !Acyclic(g, entry)
  {
    FromEntry(g, entry, p);
    var q := [entry] + p[1..] + [p[0]];
    forall k | 0 < k < |q|
      ensures g.Entered(q, k)
    {
      if k + 1 < |q| {
        assert ([entry] + p[1..])[k] == p[k] && g.Entered([entry] + p[1..], k);
      } else {
        assert q[k - 1] == if |p| > 1 then g.Last(p) else entry;
        assert g.Edge(g.Last(p), p[0]);
      }
    }
    assert Distinct(q) && g.SimplePath(q) && q[0] == entry;
    var next := if |p| > 1 then p[1] else p[0];
    assert |p| > 1 ==> g.Entered(p, 1);
    var j :| 0 <= j < g.Deg(p[0]) && g.Target(p[0], j) == next;
    assert Closes(g, (q, j), next);
  }

  ghost predicate NoIfs(b: Body, d: Arena) {
    Graph(b, {}, d).Ok() && forall f :: !IsIf(b, d, f)
  }

  ghost predicate FoldsVia(g: seq<Meta>, b0: Body, exclude: set<ElemId>, r: Body, h: History) {
    && LoopsTo(g, exclude, h.loops, h.loopIds) && h.loops[0] == b0
    && Acyclic(Graph(LastOf(h.loops), exclude, Made(g)), b0.entry) && Known(g, b0.entry)
    && IfsTo(g, h.ifs, h.ifIds) && h.ifs[0] == LastOf(h.loops)
    && r == LastOf(h.ifs) && NoIfs(r, Made(g)) && Named(g, r)
  }

  /** First all loops of the body were folded, one by one, except through the edges out of `exclude`;
      then its ifs, one by one, until no member headed one. */
  ghost predicate Folds(g: seq<Meta>, b0: Body, exclude: set<ElemId>, r: Body) {
    exists h :: FoldsVia(g, b0, exclude, r, h)
  }

  // ------------------------------------------------------------------------
  // Folding everything below.

  /** Every body below the element was folded from what it was when it was made. */
  ghost predicate FoldedBelow(g: seq<Meta>, d: Arena, id: ElemId)
    decreases if id < |g| then g[id].leaves else {}, id < |g| && g[id].loop
  {
    Known(g, id) && Present(d, id) && SameKind(g[id].made, d[id].value) &&
    match d[id].value.detail
    case BasicBlock(_) => true
    case Loop(backedges, body) =>
      Folds(g, g[id].made.detail.body, backedges, body) && forall x :: x in body.elems ==> Within(g, id, x) && FoldedBelow(g, d, x)
    case If(_, arm, other) =>
      && other.Some? == g[id].made.detail.elseBody.Some?
      && Folds(g, g[id].made.detail.thenBody, {}, arm) && (forall x :: x in arm.elems ==> Within(g, id, x) && FoldedBelow(g, d, x))
      && (other.Some? ==> Folds(g, g[id].made.detail.elseBody.value, {}, other.value)
                          && forall x :: x in other.value.elems ==> Within(g, id, x) && FoldedBelow(g, d, x))
  }

  ghost predicate AllBelow(g: seq<Meta>, d: Arena, s: set<ElemId>) {
    forall x {:trigger FoldedBelow(g, d, x)} :: x in s ==> FoldedBelow(g, d, x)
  }

  // ------------------------------------------------------------------------
  // Arenas in which the elements lead where they led.

  ghost predicate KeptAt(d: Arena, d': Arena, id: ElemId) {
    Present(d, id) ==> Present(d', id) && SameKind(d[id].value, d'[id].value)
  }

  ghost predicate SameEdges(d: Arena, d': Arena) {
    forall id: nat :: KeptAt(d, d', id)
  }

  lemma MadeBefore(cfg: Cfg, g: seq<Meta>, d: Arena)
    requires ArenaOk(cfg, g, d)
    ensures SameEdges(d, Made(g))
  {
    forall id: nat
      ensures KeptAt(d, Made(g), id)
    {
      if Present(d, id) {
        assert ElemAt(cfg, g, d, id);
      }
    }
  }

  lemma MadeGrows(g: seq<Meta>, g': seq<Meta>)
    requires g <= g'
    ensures SameEdges(Made(g), Made(g')) && Made(g) <= Made(g')
  {
    forall id: nat
      ensures KeptAt(Made(g), Made(g'), id)
    {
    }
  }

  ghost predicate Matches(g: Graph, g': Graph) {
    g.Ok() && g'.body == g.body && g'.exclude == g.exclude && SameEdges(g.data, g'.data)
  }

  lemma MatchesOk(g: Graph, g': Graph)
    requires Matches(g, g')
    ensures g'.Ok()
  {
    forall x | x in g.body.elems
      ensures Present(g'.data, x)
    {
      assert KeptAt(g.data, g'.data, x);
    }
  }

  lemma EdgeSame(g: Graph, g': Graph, x: ElemId, t: ElemId)
    requires Matches(g, g') && Present(g.data, x)
    ensures Present(g'.data, x) && g'.Deg(x) == g.Deg(x) && (forall i :: 0 <= i < g.Deg(x) ==> g'.Target(x, i) == g.Target(x, i))
    ensures g.Edge(x, t) <==> g'.Edge(x, t)
  {
    assert KeptAt(g.data, g'.data, x);
    if g.Edge(x, t) {
      var i :| 0 <= i < g.Deg(x) && g.Target(x, i) == t;
      assert g'.Target(x, i) == t;
    }
  }

  /** The same paths, with the same ends. */
  lemma PathSame(g: Graph, g': Graph, p: seq<ElemId>)
    requires Matches(g, g') && p != [] && Present(g.data, p[0])
    ensures g.SimplePath(p) <==> g'.SimplePath(p)
    ensures g.SimplePath(p) ==> forall k :: 0 <= k < |p| ==> Present(g.data, p[k])
  {
    MatchesOk(g, g');
    if g.SimplePath(p) {
      forall k | 0 <= k < |p|
        ensures Present(g'.data, p[k])
      {
        EdgeSame(g, g', p[k], 0);
      }
      forall k | 0 < k < |p|
        ensures g'.Entered(p, k)
      {
        assert g.Entered(p, k);
        EdgeSame(g, g', p[k - 1], p[k]);
      }
    }
    if g'.SimplePath(p) {
      forall k | 0 <= k < |p|
        ensures Present(g.data, p[k])
      {
        if k > 0 {
          assert g'.Entered(p, k);
        }
      }
      forall k | 0 < k < |p|
        ensures g.Entered(p, k)
      {
        assert g'.Entered(p, k);
        EdgeSame(g, g', p[k - 1], p[k]);
      }
    }
  }

  lemma StepSame(g: Graph, g': Graph, w: (seq<ElemId>, nat))
    requires Matches(g, g') && w.0 != [] && Present(g.data, w.0[0])
    ensures g.Step(w) <==> g'.Step(w)
    ensures g.Step(w) ==> g.Target(g.Last(w.0), w.1) == g'.Target(g'.Last(w.0), w.1)
  {
    PathSame(g, g', w.0);
    if g.SimplePath(w.0) {
      EdgeSame(g, g', g.Last(w.0), 0);
    }
  }

  lemma AllStepsSame(g: Graph, g': Graph, entry: ElemId, done: set<(seq<ElemId>, nat)>)
    requires Matches(g, g') && Present(g.data, entry) && AllSteps(g, entry, done)
    ensures AllSteps(g', entry, done)
  {
    forall w | w in done
      ensures g'.Step(w)
    {
      StepSame(g, g', w);
    }
    forall p: seq<ElemId>, i: nat | g'.Step((p, i)) && [entry] <= p
      ensures (p, i) in done
    {
      StepSame(g, g', (p, i));
    }
  }

  lemma ClosesSame(g: Graph, g': Graph, w: (seq<ElemId>, nat), t: ElemId)
    requires Matches(g, g') && w.0 != [] && Present(g.data, w.0[0])
    ensures Closes(g, w, t) <==> Closes(g', w, t)
  {
    StepSame(g, g', w);
  }

  lemma LoopFoundSame(g: Graph, g': Graph, entry: ElemId, done: set<(seq<ElemId>, nat)>, lp: LoopShape)
    requires Matches(g, g') && Present(g.data, entry) && LoopFound(g, entry, done, lp)
    ensures LoopFound(g', entry, done, lp)
  {
    AllStepsSame(g, g', entry, done);
    forall w, t | w in done
      ensures Closes(g, w, t) <==> Closes(g', w, t)
    {
      ClosesSame(g, g', w, t);
    }
    var w :| w in done && Closes(g, w, lp.entry);
    assert w in done && Closes(g', w, lp.entry);
    forall x
      ensures Backedge(done, g, lp.entry, x) <==> Backedge(done, g', lp.entry, x)
      ensures Captured(done, g, lp.entry, x) <==> Captured(done, g', lp.entry, x)
    {
      if Backedge(done, g', lp.entry, x) {
        var v :| v in done && Closes(g', v, lp.entry) && g'.Last(v.0) == x;
        assert v in done && Closes(g, v, lp.entry) && g.Last(v.0) == x;
      }
      if Backedge(done, g, lp.entry, x) {
        var v :| v in done && Closes(g, v, lp.entry) && g.Last(v.0) == x;
        assert v in done && Closes(g', v, lp.entry) && g'.Last(v.0) == x;
      }
    }
  }

  lemma {:induction false} FirstFromSame(g: Graph, g': Graph, p: seq<ElemId>, i: nat)
    requires Matches(g, g') && g'.Ok() && g.SimplePath(p) && g'.SimplePath(p) && i <= g.Deg(g.Last(p)) && i <= g'.Deg(g.Last(p))
    ensures FirstFrom(g, p, i) == FirstFrom(g', p, i)
    decreases Unvisited(g, p), g.Deg(g.Last(p)) - i
  {
    EdgeSame(g, g', g.Last(p), 0);
    if i < g.Deg(g.Last(p)) {
      var t := g.Target(g.Last(p), i);
      FirstFromSame(g, g', p, i + 1);
      if g.Open(t) && t !in p {
        PathGrows(g, p, i);
        PathGrows(g', p, i);
        assert t in Unvisited(g, p) && t !in Unvisited(g, p + [t]);
        FirstFromSame(g, g', p + [t], 0);
      }
    }
  }

  lemma FirstLoopSame(g: Graph, g': Graph, entry: ElemId, lp: LoopShape)
    requires Matches(g, g') && FirstLoop(g, entry, lp)
    ensures FirstLoop(g', entry, lp)
  {
    MatchesOk(g, g');
    PathSame(g, g', [entry]);
    FirstFromSame(g, g', [entry], 0);
    var done :| LoopFound(g, entry, done, lp);
    LoopFoundSame(g, g', entry, done, lp);
  }

  lemma ExitsSame(d: Arena, d': Arena, entry: ElemId, c: set<ElemId>, exits: seq<ElemId>)
    requires SameEdges(d, d') && ExitsOfLoop(d, entry, c, exits) && entry in c && forall x :: x in c ==> Present(d, x)
    ensures ExitsOfLoop(d', entry, c, exits)
  {
    var g, g' := Graph(NewBody(entry).(elems := c), {}, d), Graph(NewBody(entry).(elems := c), {}, d');
    var inner :| AllSteps(g, entry, inner) && forall t :: t in exits <==> EscapeOf(g, inner, t);
    AllStepsSame(g, g', entry, inner);
    forall t
      ensures EscapeOf(g, inner, t) <==> EscapeOf(g', inner, t)
    {
      if EscapeOf(g, inner, t) {
        var w :| w in inner && Escapes(g, w, t);
        StepSame(g, g', w);
        assert w in inner && Escapes(g', w, t);
      }
      if EscapeOf(g', inner, t) {
        var w :| w in inner && Escapes(g', w, t);
        StepSame(g, g', w);
        assert w in inner && Escapes(g, w, t);
      }
    }
  }

  lemma AcyclicSame(g: Graph, g': Graph, entry: ElemId)
    requires Matches(g, g') && Present(g.data, entry) && Acyclic(g, entry)
    ensures Acyclic(g', entry)
  {
    MatchesOk(g, g');
    forall w, t | g'.Step(w) && w.0[0] == entry
      ensures !Closes(g', w, t)
    {
      StepSame(g, g', w);
      ClosesSame(g, g', w, t);
    }
  }

  lemma ChainSame(b: Body, d: Arena, d': Arena, src: ElemId, dst: ElemId, c: seq<ElemId>)
    requires Graph(b, {}, d).Ok() && Graph(b, {}, d').Ok() && SameEdges(d, d')
    ensures Chain(b, d, src, dst, c) <==> Chain(b, d', src, dst, c)
  {
    forall k | 0 <= k < |c|
      ensures Link(b, d, c, dst, k) <==> Link(b, d', c, dst, k)
    {
      assert KeptAt(d, d', c[k]);
    }
  }

  lemma IsIfSame(b: Body, d: Arena, d': Arena, f: IfShape)
    requires Graph(b, {}, d).Ok() && Graph(b, {}, d').Ok() && SameEdges(d, d')
    ensures IsIf(b, d, f) <==> IsIf(b, d', f)
  {
    assert KeptAt(d, d', f.entry);
    if Header(b, d, f.entry) {
      var a, c := Way(b, d, f.entry, 0), Way(b, d, f.entry, 1);
      ChainSame(b, d, d', a, f.join, f.thenBlks);
      ChainSame(b, d, d', c, f.join, f.thenBlks);
      if f.elseBlks.Some? {
        ChainSame(b, d, d', c, f.join, f.elseBlks.value);
      }
    }
  }

  lemma ChosenSame(b: Body, d: Arena, d': Arena, f: IfShape)
    requires ChosenIf(b, d, f) && SameEdges(d, d')
    ensures ChosenIf(b, d', f)
  {
    MatchesOk(Graph(b, {}, d), Graph(b, {}, d'));
    IsIfSame(b, d, d', f);
    forall f' | IsIf(b, d', f')
      ensures !Preferred(f', f)
    {
      IsIfSame(b, d, d', f');
    }
  }

  lemma NoIfsSame(b: Body, d: Arena, d': Arena)
    requires NoIfs(b, d) && SameEdges(d, d')
    ensures NoIfs(b, d')
  {
    MatchesOk(Graph(b, {}, d), Graph(b, {}, d'));
    forall f
      ensures !IsIf(b, d', f)
    {
      IsIfSame(b, d, d', f);
    }
  }

  lemma IsArmSame(d: Arena, d': Arena, blks: seq<ElemId>, arm: Body)
    requires IsArm(d, blks, arm) && SameEdges(d, d') && forall x :: x in blks ==> Present(d, x)
    ensures IsArm(d', blks, arm)
  {
    forall x | x in blks
      ensures Present(d', x) && d'[x].value.entry == d[x].value.entry
    {
      assert KeptAt(d, d', x);
    }
  }

  lemma SameEdgesTrans(d: Arena, d1: Arena, d2: Arena)
    requires SameEdges(d, d1) && SameEdges(d1, d2)
    ensures SameEdges(d, d2)
  {
    forall id: nat
      ensures KeptAt(d, d2, id)
    {
      assert KeptAt(d, d1, id) && KeptAt(d1, d2, id);
    }
  }

  // ------------------------------------------------------------------------
  // Making more elements does not undo what was folded.

  lemma NamedKeeps(g: seq<Meta>, g': seq<Meta>, b: Body)
    requires Named(g, b) && g <= g'
    ensures Named(g', b)
  {
    forall k | k in b.remap
      ensures Renames(g', k, b.remap[k])
    {
      assert Renames(g, k, b.remap[k]);
    }
  }

  lemma WithinKeeps(g: seq<Meta>, g': seq<Meta>, id: ElemId, s: set<ElemId>)
    requires AllWithin(g, id, s) && g <= g'
    ensures AllWithin(g', id, s)
  {
    forall x | x in s
      ensures Within(g', id, x)
    {
      assert Within(g, id, x);
    }
  }

  lemma OlderKeeps(g: seq<Meta>, g': seq<Meta>, b: Body, id: ElemId)
    requires Older(g, b, id) && g <= g'
    ensures Older(g', b, id)
  {
    NamedKeeps(g, g', b);
  }

  lemma LoopStepKeeps(g: seq<Meta>, g': seq<Meta>, exclude: set<ElemId>, b: Body, b': Body, id: ElemId)
    requires LoopStep(g, exclude, b, b', id) && g <= g'
    ensures LoopStep(g', exclude, b, b', id)
  {
    var e := g[id].made;
    var lp := LoopShape(e.entry, e.detail.backedges, e.detail.body.elems);
    OlderKeeps(g, g', b, id);
    MadeGrows(g, g');
    FirstLoopSame(Graph(b, exclude, Made(g)), Graph(b, exclude, Made(g')), b.entry, lp);
    var done :| LoopFound(Graph(b, exclude, Made(g)), b.entry, done, lp);
    CapturedIsOpen(Graph(b, exclude, Made(g)), b.entry, done, lp);
    ExitsSame(Made(g), Made(g'), e.entry, lp.elems, e.exits);
    WithinKeeps(g, g', id, lp.elems);
  }

  lemma ArmBlocksPresent(b: Body, d: Arena, f: IfShape, arm: Body, other: Option<Body>)
    requires Graph(b, {}, d).Ok() && IsArm(d, f.thenBlks, arm) && f.elseBlks.Some? == other.Some?
    requires (other.Some? ==> IsArm(d, f.elseBlks.value, other.value)) && IfOut(f, arm, other) <= b.elems
    ensures forall x :: x in f.thenBlks ==> Present(d, x)
    ensures f.elseBlks.Some? ==> forall x :: x in f.elseBlks.value ==> Present(d, x)
  {
    forall x | x in f.thenBlks
      ensures Present(d, x)
    {
      assert x in arm.elems;
    }
    if f.elseBlks.Some? {
      forall x | x in f.elseBlks.value
        ensures Present(d, x)
      {
        assert x in other.value.elems;
      }
    }
  }

  lemma IfStepKeeps(g: seq<Meta>, g': seq<Meta>, b: Body, b': Body, id: ElemId)
    requires IfStep(g, b, b', id) && g <= g'
    ensures IfStep(g', b, b', id)
  {
    var f, arm, other :| IfStepOf(g, b, b', id, f, arm, other);
    OlderKeeps(g, g', b, id);
    WithinKeeps(g, g', id, IfOut(f, arm, other));
    MadeGrows(g, g');
    ChosenSame(b, Made(g), Made(g'), f);
    ArmBlocksPresent(b, Made(g), f, arm, other);
    IsArmSame(Made(g), Made(g'), f.thenBlks, arm);
    if other.Some? {
      IsArmSame(Made(g), Made(g'), f.elseBlks.value, other.value);
    }
    assert IfStepOf(g', b, b', id, f, arm, other);
  }

  lemma LoopsToKeeps(g: seq<Meta>, g': seq<Meta>, exclude: set<ElemId>, bs: seq<Body>, ids: seq<ElemId>)
    requires LoopsTo(g, exclude, bs, ids) && g <= g'
    ensures LoopsTo(g', exclude, bs, ids)
  {
    forall i | 0 <= i < |ids|
      ensures LoopAt(g', exclude, bs, ids, i)
    {
      assert LoopAt(g, exclude, bs, ids, i);
      LoopStepKeeps(g, g', exclude, bs[i], bs[i + 1], ids[i]);
    }
  }

  lemma IfsToKeeps(g: seq<Meta>, g': seq<Meta>, bs: seq<Body>, ids: seq<ElemId>)
    requires IfsTo(g, bs, ids) && g <= g'
    ensures IfsTo(g', bs, ids)
  {
    forall i | 0 <= i < |ids|
      ensures IfAt(g', bs, ids, i)
    {
      assert IfAt(g, bs, ids, i);
      IfStepKeeps(g, g', bs[i], bs[i + 1], ids[i]);
    }
  }

  lemma FoldsKeeps(g: seq<Meta>, g': seq<Meta>, b0: Body, exclude: set<ElemId>, r: Body)
    requires Folds(g, b0, exclude, r) && g <= g'
    ensures Folds(g', b0, exclude, r)
  {
    var h :| FoldsVia(g, b0, exclude, r, h);
    LoopsToKeeps(g, g', exclude, h.loops, h.loopIds);
    IfsToKeeps(g, g', h.ifs, h.ifIds);
    MadeGrows(g, g');
    AcyclicSame(Graph(LastOf(h.loops), exclude, Made(g)), Graph(LastOf(h.loops), exclude, Made(g')), b0.entry);
    NoIfsSame(r, Made(g), Made(g'));
    NamedKeeps(g, g', r);
    assert FoldsVia(g', b0, exclude, r, h);
  }

  ghost predicate SameBelow(g: seq<Meta>, d: Arena, d': Arena, id: ElemId) {
    id < |g| && |g| == |d| <= |d'| && forall y: nat :: InScope(g, g[id].leaves, g[id].loop, y) ==> d'[y] == d[y]
  }

  lemma MembersBelowKeep(g: seq<Meta>, d: Arena, g': seq<Meta>, d': Arena, id: ElemId, s: set<ElemId>)
    requires forall x :: x in s ==> Within(g, id, x) && FoldedBelow(g, d, x)
    requires g <= g' && SameBelow(g, d, d', id)
    ensures forall x :: x in s ==> Within(g', id, x) && FoldedBelow(g', d', x)
    decreases g[id].leaves, g[id].loop, 0
  {
    forall x | x in s
      ensures FoldedBelow(g', d', x)
    {
      forall y: nat | InScope(g, g[x].leaves, g[x].loop, y)
        ensures InScope(g, g[id].leaves, g[id].loop, y)
      {
      }
      BelowKeeps(g, d, g', d', x);
    }
  }

  lemma {:induction false} BelowKeeps(g: seq<Meta>, d: Arena, g': seq<Meta>, d': Arena, id: ElemId)
    requires FoldedBelow(g, d, id) && g <= g' && SameBelow(g, d, d', id)
    ensures FoldedBelow(g', d', id)
    decreases g[id].leaves, g[id].loop, 1
  {
    assert InScope(g, g[id].leaves, g[id].loop, id);
    match d[id].value.detail {
      case BasicBlock(_) =>
      case Loop(backedges, body) =>
        FoldsKeeps(g, g', g[id].made.detail.body, backedges, body);
        MembersBelowKeep(g, d, g', d', id, body.elems);
      case If(_, arm, other) =>
        FoldsKeeps(g, g', g[id].made.detail.thenBody, {}, arm);
        MembersBelowKeep(g, d, g', d', id, arm.elems);
        if other.Some? {
          FoldsKeeps(g, g', g[id].made.detail.elseBody.value, {}, other.value);
          MembersBelowKeep(g, d, g', d', id, other.value.elems);
        }
    }
  }

  /** The members of a body of `id` lie below `id`. */
  lemma MembersWithin(g: seq<Meta>, id: ElemId, b: Body, full: bool)
    requires Known(g, id) && BodyOk(g, b, full) && LeavesOf(g, b.elems) <= g[id].leaves
    requires LeavesOf(g, b.elems) == g[id].leaves ==> g[id].loop && !full
    ensures forall x :: x in b.elems ==> Within(g, id, x)
  {
    forall x | x in b.elems
      ensures Within(g, id, x)
    {
      MemberLeaves(g, b.elems, x);
      assert InScope(g, LeavesOf(g, b.elems), full, x);
    }
  }

  /** Putting an element back does not touch what lies below it. */
  lemma ReleasedAbove(g: seq<Meta>, d: Arena, d': Arena, id: ElemId, s: set<ElemId>)
    requires |d| == |g| == |d'| && id < |d| && d[id].None? && d' == d[id := d'[id]]
    requires (forall x :: x in s ==> Within(g, id, x)) && AllBelow(g, d, s)
    ensures AllBelow(g, d', s)
  {
    forall x | x in s
      ensures FoldedBelow(g, d', x)
    {
      assert FoldedBelow(g, d, x);
      BelowKeeps(g, d, g, d', x);
    }
  }

  // ------------------------------------------------------------------------
  // The steps that folding takes.

  lemma ExitsOlder(cfg: Cfg, g: seq<Meta>, d: Arena, g': seq<Meta>, x: ElemId)
    requires ArenaOk(cfg, g, d) && Present(d, x) && g <= g'
    ensures x < |g| && forall i :: 0 <= i < |g'[x].made.exits| ==> g'[x].made.exits[i] < |g|
  {
    assert ElemAt(cfg, g, d, x);
  }

  lemma MemberIsOlder(cfg: Cfg, g: seq<Meta>, d: Arena, body: Body, full: bool, g': seq<Meta>)
    requires ArenaOk(cfg, g, d) && BodyOk(g, body, full) && Graph(body, {}, d).Ok() && g <= g' && |g| < |g'|
    ensures Older(g', body, |g|)
  {
    StaysNamed(g, g', body, full);
    forall x | x in body.elems
      ensures x < |g| && forall i :: 0 <= i < |g'[x].made.exits| ==> g'[x].made.exits[i] < |g|
    {
      ExitsOlder(cfg, g, d, g', x);
    }
    NamesOlder(g, body, full);
  }

  lemma StaysNamed(g: seq<Meta>, g': seq<Meta>, body: Body, full: bool)
    requires BodyOk(g, body, full) && g <= g'
    ensures Named(g', body)
  {
    BodyOkPrefix(g, g', body, full);
  }

  lemma NamesOlder(g: seq<Meta>, body: Body, full: bool)
    requires BodyOk(g, body, full)
    ensures body.entry < |g| && forall k :: k in body.remap ==> k < |g| && body.remap[k] < |g|
  {
  }

  lemma MatchesMade(cfg: Cfg, g: seq<Meta>, d: Arena, g': seq<Meta>, body: Body, exclude: set<ElemId>)
    requires ArenaOk(cfg, g, d) && g <= g' && Graph(body, exclude, d).Ok()
    ensures Matches(Graph(body, exclude, d), Graph(body, exclude, Made(g')))
  {
    MadeBefore(cfg, g, d);
    MadeGrows(g, g');
    SameEdgesTrans(d, Made(g), Made(g'));
  }

  lemma NewLoopFirst(cfg: Cfg, g: seq<Meta>, d: Arena, body: Body, exclude: set<ElemId>, lp: LoopShape, g': seq<Meta>)
    requires ArenaOk(cfg, g, d) && g <= g' && FirstLoop(Graph(body, exclude, d), body.entry, lp)
    ensures FirstLoop(Graph(body, exclude, Made(g')), body.entry, lp) && lp.elems <= body.elems
  {
    var gr := Graph(body, exclude, d);
    MatchesMade(cfg, g, d, g', body, exclude);
    FirstLoopSame(gr, Graph(body, exclude, Made(g')), body.entry, lp);
    var done :| LoopFound(gr, body.entry, done, lp);
    CapturedIsOpen(gr, body.entry, done, lp);
  }

  lemma NewLoopExits(cfg: Cfg, g: seq<Meta>, d: Arena, body: Body, exclude: set<ElemId>, lp: LoopShape, exits: seq<ElemId>, g': seq<Meta>)
    requires ArenaOk(cfg, g, d) && g <= g' && FirstLoop(Graph(body, exclude, d), body.entry, lp) && ExitsOfLoop(d, lp.entry, lp.elems, exits)
    ensures ExitsOfLoop(Made(g'), lp.entry, lp.elems, exits)
  {
    var gr := Graph(body, exclude, d);
    MatchesMade(cfg, g, d, g', body, exclude);
    var done :| LoopFound(gr, body.entry, done, lp);
    CapturedIsOpen(gr, body.entry, done, lp);
    ExitsSame(d, Made(g'), lp.entry, lp.elems, exits);
  }

  lemma NewLoopStep(cfg: Cfg, g: seq<Meta>, d: Arena, body: Body, full: bool, exclude: set<ElemId>,
                    lp: LoopShape, exits: seq<ElemId>, g': seq<Meta>, d': Arena, r: Body)
    requires ArenaOk(cfg, g, d) && BodyOk(g, body, full) && FirstLoop(Graph(body, exclude, d), body.entry, lp)
    requires LoopFolded(g, d, body, lp, exits, g', d', r) && AllWithin(g', |g|, lp.elems)
    ensures LoopStep(g', exclude, body, r, |g|)
  {
    MemberIsOlder(cfg, g, d, body, full, g');
    ExitsOlder(cfg, g, d, g', body.entry);
    NewLoopFirst(cfg, g, d, body, exclude, lp, g');
    NewLoopExits(cfg, g, d, body, exclude, lp, exits, g');
  }

  lemma NewIfStep(cfg: Cfg, g: seq<Meta>, d: Arena, body: Body, full: bool, f: IfShape, arm: Body, other: Option<Body>,
                  g': seq<Meta>, d': Arena, r: Body)
    requires ArenaOk(cfg, g, d) && BodyOk(g, body, full) && ChosenIf(body, d, f)
    requires IfFolded(g, d, body, f, arm, other, g', d', r) && AllWithin(g', |g|, IfOut(f, arm, other))
    ensures IfStep(g', body, r, |g|)
  {
    MemberIsOlder(cfg, g, d, body, full, g');
    MatchesMade(cfg, g, d, g', body, {});
    ChosenSame(body, d, Made(g'), f);
    ArmBlocksPresent(body, d, f, arm, other);
    IsArmSame(d, Made(g'), f.thenBlks, arm);
    if other.Some? {
      IsArmSame(d, Made(g'), f.elseBlks.value, other.value);
    }
    assert IfStepOf(g', body, r, |g|, f, arm, other);
  }

  lemma OneMoreLoop(g: seq<Meta>, g': seq<Meta>, exclude: set<ElemId>, bs: seq<Body>, ids: seq<ElemId>, b: Body, id: ElemId)
    requires LoopsTo(g, exclude, bs, ids) && g <= g' && LoopsTo(g', exclude, [LastOf(bs), b], [id])
    ensures LoopsTo(g', exclude, bs + [b], ids + [id])
  {
    LoopsToKeeps(g, g', exclude, bs, ids);
    assert LoopAt(g', exclude, [LastOf(bs), b], [id], 0);
    forall i | 0 <= i < |ids| + 1
      ensures LoopAt(g', exclude, bs + [b], ids + [id], i)
    {
      assert i < |ids| ==> LoopAt(g', exclude, bs, ids, i);
    }
  }

  lemma OneMoreIf(g: seq<Meta>, g': seq<Meta>, bs: seq<Body>, ids: seq<ElemId>, b: Body, id: ElemId)
    requires IfsTo(g, bs, ids) && g <= g' && IfsTo(g', [LastOf(bs), b], [id])
    ensures IfsTo(g', bs + [b], ids + [id])
  {
    IfsToKeeps(g, g', bs, ids);
    assert IfAt(g', [LastOf(bs), b], [id], 0);
    forall i | 0 <= i < |ids| + 1
      ensures IfAt(g', bs + [b], ids + [id], i)
    {
      assert i < |ids| ==> IfAt(g', bs, ids, i);
    }
  }

  lemma NoneLeft(g: Graph, entry: ElemId, done: set<(seq<ElemId>, nat)>)
    requires g.Ok() && AllSteps(g, entry, done) && Gathered(g, done, None)
    ensures Acyclic(g, entry)
  {
    forall w, t | g.Step(w) && w.0[0] == entry
      ensures !Closes(g, w, t)
    {
      assert [entry] <= w.0 && (w.0, w.1) == w;
      assert w in done;
    }
  }

  /** Loops folded as far as they go, then ifs: the body is folded. */
  lemma FoldedInOrder(g1: seq<Meta>, g2: seq<Meta>, b0: Body, exclude: set<ElemId>, r: Body, h: History)
    requires LoopsTo(g1, exclude, h.loops, h.loopIds) && h.loops[0] == b0 && g1 <= g2 && Known(g1, b0.entry)
    requires LastOf(h.loops).entry == b0.entry && Acyclic(Graph(LastOf(h.loops), exclude, Made(g1)), b0.entry)
    requires IfsTo(g2, h.ifs, h.ifIds) && h.ifs[0] == LastOf(h.loops) && LastOf(h.ifs) == r && NoIfs(r, Made(g2)) && Named(g2, r)
    ensures Folds(g2, b0, exclude, r)
  {
    LoopsToKeeps(g1, g2, exclude, h.loops, h.loopIds);
    MadeGrows(g1, g2);
    AcyclicSame(Graph(LastOf(h.loops), exclude, Made(g1)), Graph(LastOf(h.loops), exclude, Made(g2)), b0.entry);
    assert FoldsVia(g2, b0, exclude, r, h);
  }

  lemma OneLoop(g: seq<Meta>, exclude: set<ElemId>, b: Body, b': Body, id: ElemId)
    requires LoopStep(g, exclude, b, b', id)
    ensures LoopsTo(g, exclude, [b, b'], [id])
  {
  }

  lemma OneIf(g: seq<Meta>, b: Body, b': Body, id: ElemId)
    requires IfStep(g, b, b', id)
    ensures IfsTo(g, [b, b'], [id])
  {
  }

  lemma NewLoop(cfg: Cfg, g: seq<Meta>, d: Arena, body: Body, full: bool, exclude: set<ElemId>,
                lp: LoopShape, exits: seq<ElemId>, g': seq<Meta>, d': Arena, r: Body)
    requires ArenaOk(cfg, g, d) && BodyOk(g, body, full) && FirstLoop(Graph(body, exclude, d), body.entry, lp)
    requires LoopFolded(g, d, body, lp, exits, g', d', r) && AllWithin(g', |g|, lp.elems)
    ensures LoopsTo(g', exclude, [body, r], [|g|])
  {
    NewLoopStep(cfg, g, d, body, full, exclude, lp, exits, g', d', r);
    OneLoop(g', exclude, body, r, |g|);
  }

  lemma NewIf(cfg: Cfg, g: seq<Meta>, d: Arena, body: Body, full: bool, f: IfShape, arm: Body, other: Option<Body>,
              g': seq<Meta>, d': Arena, r: Body)
    requires ArenaOk(cfg, g, d) && BodyOk(g, body, full) && ChosenIf(body, d, f)
    requires IfFolded(g, d, body, f, arm, other, g', d', r) && AllWithin(g', |g|, IfOut(f, arm, other))
    ensures IfsTo(g', [body, r], [|g|])
  {
    NewIfStep(cfg, g, d, body, full, f, arm, other, g', d', r);
    OneIf(g', body, r, |g|);
  }
}
