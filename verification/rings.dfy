/** What folding makes of an arm that is a ring: one loop of all its members, in which nothing more is folded. */
module Rings {
  import opened Wrappers
  import opened ControlFlow
  import opened Ownership
  import opened Dfs
  import opened Structure
  import opened Steps
  import opened LoopEntries
  import opened Arms

  function Next(run: seq<ElemId>, k: nat): ElemId
    requires k < |run|
  {
    run[if k + 1 < |run| then k + 1 else 0]
  }

  /** Paths from the entry follow the ring. */
  lemma {:induction false} PathFollowsRing(g: seq<Meta>, arm: Body, run: seq<ElemId>, p: seq<ElemId>, k: nat)
    requires RunsRound(g, arm, run) && Graph(arm, {}, Made(g)).SimplePath(p) && p[0] == arm.entry && k < |p|
    ensures k < |run| && p[k] == run[k]
  {
    if k > 0 {
      var gr := Graph(arm, {}, Made(g));
      PathFollowsRing(g, arm, run, p, k - 1);
      assert RingLink(g, arm, run, k - 1) && gr.Entered(p, k);
      var i :| 0 <= i < gr.Deg(p[k - 1]) && gr.Target(p[k - 1], i) == p[k];
      assert arm.LookupFromId(g[run[k - 1]].made.exits[0]) == Some(p[k]);
    }
  }

  lemma {:induction false} RingPath(g: seq<Meta>, arm: Body, run: seq<ElemId>, n: nat)
    requires RunsRound(g, arm, run) && Graph(arm, {}, Made(g)).Ok() && 0 < n <= |run|
    ensures Graph(arm, {}, Made(g)).SimplePath(run[..n])
  {
    var gr, p := Graph(arm, {}, Made(g)), run[..n];
    forall k | 0 <= k < n
      ensures Present(gr.data, p[k])
    {
      assert run[k] in run;
    }
    forall k | 0 < k < n
      ensures gr.Entered(p, k)
    {
      assert RingLink(g, arm, run, k - 1);
      assert gr.Target(p[k - 1], 0) == p[k];
    }
  }

  /** A path from the entry closes a cycle exactly by going all the way round. */
  lemma ClosesAtStart(g: seq<Meta>, arm: Body, run: seq<ElemId>, w: (seq<ElemId>, nat), t: ElemId)
    requires RunsRound(g, arm, run) && Closes(Graph(arm, {}, Made(g)), w, t) && w.0[0] == arm.entry
    ensures w.0 == run && t == run[0]
  {
    var gr, k := Graph(arm, {}, Made(g)), |w.0| - 1;
    forall j | 0 <= j <= k
      ensures j < |run| && w.0[j] == run[j]
    {
      PathFollowsRing(g, arm, run, w.0, j);
    }
    assert RingLink(g, arm, run, k);
    assert gr.Target(run[k], w.1) == Next(run, k);
    var j :| 0 <= j < |w.0| && w.0[j] == t;
    assert run[j] == Next(run, k);
  }

  lemma RingCloses(g: seq<Meta>, arm: Body, run: seq<ElemId>)
    requires RunsRound(g, arm, run) && Graph(arm, {}, Made(g)).Ok()
    ensures Closes(Graph(arm, {}, Made(g)), (run, 0), run[0])
  {
    RingPath(g, arm, run, |run|);
    assert run[..|run|] == run;
    assert RingLink(g, arm, run, |run| - 1);
  }

  /** The loop of all members of the ring, as it was made. */
  ghost predicate RingLoop(g: seq<Meta>, arm: Body, run: seq<ElemId>, id: ElemId) {
    && run != [] && Known(g, id) && g[id].made == LoopElem(run[0], g[id].made.exits, {run[|run| - 1]}, arm.elems)
    && (forall x :: x in arm.elems ==> Within(g, id, x))
    && (forall i :: 0 <= i < |g[id].made.exits| ==> LeavesRing(g, arm, g[id].made.exits[i], id))
  }

  /** A name by which a member leads on, though it is no member itself. */
  ghost predicate LeavesRing(g: seq<Meta>, arm: Body, t: ElemId, id: ElemId) {
    t < id && t !in arm.elems && exists x :: x in arm.elems && x < |g| && |g[x].made.exits| == 1 && g[x].made.exits[0] == t
  }

  /** The body holds just that loop. */
  ghost predicate OnlyLoop(g: seq<Meta>, arm: Body, run: seq<ElemId>, b: Body, id: ElemId) {
    && RunsRound(g, arm, run) && RingLoop(g, arm, run, id) && b == Fold(arm, run[0], arm.elems, id)
    && id !in arm.elems && b.elems == {id} && forall k :: k in arm.remap ==> arm.remap[k] < id
  }

  lemma OneExitEach(g: seq<Meta>, arm: Body, run: seq<ElemId>, x: ElemId)
    requires RunsRound(g, arm, run) && x in arm.elems
    ensures x < |g| && |g[x].made.exits| == 1
  {
    var k :| 0 <= k < |run| && run[k] == x;
    assert RingLink(g, arm, run, k);
  }

  lemma LoopHoldsRing(g: seq<Meta>, arm: Body, run: seq<ElemId>, done: set<(seq<ElemId>, nat)>, lp: LoopShape)
    requires RunsRound(g, arm, run) && Graph(arm, {}, Made(g)).Ok() && LoopFound(Graph(arm, {}, Made(g)), arm.entry, done, lp)
    ensures lp == LoopShape(run[0], {run[|run| - 1]}, arm.elems)
  {
    var gr, last := Graph(arm, {}, Made(g)), run[|run| - 1];
    var w :| w in done && Closes(gr, w, lp.entry);
    ClosesAtStart(g, arm, run, w, lp.entry);
    CapturedIsOpen(gr, arm.entry, done, lp);
    forall x | x in arm.elems
      ensures x in lp.elems
    {
      var k :| 0 <= k < |run| && run[k] == x;
      assert OnCycle(w.0, run[0], x);
      assert Captured(done, gr, run[0], x);
    }
    forall x
      ensures x in lp.backedges <==> x == last
    {
      assert x == last ==> Backedge(done, gr, run[0], x);
      if x in lp.backedges {
        var v :| v in done && Closes(gr, v, run[0]) && gr.Last(v.0) == x;
        ClosesAtStart(g, arm, run, v, run[0]);
      }
    }
  }

  lemma ShapeOfRing(g: seq<Meta>, arm: Body, run: seq<ElemId>, b: Body, id: ElemId)
    requires RunsRound(g, arm, run) && Stepped(g, {}, arm, b, id)
    ensures ShapeOf(g, id) == LoopShape(run[0], {run[|run| - 1]}, arm.elems)
  {
    var done := StepFacts(g, {}, arm, b, id);
    LoopHoldsRing(g, arm, run, done, ShapeOf(g, id));
  }

  lemma MadeOfRing(g: seq<Meta>, b: Body, b': Body, id: ElemId)
    requires Stepped(g, {}, b, b', id) && Members(g, id) == b.elems
    ensures Known(g, id) && g[id].made == LoopElem(g[id].entry, g[id].made.exits, g[id].made.detail.backedges, b.elems)
    ensures (forall x :: x in b.elems ==> Within(g, id, x)) && id !in b.elems
    ensures b' == Fold(b, g[id].entry, b.elems, id) && forall k :: k in b.remap ==> b.remap[k] < id
  {
    StepIs(g, {}, b, b', id);
    StepEnds(g, {}, b, b', id);
    assert Within(g, id, g[id].entry);
  }

  lemma ExitOfRing(g: seq<Meta>, arm: Body, run: seq<ElemId>, b: Body, id: ElemId, t: ElemId)
    requires RunsRound(g, arm, run) && Stepped(g, {}, arm, b, id) && Members(g, id) == arm.elems && t in g[id].made.exits
    ensures LeavesRing(g, arm, t, id)
  {
    var q, j := ThroughLoop(g, {}, arm, b, id, t);
    var x := q[|q| - 1];
    assert x in q && x in run;
    OneExitEach(g, arm, run, x);
  }

  lemma LoopOfRing(g: seq<Meta>, arm: Body, run: seq<ElemId>, b: Body, id: ElemId)
    requires RunsRound(g, arm, run) && Stepped(g, {}, arm, b, id)
    ensures OnlyLoop(g, arm, run, b, id)
  {
    ShapeOfRing(g, arm, run, b, id);
    MadeOfRing(g, arm, b, id);
    forall i | 0 <= i < |g[id].made.exits|
      ensures LeavesRing(g, arm, g[id].made.exits[i], id)
    {
      ExitOfRing(g, arm, run, b, id, g[id].made.exits[i]);
    }
  }

  // ------------------------------------------------------------------------
  // Nothing more is folded around that loop.

  lemma NoEdgeBack(g: seq<Meta>, arm: Body, run: seq<ElemId>, b: Body, id: ElemId, i: nat)
    requires OnlyLoop(g, arm, run, b, id) && i < |g[id].made.exits|
    ensures b.Remap(g[id].made.exits[i]) != id
  {
    assert LeavesRing(g, arm, g[id].made.exits[i], id);
    assert run[0] in run;
  }

  lemma NoSecondLoop(g: seq<Meta>, arm: Body, run: seq<ElemId>, b: Body, id: ElemId, b': Body, id': ElemId)
    requires OnlyLoop(g, arm, run, b, id)
    ensures !LoopStep(g, {}, b, b', id')
  {
    if LoopStep(g, {}, b, b', id') {
      var gr, e := Graph(b, {}, Made(g)), g[id'].made;
      var done :| LoopFound(gr, b.entry, done, LoopShape(e.entry, e.detail.backedges, e.detail.body.elems));
      var w :| w in done && Closes(gr, w, e.entry);
      OnlyLoopDoesNotClose(g, arm, run, b, id, w, e.entry);
    }
  }

  lemma OnlyLoopDoesNotClose(g: seq<Meta>, arm: Body, run: seq<ElemId>, b: Body, id: ElemId, w: (seq<ElemId>, nat), t: ElemId)
    requires OnlyLoop(g, arm, run, b, id) && Graph(b, {}, Made(g)).Step(w) && w.0[0] == run[0]
    ensures !Closes(Graph(b, {}, Made(g)), w, t)
  {
    var gr, p := Graph(b, {}, Made(g)), w.0;
    assert run[0] in run;
    forall k | 0 < k < |p|
      ensures p[k] == id
    {
      assert gr.Entered(p, k);
    }
    if |p| > 1 {
      NoEdgeBack(g, arm, run, b, id, w.1);
    }
  }

  lemma NoIfAround(g: seq<Meta>, b: Body, id: ElemId, b': Body, id': ElemId)
    requires b.elems == {id} && Known(g, id) && g[id].made.detail.Loop?
    ensures !IfStep(g, b, b', id')
  {
    forall x
      ensures Graph(b, {}, Made(g)).Ok() && !Header(b, Made(g), x)
    {
    }
  }

  lemma RingNotAcyclic(g: seq<Meta>, arm: Body, run: seq<ElemId>)
    requires RunsRound(g, arm, run)
    ensures !Acyclic(Graph(arm, {}, Made(g)), arm.entry)
  {
    if Graph(arm, {}, Made(g)).Ok() {
      RingCloses(g, arm, run);
    }
  }

  lemma OneLoopFolded(g: seq<Meta>, arm: Body, run: seq<ElemId>, bs: seq<Body>, ids: seq<ElemId>)
    requires RunsRound(g, arm, run) && LoopsTo(g, {}, bs, ids) && bs[0] == arm && ids != []
    ensures |ids| == 1 && OnlyLoop(g, arm, run, bs[1], ids[0])
  {
    assert LoopAt(g, {}, bs, ids, 0);
    OneLoop(g, {}, arm, bs[1], ids[0]);
    LoopOfRing(g, arm, run, bs[1], ids[0]);
    if |ids| > 1 {
      assert LoopAt(g, {}, bs, ids, 1);
      NoSecondLoop(g, arm, run, bs[1], ids[0], bs[2], ids[1]);
    }
  }

  lemma NoIfFolded(g: seq<Meta>, id: ElemId, bs: seq<Body>, ids: seq<ElemId>)
    requires IfsTo(g, bs, ids) && bs[0].elems == {id} && Known(g, id) && g[id].made.detail.Loop?
    ensures ids == []
  {
    if ids != [] {
      assert IfAt(g, bs, ids, 0);
      NoIfAround(g, bs[0], id, bs[1], ids[0]);
    }
  }

  /** An arm that is a ring folds into one loop. */
  lemma RingFolds(g: seq<Meta>, arm: Body, run: seq<ElemId>, r: Body) returns (id: ElemId)
    requires RunsRound(g, arm, run) && Folds(g, arm, {}, r)
    ensures OnlyLoop(g, arm, run, r, id)
  {
    var h :| FoldsVia(g, arm, {}, r, h);
    RingNotAcyclic(g, arm, run);
    OneLoopFolded(g, arm, run, h.loops, h.loopIds);
    id := h.loopIds[0];
    NoIfFolded(g, id, h.ifs, h.ifIds);
  }

  // ------------------------------------------------------------------------
  // Nothing is folded in it.

  /** Inside the loop the members know each other by their own names only. */
  lemma {:induction false} PathInside(g: seq<Meta>, arm: Body, run: seq<ElemId>, p: seq<ElemId>, k: nat)
    requires RunsRound(g, arm, run) && k < |p| && p[0] == run[0]
    requires Graph(NewBody(run[0]).(elems := arm.elems), {run[|run| - 1]}, Made(g)).SimplePath(p)
    ensures k < |run| && p[k] == run[k]
  {
    if k > 0 {
      var gr := Graph(NewBody(run[0]).(elems := arm.elems), {run[|run| - 1]}, Made(g));
      PathInside(g, arm, run, p, k - 1);
      assert RingLink(g, arm, run, k - 1) && gr.Entered(p, k);
      var i :| 0 <= i < gr.Deg(p[k - 1]) && gr.Target(p[k - 1], i) == p[k];
      assert arm.LookupFromId(g[run[k - 1]].made.exits[0]) == Some(p[k]);
    }
  }

  lemma InsideIsAcyclic(g: seq<Meta>, arm: Body, run: seq<ElemId>, w: (seq<ElemId>, nat), t: ElemId)
    requires RunsRound(g, arm, run) && w.0 != [] && w.0[0] == run[0]
    ensures !Closes(Graph(NewBody(run[0]).(elems := arm.elems), {run[|run| - 1]}, Made(g)), w, t)
  {
    var gr := Graph(NewBody(run[0]).(elems := arm.elems), {run[|run| - 1]}, Made(g));
    if gr.Step(w) && gr.Open(t) && gr.Target(gr.Last(w.0), w.1) == t {
      var k := |w.0| - 1;
      PathInside(g, arm, run, w.0, k);
      assert RingLink(g, arm, run, k);
      assert k > 0 ==> gr.Entered(w.0, k);
      assert arm.LookupFromId(g[run[k]].made.exits[0]) == Some(t);
      forall j | 0 <= j < |w.0|
        ensures w.0[j] != t
      {
        PathInside(g, arm, run, w.0, j);
      }
    }
  }

  lemma InsideNoLoop(g: seq<Meta>, arm: Body, run: seq<ElemId>, b': Body, id': ElemId)
    requires RunsRound(g, arm, run)
    ensures !LoopStep(g, {run[|run| - 1]}, NewBody(run[0]).(elems := arm.elems), b', id')
  {
    var b := NewBody(run[0]).(elems := arm.elems);
    if LoopStep(g, {run[|run| - 1]}, b, b', id') {
      var gr, e := Graph(b, {run[|run| - 1]}, Made(g)), g[id'].made;
      var done :| LoopFound(gr, b.entry, done, LoopShape(e.entry, e.detail.backedges, e.detail.body.elems));
      var w :| w in done && Closes(gr, w, e.entry);
      InsideIsAcyclic(g, arm, run, w, e.entry);
    }
  }

  lemma InsideNoIf(g: seq<Meta>, arm: Body, run: seq<ElemId>, b': Body, id': ElemId)
    requires RunsRound(g, arm, run)
    ensures !IfStep(g, NewBody(run[0]).(elems := arm.elems), b', id')
  {
    var b := NewBody(run[0]).(elems := arm.elems);
    if IfStep(g, b, b', id') {
      var f, a, o :| IfStepOf(g, b, b', id', f, a, o);
      OneExitEach(g, arm, run, f.entry);
    }
  }

  /** The body of the loop stays as it was made. */
  lemma RingBodyStays(g: seq<Meta>, arm: Body, run: seq<ElemId>, r: Body)
    requires RunsRound(g, arm, run) && Folds(g, NewBody(run[0]).(elems := arm.elems), {run[|run| - 1]}, r)
    ensures r == NewBody(run[0]).(elems := arm.elems)
  {
    var h :| FoldsVia(g, NewBody(run[0]).(elems := arm.elems), {run[|run| - 1]}, r, h);
    if h.loopIds != [] {
      assert LoopAt(g, {run[|run| - 1]}, h.loops, h.loopIds, 0);
      InsideNoLoop(g, arm, run, h.loops[1], h.loopIds[0]);
    }
    if h.ifIds != [] {
      assert IfAt(g, h.ifs, h.ifIds, 0);
      InsideNoIf(g, arm, run, h.ifs[1], h.ifIds[0]);
    }
  }
}
