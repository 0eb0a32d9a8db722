/** A loop that was just folded is never the entry of the next one: what closes a cycle at it
    would have been folded with it. So names of folded loops stay good. */
module LoopEntries {
  import opened ControlFlow
  import opened Ownership
  import opened Dfs
  import opened Structure
  import opened Steps

  ghost function GraphOf(g: seq<Meta>, exclude: set<ElemId>, b: Body): Graph {
    Graph(b, exclude, Made(g))
  }

  function Members(g: seq<Meta>, id: ElemId): set<ElemId>
    requires id < |g| && g[id].made.detail.Loop?
  {
    g[id].made.detail.body.elems
  }

  ghost function ShapeOf(g: seq<Meta>, id: ElemId): LoopShape
    requires id < |g| && g[id].made.detail.Loop?
  {
    LoopShape(g[id].entry, g[id].made.detail.backedges, Members(g, id))
  }

  /** One loop fold, closed: `StepIs` opens it. */
  ghost predicate Stepped(g: seq<Meta>, exclude: set<ElemId>, b: Body, b': Body, id: ElemId) {
    LoopsTo(g, exclude, [b, b'], [id]) && id < |g| && g[id].made.detail.Loop?
  }

  lemma StepIs(g: seq<Meta>, exclude: set<ElemId>, b: Body, b': Body, id: ElemId)
    requires Stepped(g, exclude, b, b', id)
    ensures LoopStep(g, exclude, b, b', id)
  {
    assert LoopAt(g, exclude, [b, b'], [id], 0);
  }

  /** The search of `b` for loops and what it found. */
  lemma StepFacts(g: seq<Meta>, exclude: set<ElemId>, b: Body, b': Body, id: ElemId) returns (done: set<(seq<ElemId>, nat)>)
    requires Stepped(g, exclude, b, b', id)
    ensures LoopFound(GraphOf(g, exclude, b), b.entry, done, ShapeOf(g, id))
    ensures g[id].entry in Members(g, id) && forall x :: x in Members(g, id) ==> GraphOf(g, exclude, b).Open(x)
    ensures b.entry in Members(g, id) ==> b.entry == g[id].entry
    ensures GraphOf(g, exclude, b).Ok() && Present(Made(g), b.entry) && b.entry < id && g[id].entry < id && id !in b.elems
    ensures id in b'.elems && b'.entry == b.entry
  {
    StepIs(g, exclude, b, b', id);
    var gr, lp := GraphOf(g, exclude, b), ShapeOf(g, id);
    done :| LoopFound(gr, b.entry, done, lp);
    CapturedIsOpen(gr, b.entry, done, lp);
    if b.entry in lp.elems {
      assert Captured(done, gr, lp.entry, b.entry);
      var w :| w in done && Closes(gr, w, lp.entry) && OnCycle(w.0, lp.entry, b.entry);
      var i, j :| 0 <= i <= j < |w.0| && w.0[i] == lp.entry && w.0[j] == b.entry;
      assert w.0[0] == b.entry;
    }
  }

  /** The same without the search. */
  lemma StepEnds(g: seq<Meta>, exclude: set<ElemId>, b: Body, b': Body, id: ElemId)
    requires Stepped(g, exclude, b, b', id)
    ensures g[id].entry in Members(g, id) && forall x :: x in Members(g, id) ==> GraphOf(g, exclude, b).Open(x)
    ensures b.entry in Members(g, id) ==> b.entry == g[id].entry
    ensures GraphOf(g, exclude, b).Ok() && Present(Made(g), b.entry) && b.entry < id && g[id].entry < id && id !in b.elems
    ensures id in b'.elems && b'.entry == b.entry
  {
    var done := StepFacts(g, exclude, b, b', id);
  }

  /** Anything that closes at the loop's entry, from there on, was folded into it. */
  lemma ClosingIsCaptured(g: seq<Meta>, exclude: set<ElemId>, b: Body, b': Body, id: ElemId, w: (seq<ElemId>, nat), x: ElemId)
    requires Stepped(g, exclude, b, b', id) && Closes(GraphOf(g, exclude, b), w, g[id].entry) && w.0[0] == b.entry
    requires OnCycle(w.0, g[id].entry, x)
    ensures x in Members(g, id)
  {
    StepIs(g, exclude, b, b', id);
    var done := StepFacts(g, exclude, b, b', id);
    assert [b.entry] <= w.0 && w == (w.0, w.1);
    assert w in done;
    assert Captured(done, GraphOf(g, exclude, b), g[id].entry, x);
  }

  /** Where a name leads before and after the fold. */
  lemma TargetBefore(g: seq<Meta>, exclude: set<ElemId>, b: Body, b': Body, id: ElemId, raw: ElemId)
    requires Stepped(g, exclude, b, b', id) && raw < id
    ensures b'.Remap(raw) == (if raw == g[id].entry then id else b.Remap(raw))
    ensures b.Remap(raw) != id && b.Remap(g[id].entry) == g[id].entry
  {
    StepIs(g, exclude, b, b', id);
    StepEnds(g, exclude, b, b', id);
  }

  /** The loop's members on their own, by their own names. */
  ghost function InnerGraph(g: seq<Meta>, id: ElemId): Graph
    requires id < |g| && g[id].made.detail.Loop?
  {
    Graph(NewBody(g[id].entry).(elems := Members(g, id)), {}, Made(g))
  }

  lemma InnerPath(g: seq<Meta>, exclude: set<ElemId>, b: Body, b': Body, id: ElemId, q: seq<ElemId>)
    requires Stepped(g, exclude, b, b', id) && InnerGraph(g, id).SimplePath(q) && q[0] == g[id].entry
    ensures GraphOf(g, exclude, b).SimplePath(q) && forall x :: x in q ==> x in Members(g, id)
  {
    StepIs(g, exclude, b, b', id);
    var inner, gr := InnerGraph(g, id), GraphOf(g, exclude, b);
    StepEnds(g, exclude, b, b', id);
    forall k | 0 <= k < |q|
      ensures q[k] in Members(g, id)
    {
      if k > 0 {
        assert inner.Entered(q, k);
      }
    }
    forall k | 0 < k < |q|
      ensures gr.Entered(q, k)
    {
      assert inner.Entered(q, k);
      var i :| 0 <= i < inner.Deg(q[k - 1]) && inner.Target(q[k - 1], i) == q[k];
      assert gr.Target(q[k - 1], i) == q[k];
    }
  }

  lemma InnerExit(g: seq<Meta>, exclude: set<ElemId>, b: Body, b': Body, id: ElemId, raw: ElemId) returns (w: (seq<ElemId>, nat))
    requires Stepped(g, exclude, b, b', id) && raw in g[id].made.exits
    ensures Escapes(InnerGraph(g, id), w, raw) && w.0[0] == g[id].entry
  {
    StepIs(g, exclude, b, b', id);
    var inner := InnerGraph(g, id);
    var steps :| AllSteps(inner, g[id].entry, steps) && forall s :: s in g[id].made.exits <==> EscapeOf(inner, steps, s);
    assert EscapeOf(inner, steps, raw);
    w :| w in steps && Escapes(inner, w, raw);
  }

  lemma EscapeMeans(g: seq<Meta>, id: ElemId, w: (seq<ElemId>, nat), raw: ElemId)
    requires id < |g| && g[id].made.detail.Loop? && Escapes(InnerGraph(g, id), w, raw)
    ensures w.0 != [] && w.0[|w.0| - 1] < |g| && w.1 < |g[w.0[|w.0| - 1]].made.exits|
    ensures g[w.0[|w.0| - 1]].made.exits[w.1] == raw && raw !in Members(g, id)
  {
  }

  /** A way through the loop, from its entry to an exit. */
  lemma ThroughLoop(g: seq<Meta>, exclude: set<ElemId>, b: Body, b': Body, id: ElemId, raw: ElemId) returns (q: seq<ElemId>, j: nat)
    requires Stepped(g, exclude, b, b', id) && raw in g[id].made.exits
    ensures GraphOf(g, exclude, b).SimplePath(q) && q[0] == g[id].entry && (forall x :: x in q ==> x in Members(g, id))
    ensures q[|q| - 1] < |g| && j < |g[q[|q| - 1]].made.exits| && g[q[|q| - 1]].made.exits[j] == raw
    ensures raw < id && raw !in Members(g, id)
  {
    var w := InnerExit(g, exclude, b, b', id, raw);
    q, j := w.0, w.1;
    EscapeMeans(g, id, w, raw);
    InnerPath(g, exclude, b, b', id, q);
    ExitIsOlder(g, exclude, b, b', id, q[|q| - 1], j);
  }

  lemma ExitIsOlder(g: seq<Meta>, exclude: set<ElemId>, b: Body, b': Body, id: ElemId, x: ElemId, j: nat)
    requires Stepped(g, exclude, b, b', id) && x in Members(g, id) && x < |g| && j < |g[x].made.exits|
    ensures g[x].made.exits[j] < id
  {
    StepIs(g, exclude, b, b', id);
  }

  /** A path around the new element is a path before the fold. */
  lemma PathBefore(g: seq<Meta>, exclude: set<ElemId>, b: Body, b': Body, id: ElemId, p: seq<ElemId>)
    requires Stepped(g, exclude, b, b', id) && GraphOf(g, exclude, b').SimplePath(p) && p[0] == b.entry && id !in p
    ensures GraphOf(g, exclude, b).SimplePath(p) && forall k :: 0 < k < |p| ==> p[k] !in Members(g, id)
  {
    var gr, gr' := GraphOf(g, exclude, b), GraphOf(g, exclude, b');
    forall k | 0 < k < |p|
      ensures gr.Entered(p, k) && p[k] !in Members(g, id)
    {
      assert gr'.Entered(p, k) && p[k] in p && p[k - 1] in p;
      EdgeBefore(g, exclude, b, b', id, p, k);
    }
  }

  ghost predicate ExitsBelow(g: seq<Meta>, x: ElemId, id: ElemId) {
    x < |g| && forall i :: 0 <= i < |g[x].made.exits| ==> g[x].made.exits[i] < id
  }

  lemma ExitsAreOlder(g: seq<Meta>, exclude: set<ElemId>, b: Body, b': Body, id: ElemId, x: ElemId)
    requires Stepped(g, exclude, b, b', id) && (x in b'.elems || x == b.entry)
    ensures ExitsBelow(g, x, id)
  {
    StepIs(g, exclude, b, b', id);
    if x == id {
      forall i | 0 <= i < |g[id].made.exits|
        ensures g[id].made.exits[i] < id
      {
        var q, j := ThroughLoop(g, exclude, b, b', id, g[id].made.exits[i]);
      }
    }
  }

  lemma EdgeBefore(g: seq<Meta>, exclude: set<ElemId>, b: Body, b': Body, id: ElemId, p: seq<ElemId>, k: nat)
    requires Stepped(g, exclude, b, b', id) && GraphOf(g, exclude, b').SimplePath(p) && p[0] == b.entry
    requires 0 < k < |p| && p[k] != id && p[k - 1] != id
    ensures GraphOf(g, exclude, b).Open(p[k]) && Present(Made(g), p[k - 1]) && GraphOf(g, exclude, b).Edge(p[k - 1], p[k])
    ensures p[k] !in Members(g, id)
  {
    StepIs(g, exclude, b, b', id);
    var gr, gr' := GraphOf(g, exclude, b), GraphOf(g, exclude, b');
    assert gr'.Entered(p, k);
    if k > 1 {
      assert gr'.Entered(p, k - 1);
    }
    ExitsAreOlder(g, exclude, b, b', id, p[k - 1]);
    var i :| 0 <= i < gr'.Deg(p[k - 1]) && gr'.Target(p[k - 1], i) == p[k];
    TargetBefore(g, exclude, b, b', id, g[p[k - 1]].made.exits[i]);
    assert gr.Target(p[k - 1], i) == p[k];
  }

  /** When the loop starts where the body does, the new element comes right after the entry, if at all. */
  lemma EntryFirst(g: seq<Meta>, exclude: set<ElemId>, b: Body, b': Body, id: ElemId, p: seq<ElemId>)
    requires Stepped(g, exclude, b, b', id) && GraphOf(g, exclude, b').SimplePath(p) && p[0] == b.entry
    requires p[|p| - 1] == id && b.entry in Members(g, id)
    ensures |p| == 2
  {
    var gr, gr' := GraphOf(g, exclude, b), GraphOf(g, exclude, b');
    StepEnds(g, exclude, b, b', id);
    var n := |p| - 1;
    assert n > 0;
    if n > 1 {
      var front := p[..n];
      FrontBefore(g, exclude, b, b', id, p);
      var i := EdgeInto(g, exclude, b, b', id, p);
      assert gr.Last(front) == p[n - 1];
      assert Closes(gr, (front, i), g[id].entry);
      assert front[0] == g[id].entry && front[1] == p[1];
      ClosingIsCaptured(g, exclude, b, b', id, (front, i), p[1]);
    }
  }

  lemma FrontBefore(g: seq<Meta>, exclude: set<ElemId>, b: Body, b': Body, id: ElemId, p: seq<ElemId>)
    requires Stepped(g, exclude, b, b', id) && GraphOf(g, exclude, b').SimplePath(p) && p[0] == b.entry && p[|p| - 1] == id
    ensures |p| > 1 && GraphOf(g, exclude, b).SimplePath(p[..|p| - 1]) && forall k :: 0 < k < |p| - 1 ==> p[k] !in Members(g, id)
  {
    var front := p[..|p| - 1];
    StepEnds(g, exclude, b, b', id);
    PathPrefix(GraphOf(g, exclude, b'), p, |p| - 1);
    PathBefore(g, exclude, b, b', id, front);
    forall k | 0 < k < |p| - 1
      ensures p[k] !in Members(g, id)
    {
      assert p[k] == front[k];
    }
  }

  /** The edge into the new element led to the loop's entry. */
  lemma EdgeInto(g: seq<Meta>, exclude: set<ElemId>, b: Body, b': Body, id: ElemId, p: seq<ElemId>) returns (i: nat)
    requires Stepped(g, exclude, b, b', id) && GraphOf(g, exclude, b').SimplePath(p) && p[0] == b.entry && p[|p| - 1] == id
    ensures |p| > 1 && p[|p| - 2] < |g| && i < |g[p[|p| - 2]].made.exits| && g[p[|p| - 2]].made.exits[i] == g[id].entry
    ensures Present(Made(g), p[|p| - 2]) && GraphOf(g, exclude, b).Target(p[|p| - 2], i) == g[id].entry
  {
    var gr' := GraphOf(g, exclude, b');
    var n := |p| - 1;
    StepEnds(g, exclude, b, b', id);
    assert gr'.Entered(p, n);
    if n > 1 {
      assert gr'.Entered(p, n - 1);
    }
    i :| 0 <= i < gr'.Deg(p[n - 1]) && gr'.Target(p[n - 1], i) == id;
    ExitsAreOlder(g, exclude, b, b', id, p[n - 1]);
    TargetBefore(g, exclude, b, b', id, g[p[n - 1]].made.exits[i]);
  }

  lemma JoinPaths(gr: Graph, p: seq<ElemId>, q: seq<ElemId>)
    requires gr.SimplePath(p) && gr.SimplePath(q) && (forall x :: x in p ==> x !in q)
    requires gr.Open(q[0]) && gr.Edge(gr.Last(p), q[0])
    ensures gr.SimplePath(p + q)
  {
    var r := p + q;
    forall i, j | 0 <= i < j < |r|
      ensures r[i] != r[j]
    {
      if i < |p| <= j {
        assert r[i] in p && r[j] in q;
      }
    }
    forall k | 0 < k < |r|
      ensures gr.Entered(r, k)
    {
      if k < |p| {
        assert gr.Entered(p, k);
      } else if k == |p| {
        assert r[k - 1] == gr.Last(p);
      } else {
        assert gr.Entered(q, k - |p|);
      }
    }
  }

  /** A path to the new element, and out of it by the name `raw`, before the fold. */
  lemma Detour(g: seq<Meta>, exclude: set<ElemId>, b: Body, b': Body, id: ElemId, p: seq<ElemId>, raw: ElemId)
    returns (r: seq<ElemId>, j: nat)
    requires Stepped(g, exclude, b, b', id) && GraphOf(g, exclude, b').SimplePath(p) && p[0] == b.entry
    requires p[|p| - 1] == id && raw in g[id].made.exits
    ensures GraphOf(g, exclude, b).SimplePath(r) && r[0] == b.entry
    ensures r[|r| - 1] < |g| && j < |g[r[|r| - 1]].made.exits| && g[r[|r| - 1]].made.exits[j] == raw
    ensures g[id].entry in r && (forall x :: x in r ==> x in p || x in Members(g, id)) && (forall x :: x in p && x != id ==> x in r)
  {
    var gr := GraphOf(g, exclude, b);
    StepEnds(g, exclude, b, b', id);
    var q;
    q, j := ThroughLoop(g, exclude, b, b', id, raw);
    var front := p[..|p| - 1];
    assert p == front + [id];
    if b.entry in Members(g, id) {
      EntryFirst(g, exclude, b, b', id, p);
      r := q;
    } else {
      FrontBefore(g, exclude, b, b', id, p);
      var i := EdgeInto(g, exclude, b, b', id, p);
      assert gr.Last(front) == p[|p| - 2] && gr.Edge(gr.Last(front), q[0]);
      forall x | x in front
        ensures x !in q
      {
        var k :| 0 <= k < |front| && front[k] == x;
        assert k > 0 ==> p[k] !in Members(g, id);
      }
      JoinPaths(gr, front, q);
      r := front + q;
    }
  }

  lemma DropFront(gr: Graph, p: seq<ElemId>, m: nat)
    requires gr.SimplePath(p) && m + 1 < |p|
    ensures gr.SimplePath(p[m + 1..]) && gr.SimplePath(p[..m + 1]) && gr.Open(p[m + 1]) && gr.Edge(p[m], p[m + 1])
    ensures Disjoint(p[..m + 1], p[m + 1..])
  {
    var s := p[m + 1..];
    PathPrefix(gr, p, m + 1);
    assert gr.Entered(p, m + 1);
    forall k | 0 < k < |s|
      ensures gr.Entered(s, k)
    {
      assert gr.Entered(p, m + 1 + k);
    }
  }

  /** The part of a path behind the new element is a path before the fold. */
  lemma SuffixBefore(g: seq<Meta>, exclude: set<ElemId>, b: Body, b': Body, id: ElemId, p: seq<ElemId>, m: nat)
    requires Stepped(g, exclude, b, b', id) && GraphOf(g, exclude, b').SimplePath(p) && p[0] == b.entry
    requires m + 1 < |p| && p[m] == id
    ensures GraphOf(g, exclude, b).SimplePath(p[m + 1..]) && forall x :: x in p[m + 1..] ==> x !in Members(g, id)
    ensures GraphOf(g, exclude, b).Open(p[m + 1])
  {
    var gr, gr' := GraphOf(g, exclude, b), GraphOf(g, exclude, b');
    var s := p[m + 1..];
    forall k | m < k < |p|
      ensures p[k] != id && gr.Open(p[k]) && p[k] !in Members(g, id)
    {
      assert gr'.Entered(p, k);
      StepIs(g, exclude, b, b', id);
    }
    forall k | 0 < k < |s|
      ensures gr.Entered(s, k)
    {
      EdgeBefore(g, exclude, b, b', id, p, m + 1 + k);
    }
  }

  /** Exit `i` at the end of `r` goes by the name `raw`. */
  ghost predicate EndsBy(g: seq<Meta>, r: seq<ElemId>, i: nat, raw: ElemId) {
    r != [] && r[|r| - 1] < |g| && Known(g, r[|r| - 1]) && i < |g[r[|r| - 1]].made.exits| && g[r[|r| - 1]].made.exits[i] == raw
  }

  /** Before the fold there was a path over the same nodes, but for the new element, that ended by the same name.
      Where the new element was, it went through the loop's entry. */
  lemma Lift(g: seq<Meta>, exclude: set<ElemId>, b: Body, b': Body, id: ElemId, p: seq<ElemId>, i: nat, raw: ElemId)
    returns (r: seq<ElemId>, j: nat)
    requires Stepped(g, exclude, b, b', id) && GraphOf(g, exclude, b').SimplePath(p) && p[0] == b.entry && EndsBy(g, p, i, raw)
    ensures GraphOf(g, exclude, b).SimplePath(r) && r[0] == b.entry && EndsBy(g, r, j, raw)
    ensures (forall x :: x in p && x != id ==> x in r) && raw < id
    ensures id in p ==> g[id].entry in r && (p[|p| - 1] != id ==> OnCycle(r, g[id].entry, p[|p| - 1]) && p[|p| - 1] !in Members(g, id))
    ensures p[|p| - 1] == id ==> raw != g[id].entry
  {
    var gr := GraphOf(g, exclude, b);
    StepEnds(g, exclude, b, b', id);
    LastIsOlder(g, exclude, b, b', id, p);
    if id !in p {
      PathBefore(g, exclude, b, b', id, p);
      r, j := p, i;
    } else {
      var m :| 0 <= m < |p| && p[m] == id;
      if m + 1 == |p| {
        r, j := Detour(g, exclude, b, b', id, p, raw);
        var q, k := ThroughLoop(g, exclude, b, b', id, raw);
      } else {
        r, j := LiftBeyond(g, exclude, b, b', id, p, m, i, raw);
      }
    }
  }

  lemma LastIsOlder(g: seq<Meta>, exclude: set<ElemId>, b: Body, b': Body, id: ElemId, p: seq<ElemId>)
    requires Stepped(g, exclude, b, b', id) && GraphOf(g, exclude, b').SimplePath(p) && p[0] == b.entry
    ensures ExitsBelow(g, p[|p| - 1], id)
  {
    if |p| > 1 {
      assert GraphOf(g, exclude, b').Entered(p, |p| - 1);
    }
    ExitsAreOlder(g, exclude, b, b', id, p[|p| - 1]);
  }

  lemma LiftBeyond(g: seq<Meta>, exclude: set<ElemId>, b: Body, b': Body, id: ElemId, p: seq<ElemId>, m: nat, i: nat, raw: ElemId)
    returns (r: seq<ElemId>, j: nat)
    requires Stepped(g, exclude, b, b', id) && GraphOf(g, exclude, b').SimplePath(p) && p[0] == b.entry && EndsBy(g, p, i, raw)
    requires m + 1 < |p| && p[m] == id
    ensures GraphOf(g, exclude, b).SimplePath(r) && r[0] == b.entry && EndsBy(g, r, j, raw)
    ensures (forall x :: x in p && x != id ==> x in r)
    ensures OnCycle(r, g[id].entry, p[|p| - 1]) && p[|p| - 1] !in Members(g, id)
  {
    var gr, gr' := GraphOf(g, exclude, b), GraphOf(g, exclude, b');
    var front, s := p[..m + 1], p[m + 1..];
    StepEnds(g, exclude, b, b', id);
    DropFront(gr', p, m);
    SuffixBefore(g, exclude, b, b', id, p, m);
    var e :| 0 <= e < gr'.Deg(id) && gr'.Target(id, e) == s[0];
    var out := g[id].made.exits[e];
    var q, k := Detour(g, exclude, b, b', id, front, out);
    ExitsAreOlder(g, exclude, b, b', id, id);
    TargetBefore(g, exclude, b, b', id, out);
    assert out in g[id].made.exits;
    var q', k' := ThroughLoop(g, exclude, b, b', id, out);
    assert gr.Target(gr.Last(q), k) == s[0];
    assert forall x :: x in q ==> x !in s;
    JoinPaths(gr, q, s);
    r, j := q + s, i;
    assert p == front + s;
    var a :| 0 <= a < |q| && q[a] == g[id].entry;
    assert r[a] == g[id].entry && r[|r| - 1] == p[|p| - 1];
  }

  // ------------------------------------------------------------------------
  // Names of folded loops.

  /** No path from the entry closes a cycle at `x`. */
  ghost predicate NotReached(g: seq<Meta>, exclude: set<ElemId>, b: Body, x: ElemId) {
    forall w {:trigger Closes(GraphOf(g, exclude, b), w, x)} ::
      GraphOf(g, exclude, b).Step(w) && w.0[0] == b.entry ==> !Closes(GraphOf(g, exclude, b), w, x)
  }

  lemma NewLoopNotReached(g: seq<Meta>, exclude: set<ElemId>, b: Body, b': Body, id: ElemId)
    requires Stepped(g, exclude, b, b', id)
    ensures NotReached(g, exclude, b', id)
  {
    var gr' := GraphOf(g, exclude, b');
    StepEnds(g, exclude, b, b', id);
    forall w | gr'.Step(w) && w.0[0] == b'.entry
      ensures !Closes(gr', w, id)
    {
      if Closes(gr', w, id) {
        var v := LiftedClose(g, exclude, b, b', id, w);
        ClosingIsCaptured(g, exclude, b, b', id, v, w.0[|w.0| - 1]);
      }
    }
  }

  /** What closes a cycle at the new element closed one at the loop's entry, and went outside the loop for it. */
  lemma LiftedClose(g: seq<Meta>, exclude: set<ElemId>, b: Body, b': Body, id: ElemId, w: (seq<ElemId>, nat)) returns (v: (seq<ElemId>, nat))
    requires Stepped(g, exclude, b, b', id) && Closes(GraphOf(g, exclude, b'), w, id) && w.0[0] == b.entry
    ensures Closes(GraphOf(g, exclude, b), v, g[id].entry) && v.0[0] == b.entry
    ensures OnCycle(v.0, g[id].entry, w.0[|w.0| - 1]) && w.0[|w.0| - 1] !in Members(g, id)
  {
    var gr, gr' := GraphOf(g, exclude, b), GraphOf(g, exclude, b');
    var raw := g[gr'.Last(w.0)].made.exits[w.1];
    var r, j := Lift(g, exclude, b, b', id, w.0, w.1, raw);
    TargetBefore(g, exclude, b, b', id, raw);
    StepEnds(g, exclude, b, b', id);
    v := (r, j);
  }

  lemma OldStaysNotReached(g: seq<Meta>, exclude: set<ElemId>, b: Body, b': Body, id: ElemId, x: ElemId)
    requires Stepped(g, exclude, b, b', id) && NotReached(g, exclude, b, x) && x in b'.elems && x != id
    ensures NotReached(g, exclude, b', x)
  {
    var gr, gr' := GraphOf(g, exclude, b), GraphOf(g, exclude, b');
    StepIs(g, exclude, b, b', id);
    forall w | gr'.Step(w) && w.0[0] == b'.entry
      ensures !Closes(gr', w, x)
    {
      if Closes(gr', w, x) {
        OldClosedBefore(g, exclude, b, b', id, w, x);
      }
    }
  }

  lemma OldClosedBefore(g: seq<Meta>, exclude: set<ElemId>, b: Body, b': Body, id: ElemId, w: (seq<ElemId>, nat), x: ElemId)
    requires Stepped(g, exclude, b, b', id) && Closes(GraphOf(g, exclude, b'), w, x) && w.0[0] == b.entry && x != id
    ensures !NotReached(g, exclude, b, x)
  {
    var gr, gr' := GraphOf(g, exclude, b), GraphOf(g, exclude, b');
    StepIs(g, exclude, b, b', id);
    var raw := g[gr'.Last(w.0)].made.exits[w.1];
    var r, j := Lift(g, exclude, b, b', id, w.0, w.1, raw);
    TargetBefore(g, exclude, b, b', id, raw);
    assert Closes(gr, (r, j), x);
  }
}
