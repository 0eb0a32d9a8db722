/** Graphs without cycles: nothing in them stops the run. Of such a graph no loop is folded, no arm goes round, and the
    block that nothing leads to is never taken into an arm. */
module LoopFree {
  import opened Wrappers
  import opened ControlFlow
  import opened Ownership
  import opened Dfs
  import opened Structure
  import opened Steps
  import opened Names
  import opened Arms
  import opened Levels
  import opened Progress

  // ------------------------------------------------------------------------
  // The graph.

  ghost predicate CfgEdge(cfg: Cfg, a: ElemId, b: ElemId) {
    Live(cfg, a) && b in cfg[a].value
  }

  /** A path with at least one edge. */
  ghost predicate IsWay(cfg: Cfg, p: seq<ElemId>, a: ElemId, b: ElemId) {
    && |p| > 1 && p[0] == a && p[|p| - 1] == b
    && forall k {:trigger p[k]} :: 0 <= k < |p| - 1 ==> CfgEdge(cfg, p[k], p[k + 1])
  }

  ghost predicate Leads(cfg: Cfg, a: ElemId, b: ElemId) {
    exists p :: IsWay(cfg, p, a, b)
  }

  /** No way leads from a block back to it. */
  ghost predicate NoCycle(cfg: Cfg) {
    forall b: ElemId {:trigger Leads(cfg, b, b)} :: !Leads(cfg, b, b)
  }

  /** Every block can be reached from the first. */
  ghost predicate AllReachable(cfg: Cfg) {
    forall b: ElemId {:trigger Live(cfg, b)} :: Live(cfg, b) && b != 0 ==> Leads(cfg, 0, b)
  }

  ghost predicate NoneLeadsTo(cfg: Cfg, b: ElemId) {
    forall a: ElemId {:trigger Leads(cfg, a, b)} :: !Leads(cfg, a, b)
  }

  lemma EdgeLeads(cfg: Cfg, a: ElemId, b: ElemId)
    requires CfgEdge(cfg, a, b)
    ensures Leads(cfg, a, b)
  {
    assert IsWay(cfg, [a, b], a, b);
  }

  lemma LeadsOn(cfg: Cfg, a: ElemId, b: ElemId, c: ElemId)
    requires Leads(cfg, a, b) && Leads(cfg, b, c)
    ensures Leads(cfg, a, c)
  {
    var p :| IsWay(cfg, p, a, b);
    var q :| IsWay(cfg, q, b, c);
    var r := p + q[1..];
    forall k | 0 <= k < |r| - 1
      ensures CfgEdge(cfg, r[k], r[k + 1])
    {
      if k < |p| - 1 {
        assert r[k] == p[k] && r[k + 1] == p[k + 1];
      } else {
        assert r[k] == q[k - |p| + 1] && r[k + 1] == q[k - |p| + 2];
      }
    }
    assert IsWay(cfg, r, a, c);
  }

  /** Where every block can be reached from the first and none leads back to itself, none leads to the first. */
  lemma FirstIsFirst(cfg: Cfg)
    requires NoCycle(cfg) && AllReachable(cfg)
    ensures NoneLeadsTo(cfg, 0)
  {
    forall a: ElemId
      ensures !Leads(cfg, a, 0)
    {
      if p :| IsWay(cfg, p, a, 0) {
        assert CfgEdge(cfg, p[0], p[0 + 1]);
        assert Leads(cfg, a, 0);
        if a != 0 {
          LeadsOn(cfg, 0, a, 0);
        }
      }
    }
  }

  // ------------------------------------------------------------------------
  // Elements: from where an element starts the graph leads to where its exits go.

  ghost predicate ExitsLead(cfg: Cfg, g: seq<Meta>, x: ElemId) {
    Known(g, x) && forall i {:trigger g[x].made.exits[i]} :: 0 <= i < |g[x].made.exits| ==>
      Known(g, g[x].made.exits[i]) && Leads(cfg, g[x].head, g[g[x].made.exits[i]].head)
  }

  /** No loop is made at or below the element. */
  ghost predicate NoLoops(cfg: Cfg, g: seq<Meta>, x: ElemId)
    decreases if x < |g| then g[x].leaves else {}
  {
    ExitsLead(cfg, g, x) &&
    match g[x].made.detail
    case BasicBlock(_) => true
    case Loop(_, _) => false
    case If(_, arm, other) =>
      && (forall y :: y in arm.elems ==> y < |g| && g[y].leaves < g[x].leaves && NoLoops(cfg, g, y))
      && (other.Some? ==> forall y :: y in other.value.elems ==> y < |g| && g[y].leaves < g[x].leaves && NoLoops(cfg, g, y))
  }

  ghost predicate AllLoopless(cfg: Cfg, g: seq<Meta>, s: set<ElemId>) {
    forall x {:trigger NoLoops(cfg, g, x)} :: x in s ==> NoLoops(cfg, g, x)
  }

  lemma BlockHasNoLoop(cfg: Cfg, g: seq<Meta>, x: ElemId)
    requires CfgOk(cfg) && MetaOk(cfg, g) && Live(cfg, x)
    ensures NoLoops(cfg, g, x)
  {
    assert g[x] == BlockMeta(cfg, x);
    forall i | 0 <= i < |g[x].made.exits|
      ensures Known(g, g[x].made.exits[i]) && Leads(cfg, g[x].head, g[g[x].made.exits[i]].head)
    {
      var t := cfg[x].value[i];
      assert Live(cfg, t) && g[t] == BlockMeta(cfg, t);
      assert CfgEdge(cfg, x, t);
      EdgeLeads(cfg, x, t);
    }
  }

  /** A member leads to whatever its exits lead to in the body. */
  lemma EdgesLead(cfg: Cfg, g: seq<Meta>, b: Body, x: ElemId, i: nat)
    requires Named(g, b) && ExitsLead(cfg, g, x) && i < |g[x].made.exits|
    ensures var t := b.Remap(g[x].made.exits[i]); Known(g, t) && Leads(cfg, g[x].head, g[t].head)
  {
    var n := g[x].made.exits[i];
    assert Known(g, n);
    if n in b.remap {
      assert Renames(g, n, b.remap[n]);
    }
  }

  lemma StepLeads(cfg: Cfg, g: seq<Meta>, b: Body, x: ElemId, t: ElemId)
    requires Named(g, b) && AllLoopless(cfg, g, b.elems) && Graph(b, {}, Made(g)).Ok()
    requires x in b.elems && Graph(b, {}, Made(g)).Edge(x, t)
    ensures Known(g, t) && Leads(cfg, g[x].head, g[t].head)
  {
    var gr := Graph(b, {}, Made(g));
    assert NoLoops(cfg, g, x);
    var i :| 0 <= i < gr.Deg(x) && gr.Target(x, i) == t;
    EdgesLead(cfg, g, b, x, i);
  }

  /** Paths of a body are ways of the graph. */
  lemma {:induction false} PathLeads(cfg: Cfg, g: seq<Meta>, b: Body, p: seq<ElemId>, j: nat, k: nat)
    requires Named(g, b) && AllLoopless(cfg, g, b.elems) && Graph(b, {}, Made(g)).SimplePath(p) && p[0] in b.elems && j < k < |p|
    requires Graph(b, {}, Made(g)).Ok()
    ensures Known(g, p[j]) && Known(g, p[k]) && Leads(cfg, g[p[j]].head, g[p[k]].head)
    decreases k
  {
    var gr := Graph(b, {}, Made(g));
    assert gr.Entered(p, k);
    assert k > 1 ==> gr.Entered(p, k - 1);
    StepLeads(cfg, g, b, p[k - 1], p[k]);
    if j < k - 1 {
      PathLeads(cfg, g, b, p, j, k - 1);
      LeadsOn(cfg, g[p[j]].head, g[p[k - 1]].head, g[p[k]].head);
    }
  }

  lemma NothingCloses(cfg: Cfg, g: seq<Meta>, b: Body, w: (seq<ElemId>, nat), t: ElemId)
    requires NoCycle(cfg) && Named(g, b) && AllLoopless(cfg, g, b.elems) && Graph(b, {}, Made(g)).Ok()
    requires w.0 != [] && w.0[0] in b.elems
    ensures !Closes(Graph(b, {}, Made(g)), w, t)
  {
    var gr, p := Graph(b, {}, Made(g)), w.0;
    if Closes(gr, w, t) {
      var j :| 0 <= j < |p| && p[j] == t;
      var last := |p| - 1;
      assert gr.Edge(p[last], t);
      assert last > 0 ==> gr.Entered(p, last);
      StepLeads(cfg, g, b, p[last], t);
      if j < last {
        PathLeads(cfg, g, b, p, j, last);
        LeadsOn(cfg, g[t].head, g[p[last]].head, g[t].head);
      }
    }
  }

  lemma NoLoopStep(cfg: Cfg, g: seq<Meta>, b: Body, b': Body, id: ElemId)
    requires NoCycle(cfg) && Named(g, b) && AllLoopless(cfg, g, b.elems) && b.entry in b.elems
    ensures !LoopStep(g, {}, b, b', id)
  {
    if LoopStep(g, {}, b, b', id) {
      var gr, e := Graph(b, {}, Made(g)), g[id].made;
      var done :| LoopFound(gr, b.entry, done, LoopShape(e.entry, e.detail.backedges, e.detail.body.elems));
      var w :| w in done && Closes(gr, w, e.entry);
      NothingCloses(cfg, g, b, w, e.entry);
    }
  }

  // ------------------------------------------------------------------------
  // The ifs.

  /** Element `c[k]` of a chain, and whatever comes after it, is led to from the chain's start. */
  lemma {:induction false} ChainLeads(cfg: Cfg, g: seq<Meta>, b: Body, src: ElemId, dst: ElemId, c: seq<ElemId>, j: nat, k: nat)
    requires Named(g, b) && AllLoopless(cfg, g, b.elems) && Graph(b, {}, Made(g)).Ok()
    requires Chain(b, Made(g), src, dst, c) && j < k <= |c|
    ensures Known(g, c[j]) && Known(g, Nth(c, k, dst)) && Leads(cfg, g[c[j]].head, g[Nth(c, k, dst)].head)
    decreases k
  {
    assert Link(b, Made(g), c, dst, j) && Link(b, Made(g), c, dst, k - 1);
    assert NoLoops(cfg, g, c[k - 1]);
    EdgesLead(cfg, g, b, c[k - 1], 0);
    if j < k - 1 {
      ChainLeads(cfg, g, b, src, dst, c, j, k - 1);
      LeadsOn(cfg, g[c[j]].head, g[c[k - 1]].head, g[Nth(c, k, dst)].head);
    }
  }

  /** One if fold of a body without loops. */
  ghost predicate Folded(cfg: Cfg, g: seq<Meta>, b: Body, b': Body, id: ElemId, f: IfShape, arm: Body, other: Option<Body>) {
    Sound(cfg, g) && Named(g, b) && AllLoopless(cfg, g, b.elems) && IfStepOf(g, b, b', id, f, arm, other)
  }

  lemma HeaderLeads(cfg: Cfg, g: seq<Meta>, b: Body, b': Body, id: ElemId, f: IfShape, arm: Body, other: Option<Body>, i: nat)
    requires Folded(cfg, g, b, b', id, f, arm, other) && i < 2
    ensures Graph(b, {}, Made(g)).Ok() && Header(b, Made(g), f.entry) && Known(g, f.entry) && Known(g, Way(b, Made(g), f.entry, i))
    ensures Leads(cfg, g[f.entry].head, g[Way(b, Made(g), f.entry, i)].head)
  {
    assert NoLoops(cfg, g, f.entry);
    EdgesLead(cfg, g, b, f.entry, i);
  }

  /** The arm starts at one of the header's exits and leads to the join. */
  lemma ThenArm(cfg: Cfg, g: seq<Meta>, b: Body, b': Body, id: ElemId, f: IfShape, arm: Body, other: Option<Body>) returns (i: nat)
    requires Folded(cfg, g, b, b', id, f, arm, other)
    ensures i < 2 && Graph(b, {}, Made(g)).Ok() && Header(b, Made(g), f.entry)
    ensures Chain(b, Made(g), Way(b, Made(g), f.entry, i), f.join, f.thenBlks)
  {
    i := if f.elseBlks.None? && f.inverted then 1 else 0;
  }

  lemma JoinIsLedTo(cfg: Cfg, g: seq<Meta>, b: Body, b': Body, id: ElemId, f: IfShape, arm: Body, other: Option<Body>)
    requires Folded(cfg, g, b, b', id, f, arm, other)
    ensures Known(g, f.entry) && Known(g, f.join) && Leads(cfg, g[f.entry].head, g[f.join].head)
  {
    var i := ThenArm(cfg, g, b, b', id, f, arm, other);
    HeaderLeads(cfg, g, b, b', id, f, arm, other, i);
    ChainLeads(cfg, g, b, Way(b, Made(g), f.entry, i), f.join, f.thenBlks, 0, |f.thenBlks|);
    LeadsOn(cfg, g[f.entry].head, g[f.thenBlks[0]].head, g[f.join].head);
  }

  /** The if that is made has no loop below it, like the members it is made of. */
  lemma NewIfHasNoLoop(cfg: Cfg, g: seq<Meta>, b: Body, b': Body, id: ElemId, f: IfShape, arm: Body, other: Option<Body>)
    requires Folded(cfg, g, b, b', id, f, arm, other)
    ensures NoLoops(cfg, g, id)
  {
    JoinIsLedTo(cfg, g, b, b', id, f, arm, other);
    assert Within(g, id, f.entry) && KnownSound(cfg, g, id);
    forall y | y in IfOut(f, arm, other)
      ensures y < |g| && g[y].leaves < g[id].leaves && NoLoops(cfg, g, y)
    {
      assert Within(g, id, y);
    }
  }

  ghost predicate EntryStands(b: Body) {
    b.LookupFromId(b.entry).Some?
  }

  /** What an arm takes is led to by the header. */
  lemma TakenIsLedTo(cfg: Cfg, g: seq<Meta>, b: Body, b': Body, id: ElemId, f: IfShape, arm: Body, other: Option<Body>, x: ElemId)
    requires Folded(cfg, g, b, b', id, f, arm, other) && x in IfOut(f, arm, other) && x != f.entry
    ensures Known(g, f.entry) && Known(g, x) && Leads(cfg, g[f.entry].head, g[x].head)
  {
    HeaderLeads(cfg, g, b, b', id, f, arm, other, 1);
    if x in arm.elems {
      var i := ThenArm(cfg, g, b, b', id, f, arm, other);
      HeaderLeads(cfg, g, b, b', id, f, arm, other, i);
      OnChain(cfg, g, b, f.entry, Way(b, Made(g), f.entry, i), f.join, f.thenBlks, x);
    } else {
      OnChain(cfg, g, b, f.entry, Way(b, Made(g), f.entry, 1), f.join, f.elseBlks.value, x);
    }
  }

  lemma OnChain(cfg: Cfg, g: seq<Meta>, b: Body, h: ElemId, src: ElemId, dst: ElemId, c: seq<ElemId>, x: ElemId)
    requires Named(g, b) && AllLoopless(cfg, g, b.elems) && Graph(b, {}, Made(g)).Ok() && Chain(b, Made(g), src, dst, c) && x in c
    requires Known(g, h) && Known(g, src) && Leads(cfg, g[h].head, g[src].head)
    ensures Known(g, x) && Leads(cfg, g[h].head, g[x].head)
  {
    var k :| 0 <= k < |c| && c[k] == x;
    if k > 0 {
      ChainLeads(cfg, g, b, src, dst, c, 0, k);
      LeadsOn(cfg, g[h].head, g[src].head, g[x].head);
    }
  }

  lemma HeaderIsItself(cfg: Cfg, g: seq<Meta>, b: Body, b': Body, id: ElemId, f: IfShape, arm: Body, other: Option<Body>)
    requires Folded(cfg, g, b, b', id, f, arm, other) && b.LookupFromId(b.entry) == Some(f.entry)
    ensures b.entry == f.entry
  {
    assert Header(b, Made(g), f.entry) && NoLoops(cfg, g, f.entry) && KnownSound(cfg, g, f.entry);
    EntryNames(g, b, f.entry);
    BlockIsItself(cfg, g, f.entry);
  }

  lemma EntryNames(g: seq<Meta>, b: Body, x: ElemId)
    requires Named(g, b) && b.LookupFromId(b.entry) == Some(x)
    ensures x < |g| && (b.entry == x || g[x].entry == b.entry)
  {
    if b.entry in b.remap {
      assert Renames(g, b.entry, b.remap[b.entry]);
    }
  }

  /** So the member that the body is entered at is taken only as a header, and then the body is entered at the new if. */
  lemma EntryStays(cfg: Cfg, g: seq<Meta>, b: Body, b': Body, id: ElemId, f: IfShape, arm: Body, other: Option<Body>)
    requires Folded(cfg, g, b, b', id, f, arm, other) && EntryStands(b) && NoneLeadsTo(cfg, g[b.entry].head)
    ensures EntryStands(b')
  {
    var e := b.LookupFromId(b.entry).value;
    LookedUp(g, b, b.entry);
    assert f.entry in b.elems;
    if e != f.entry && e in IfOut(f, arm, other) {
      TakenIsLedTo(cfg, g, b, b', id, f, arm, other, e);
    }
    if e == f.entry {
      HeaderIsItself(cfg, g, b, b', id, f, arm, other);
    }
  }

  // ------------------------------------------------------------------------
  // A whole body, and all below it.

  /** A body as it is while its ifs are folded; closed, so that going through a history need not look inside. */
  ghost predicate Entered(cfg: Cfg, g: seq<Meta>, b: Body, entry: ElemId) {
    exists s :: EnteredWith(cfg, g, b, entry, s)
  }

  ghost predicate EnteredWith(cfg: Cfg, g: seq<Meta>, b: Body, entry: ElemId, s: set<ElemId>) {
    s == b.elems && Named(g, b) && AllLoopless(cfg, g, s) && b.entry == entry && EntryStands(b)
  }

  /** The body is entered where nothing leads back to; closed likewise. */
  ghost predicate AtFirst(cfg: Cfg, g: seq<Meta>, entry: ElemId) {
    exists head :: AtFirstOf(cfg, g, entry, head)
  }

  ghost predicate AtFirstOf(cfg: Cfg, g: seq<Meta>, entry: ElemId, head: ElemId) {
    Sound(cfg, g) && Known(g, entry) && head == g[entry].head && NoneLeadsTo(cfg, head)
  }

  ghost predicate AllNamed(g: seq<Meta>, bs: seq<Body>) {
    forall k {:trigger bs[k]} :: 0 <= k < |bs| ==> Named(g, bs[k])
  }

  lemma IfKeepsEntered(cfg: Cfg, g: seq<Meta>, b: Body, b': Body, id: ElemId, entry: ElemId)
    requires AtFirst(cfg, g, entry) && IfStep(g, b, b', id) && Entered(cfg, g, b, entry) && Named(g, b')
    ensures Entered(cfg, g, b', entry)
  {
    var f, arm, other :| IfStepOf(g, b, b', id, f, arm, other);
    NewIfHasNoLoop(cfg, g, b, b', id, f, arm, other);
    EntryStays(cfg, g, b, b', id, f, arm, other);
    assert EnteredWith(cfg, g, b', entry, b'.elems);
  }

  /** The ifs that were folded in a body, one after the other; closed likewise. */
  ghost predicate IfsFolded(cfg: Cfg, g: seq<Meta>, bs: seq<Body>, ids: seq<ElemId>, entry: ElemId) {
    exists n :: IfsFoldedOf(cfg, g, bs, ids, entry, n)
  }

  ghost predicate IfsFoldedOf(cfg: Cfg, g: seq<Meta>, bs: seq<Body>, ids: seq<ElemId>, entry: ElemId, n: nat) {
    n == |ids| && AtFirst(cfg, g, entry) && IfsTo(g, bs, ids) && AllNamed(g, bs) && Entered(cfg, g, bs[0], entry)
  }

  lemma NextKeepsEntered(cfg: Cfg, g: seq<Meta>, bs: seq<Body>, ids: seq<ElemId>, entry: ElemId, i: nat)
    requires IfsFolded(cfg, g, bs, ids, entry) && 0 < i < |bs| && Entered(cfg, g, bs[i - 1], entry)
    ensures Entered(cfg, g, bs[i], entry)
  {
    assert IfAt(g, bs, ids, i - 1);
    IfKeepsEntered(cfg, g, bs[i - 1], bs[i], ids[i - 1], entry);
  }

  lemma {:induction false} IfsKeepEntered(cfg: Cfg, g: seq<Meta>, bs: seq<Body>, ids: seq<ElemId>, entry: ElemId, i: nat)
    requires IfsFolded(cfg, g, bs, ids, entry) && i < |bs|
    ensures Entered(cfg, g, bs[i], entry)
  {
    if i > 0 {
      IfsKeepEntered(cfg, g, bs, ids, entry, i - 1);
      NextKeepsEntered(cfg, g, bs, ids, entry, i);
    }
  }

  /** Folding a body of blocks that lead nowhere back leaves it without loops and with its entry. */
  lemma FoldsToIfs(cfg: Cfg, g: seq<Meta>, b: Body, r: Body)
    requires NoCycle(cfg) && AtFirst(cfg, g, b.entry) && Entered(cfg, g, b, b.entry) && b.entry in b.elems
    requires Folds(g, b, {}, r)
    ensures Entered(cfg, g, r, b.entry)
  {
    var h :| FoldsVia(g, b, {}, r, h);
    if h.loopIds != [] {
      assert LoopAt(g, {}, h.loops, h.loopIds, 0);
      NoLoopStep(cfg, g, b, h.loops[1], h.loopIds[0]);
    }
    HistoryNamed(g, b, {}, r, h);
    assert IfsFoldedOf(cfg, g, h.ifs, h.ifIds, b.entry, |h.ifIds|);
    IfsKeepEntered(cfg, g, h.ifs, h.ifIds, b.entry, |h.ifs| - 1);
  }

  /** An arm that goes round would be a way from a block back to it. */
  lemma {:induction false} RingLeads(cfg: Cfg, g: seq<Meta>, arm: Body, run: seq<ElemId>, k: nat)
    requires RunsRound(g, arm, run) && AllLoopless(cfg, g, arm.elems) && 0 < k <= |run|
    ensures var t := run[if k < |run| then k else 0]; Known(g, run[0]) && Known(g, t) && Leads(cfg, g[run[0]].head, g[t].head)
  {
    var x, t := run[k - 1], run[if k < |run| then k else 0];
    assert x in run && run[0] in run;
    assert NoLoops(cfg, g, x) && NoLoops(cfg, g, run[0]) && RingLink(g, arm, run, k - 1);
    LookedUp(g, arm, g[x].made.exits[0]);
    if k > 1 {
      RingLeads(cfg, g, arm, run, k - 1);
      LeadsOn(cfg, g[run[0]].head, g[x].head, g[t].head);
    }
  }

  lemma ArmIsStraight(cfg: Cfg, g: seq<Meta>, id: ElemId)
    requires NoCycle(cfg) && NoLoops(cfg, g, id) && g[id].made.detail.If? && IfMade(g, id)
    ensures Straight(g, g[id].made.detail.thenBody)
  {
    var arm := g[id].made.detail.thenBody;
    if run :| RunsRound(g, arm, run) {
      RingLeads(cfg, g, arm, run, |run|);
    }
  }

  lemma StraightIsEntered(g: seq<Meta>, arm: Body)
    requires Straight(g, arm)
    ensures EntryStands(arm)
  {
    var run, n :| RunsTo(g, arm, run, n);
  }

  /** Below an element without loops every body keeps its entry, and there is no loop whose ifs could miss their joins. */
  lemma {:induction false} NothingStops(cfg: Cfg, g: seq<Meta>, d: Arena, id: ElemId)
    requires NoCycle(cfg) && NoLoops(cfg, g, id) && WellMade(cfg, g, id) && FoldedBelow(g, d, id)
    ensures Keeps(g, d, id) && JoinsMeet(g, d, id)
    decreases g[id].leaves
  {
    match d[id].value.detail {
      case BasicBlock(_) =>
      case If(_, arm, other) =>
        var made := g[id].made.detail;
        ArmIsStraight(cfg, g, id);
        StraightStays(g, made.thenBody, arm);
        StraightIsEntered(g, arm);
        forall y | y in arm.elems
          ensures Within(g, id, y) && Keeps(g, d, y) && JoinsMeet(g, d, y)
        {
          NothingStops(cfg, g, d, y);
        }
        if other.Some? {
          StraightStays(g, made.elseBody.value, other.value);
          StraightIsEntered(g, other.value);
          forall y | y in other.value.elems
            ensures Within(g, id, y) && Keeps(g, d, y) && JoinsMeet(g, d, y)
          {
            NothingStops(cfg, g, d, y);
          }
        }
    }
  }
}
