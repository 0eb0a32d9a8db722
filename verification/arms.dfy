/** The arms of an if run straight through their members to where the if goes on
    (dis86/src/decompile/control_flow.rs: the asserts of schedule_layout_ifstmt). */
module Arms {
  import opened Wrappers
  import opened ControlFlow
  import opened Ownership
  import opened Dfs
  import opened Structure
  import opened Steps
  import opened Names

  /** Member `k` of the run has one exit, which leads to the next member, and from the last one out by the name `n`. */
  ghost predicate RunLink(g: seq<Meta>, arm: Body, run: seq<ElemId>, n: ElemId, k: nat)
    requires k < |run|
  {
    && run[k] < |g| && |g[run[k]].made.exits| == 1
    && var t := g[run[k]].made.exits[0];
    if k + 1 < |run| then arm.LookupFromId(t) == Some(run[k + 1]) else t == n && arm.LookupFromId(n).None?
  }

  /** From its entry the body runs through all its members, one after the other, and out. */
  ghost predicate RunsTo(g: seq<Meta>, arm: Body, run: seq<ElemId>, n: ElemId) {
    && run != [] && Distinct(run)
    && (forall x :: x in run <==> x in arm.elems)
    && arm.entry == run[0] && arm.LookupFromId(run[0]) == Some(run[0])
    && forall k {:trigger RunLink(g, arm, run, n, k)} :: 0 <= k < |run| ==> RunLink(g, arm, run, n, k)
  }

  ghost predicate Straight(g: seq<Meta>, arm: Body) {
    exists run, n :: RunsTo(g, arm, run, n)
  }

  /** The names by which arms below the members leave are known in the body like the joins of their ifs. */
  ghost predicate BodyKnown(g: seq<Meta>, b: Body) {
    forall x {:trigger JoinsKnown(g, b, x)} :: x in b.elems ==> JoinsKnown(g, b, x)
  }

  ghost predicate RingLink(g: seq<Meta>, arm: Body, run: seq<ElemId>, k: nat)
    requires k < |run|
  {
    && run[k] < |g| && |g[run[k]].made.exits| == 1
    && arm.LookupFromId(g[run[k]].made.exits[0]) == Some(run[if k + 1 < |run| then k + 1 else 0])
  }

  /** From its entry the body runs through all its members and back to its entry. */
  ghost predicate RunsRound(g: seq<Meta>, arm: Body, run: seq<ElemId>) {
    && run != [] && Distinct(run)
    && (forall x :: x in run <==> x in arm.elems)
    && arm.entry == run[0] && arm.LookupFromId(run[0]) == Some(run[0])
    && (forall k :: k in arm.remap ==> k !in arm.elems && Renames(g, k, arm.remap[k]))
    && forall k {:trigger RingLink(g, arm, run, k)} :: 0 <= k < |run| ==> RingLink(g, arm, run, k)
  }

  ghost predicate Ringed(g: seq<Meta>, arm: Body) {
    exists run :: RunsRound(g, arm, run)
  }

  // ------------------------------------------------------------------------
  // The chain an arm was made of.

  /** An arm cut out of the body `b`: the chain `blks` to `dst`, which the name `from` leads into. */
  ghost predicate CutOut(cfg: Cfg, g: seq<Meta>, b: Body, arm: Body, blks: seq<ElemId>, from: ElemId, dst: ElemId) {
    && Sound(cfg, g) && Tidy(cfg, g, b) && Graph(b, {}, Made(g)).Ok()
    && IsArm(Made(g), blks, arm) && arm.elems <= b.elems
    && Rooted(cfg, g, b, from) && Chain(b, Made(g), b.Remap(from), dst, blks)
  }

  lemma EntryHead(cfg: Cfg, g: seq<Meta>, x: ElemId)
    requires Sound(cfg, g) && Known(g, x)
    ensures SameHead(g, g[x].entry, x)
  {
    assert KnownSound(cfg, g, x);
  }

  /** A name that leads to a member of the arm does so in the arm. */
  lemma ArmRemap(cfg: Cfg, g: seq<Meta>, b: Body, arm: Body, blks: seq<ElemId>, from: ElemId, dst: ElemId, m: ElemId)
    requires CutOut(cfg, g, b, arm, blks, from, dst) && b.Remap(m) in arm.elems
    ensures arm.Remap(m) == b.Remap(m)
  {
    var y := b.Remap(m);
    RemapOf(cfg, g, b, m);
    assert y in blks && Known(g, y);
    if m in arm.remap {
      var z := arm.remap[m];
      assert z in arm.elems && z in b.elems;
      EntryHead(cfg, g, z);
      EntryHead(cfg, g, y);
      OneMemberPerHead(g, b.elems, y, z, cfg);
    }
  }

  /** Every member of the arm is led to by a rooted name. */
  lemma LedTo(cfg: Cfg, g: seq<Meta>, b: Body, arm: Body, blks: seq<ElemId>, from: ElemId, dst: ElemId, y: ElemId) returns (m: ElemId)
    requires CutOut(cfg, g, b, arm, blks, from, dst) && y in blks
    ensures Rooted(cfg, g, b, m) && b.Remap(m) == y
  {
    var k :| 0 <= k < |blks| && blks[k] == y;
    if k == 0 {
      m := from;
    } else {
      assert Link(b, Made(g), blks, dst, k - 1);
      assert ExitsRooted(cfg, g, b, blks[k - 1]);
      m := g[blks[k - 1]].made.exits[0];
    }
  }

  /** A name that leads to a member within the arm does so in the body. */
  lemma BackInto(cfg: Cfg, g: seq<Meta>, b: Body, arm: Body, blks: seq<ElemId>, from: ElemId, dst: ElemId, n: ElemId)
    requires CutOut(cfg, g, b, arm, blks, from, dst) && arm.Remap(n) in arm.elems
    ensures b.Remap(n) == arm.Remap(n)
  {
    var y := arm.Remap(n);
    RemapOf(cfg, g, b, n);
    RemapOf(cfg, g, b, y);
    if n in arm.remap {
      var m := LedTo(cfg, g, b, arm, blks, from, dst, y);
      RemapOf(cfg, g, b, m);
      if y < |cfg| {
        BlockIsItself(cfg, g, y);
      }
    }
  }

  /** The last member leaves the arm. */
  lemma LastLeaves(cfg: Cfg, g: seq<Meta>, b: Body, arm: Body, blks: seq<ElemId>, from: ElemId, dst: ElemId, n: ElemId)
    requires CutOut(cfg, g, b, arm, blks, from, dst) && b.Remap(n) == dst && dst !in blks
    ensures arm.LookupFromId(n).None?
  {
    if arm.Remap(n) in arm.elems {
      BackInto(cfg, g, b, arm, blks, from, dst, n);
    }
  }

  lemma ArmRuns(cfg: Cfg, g: seq<Meta>, b: Body, arm: Body, blks: seq<ElemId>, from: ElemId, dst: ElemId)
    requires CutOut(cfg, g, b, arm, blks, from, dst) && dst !in blks
    ensures Straight(g, arm)
  {
    var last := blks[|blks| - 1];
    assert Link(b, Made(g), blks, dst, |blks| - 1);
    var n := g[last].made.exits[0];
    LastLeaves(cfg, g, b, arm, blks, from, dst, n);
    forall k | 0 <= k < |blks|
      ensures RunLink(g, arm, blks, n, k)
    {
      assert Link(b, Made(g), blks, dst, k);
      if k + 1 < |blks| {
        ArmRemap(cfg, g, b, arm, blks, from, dst, g[blks[k]].made.exits[0]);
      }
    }
    RemapOf(cfg, g, b, blks[0]);
    assert blks[0] in arm.elems;
    ArmRemap(cfg, g, b, arm, blks, from, dst, blks[0]);
    assert RunsTo(g, arm, blks, n);
  }

  /** A chain back to where it starts makes an arm that is a ring. */
  lemma RingRuns(cfg: Cfg, g: seq<Meta>, b: Body, arm: Body, blks: seq<ElemId>, from: ElemId, dst: ElemId)
    requires CutOut(cfg, g, b, arm, blks, from, dst) && dst in blks
    ensures RunsRound(g, arm, blks) && dst == arm.entry
  {
    var i :| 0 <= i < |blks| && blks[i] == dst;
    assert Link(b, Made(g), blks, dst, i);
    forall k | 0 <= k < |blks|
      ensures RingLink(g, arm, blks, k)
    {
      assert Link(b, Made(g), blks, dst, k);
      ArmRemap(cfg, g, b, arm, blks, from, dst, g[blks[k]].made.exits[0]);
    }
    RemapOf(cfg, g, b, blks[0]);
    assert blks[0] in arm.elems;
    ArmRemap(cfg, g, b, arm, blks, from, dst, blks[0]);
    KeysLieOutside(cfg, g, b, arm, blks, from, dst);
  }

  lemma KeysLieOutside(cfg: Cfg, g: seq<Meta>, b: Body, arm: Body, blks: seq<ElemId>, from: ElemId, dst: ElemId)
    requires CutOut(cfg, g, b, arm, blks, from, dst)
    ensures forall k :: k in arm.remap ==> k !in arm.elems && Renames(g, k, arm.remap[k])
  {
    forall k | k in arm.remap
      ensures k !in arm.elems && Renames(g, k, arm.remap[k])
    {
      var y := arm.remap[k];
      EntryHead(cfg, g, y);
      if k in arm.elems {
        OneMemberPerHead(g, b.elems, k, y, cfg);
      }
    }
  }

  /** By whatever name the arm is left, the body knows the join by it. */
  lemma ArmLeavesTied(cfg: Cfg, g: seq<Meta>, b: Body, arm: Body, blks: seq<ElemId>, from: ElemId, dst: ElemId)
    requires CutOut(cfg, g, b, arm, blks, from, dst)
    ensures ArmTied(g, b, arm, dst)
  {
    forall x, i | x in arm.elems && x < |g| && 0 <= i < |g[x].made.exits| && arm.LookupFromId(g[x].made.exits[i]).None?
      ensures Tied(g, b, g[x].made.exits[i], dst)
    {
      var k :| 0 <= k < |blks| && blks[k] == x;
      assert Link(b, Made(g), blks, dst, k);
      var n := g[x].made.exits[i];
      if b.Remap(n) in arm.elems {
        ArmRemap(cfg, g, b, arm, blks, from, dst, n);
      }
      assert Known(g, x) && KnownSound(cfg, g, x);
      RemapTied(cfg, g, b, n);
    }
  }

  /** What the body knows of names, the arm knows of those that lead into it. */
  lemma ArmKnowsToo(cfg: Cfg, g: seq<Meta>, b: Body, arm: Body, blks: seq<ElemId>, from: ElemId, dst: ElemId)
    requires CutOut(cfg, g, b, arm, blks, from, dst)
    ensures GoodToo(g, b, arm)
  {
    forall n | Good(g, b, n)
      ensures Good(g, arm, n)
    {
      forall y | y in arm.elems && SameHead(g, n, y)
        ensures arm.Remap(n) == y
      {
        ArmRemap(cfg, g, b, arm, blks, from, dst, n);
      }
    }
  }

  // ------------------------------------------------------------------------
  // There is nothing to fold in a straight arm.

  lemma {:induction false} PathFollowsRun(g: seq<Meta>, arm: Body, run: seq<ElemId>, n: ElemId, p: seq<ElemId>, k: nat)
    requires RunsTo(g, arm, run, n) && Graph(arm, {}, Made(g)).SimplePath(p) && p[0] == arm.entry && k < |p|
    ensures k < |run| && p[k] == run[k]
  {
    if k > 0 {
      var gr := Graph(arm, {}, Made(g));
      PathFollowsRun(g, arm, run, n, p, k - 1);
      assert RunLink(g, arm, run, n, k - 1) && gr.Entered(p, k);
      var i :| 0 <= i < gr.Deg(p[k - 1]) && gr.Target(p[k - 1], i) == p[k];
      assert arm.LookupFromId(g[run[k - 1]].made.exits[0]) == Some(p[k]);
    }
  }

  lemma StraightIsAcyclic(g: seq<Meta>, arm: Body, w: (seq<ElemId>, nat), t: ElemId)
    requires Straight(g, arm) && Graph(arm, {}, Made(g)).Step(w) && w.0[0] == arm.entry
    ensures !Closes(Graph(arm, {}, Made(g)), w, t)
  {
    var run, n :| RunsTo(g, arm, run, n);
    var p := w.0;
    var k := |p| - 1;
    PathFollowsRun(g, arm, run, n, p, k);
    assert RunLink(g, arm, run, n, k);
    if Closes(Graph(arm, {}, Made(g)), w, t) {
      assert arm.LookupFromId(g[run[k]].made.exits[0]) == Some(t);
      var j :| 0 <= j < |p| && p[j] == t;
      PathFollowsRun(g, arm, run, n, p, j);
    }
  }

  lemma StraightStays(g: seq<Meta>, arm: Body, r: Body)
    requires Straight(g, arm) && Folds(g, arm, {}, r)
    ensures r == arm
  {
    var h :| FoldsVia(g, arm, {}, r, h);
    if h.loopIds != [] {
      assert LoopAt(g, {}, h.loops, h.loopIds, 0);
      NoLoopInStraight(g, arm, h.loops[1], h.loopIds[0]);
    }
    if h.ifIds != [] {
      assert IfAt(g, h.ifs, h.ifIds, 0);
      NoIfInStraight(g, arm, h.ifs[1], h.ifIds[0]);
    }
  }

  lemma NoLoopInStraight(g: seq<Meta>, arm: Body, b': Body, id: ElemId)
    requires Straight(g, arm)
    ensures !LoopStep(g, {}, arm, b', id)
  {
    if LoopStep(g, {}, arm, b', id) {
      var gr := Graph(arm, {}, Made(g));
      var e := g[id].made;
      var lp := LoopShape(e.entry, e.detail.backedges, e.detail.body.elems);
      var done :| LoopFound(gr, arm.entry, done, lp);
      var w :| w in done && Closes(gr, w, lp.entry);
      StraightIsAcyclic(g, arm, w, lp.entry);
    }
  }

  lemma NoIfInStraight(g: seq<Meta>, arm: Body, b': Body, id: ElemId)
    requires Straight(g, arm)
    ensures !IfStep(g, arm, b', id)
  {
    if IfStep(g, arm, b', id) {
      var f, a, o :| IfStepOf(g, arm, b', id, f, a, o);
      StraightHasOneExit(g, arm, f.entry);
    }
  }

  lemma StraightHasOneExit(g: seq<Meta>, arm: Body, x: ElemId)
    requires Straight(g, arm) && x in arm.elems
    ensures x < |g| && |g[x].made.exits| == 1
  {
    var run, n :| RunsTo(g, arm, run, n);
    var k :| 0 <= k < |run| && run[k] == x;
    assert RunLink(g, arm, run, n, k);
  }
}
