/** Which elements work on a body or an element may touch, and what it leaves as it was. */
module Scopes {
  import opened Wrappers
  import opened ControlFlow
  import opened Ownership
  import opened Dfs
  import opened Structure
  import opened Steps

  /** From (g, d) to (g', d') only elements in the scope changed, and only such were added. */
  ghost predicate Grown(g: seq<Meta>, d: Arena, g': seq<Meta>, d': Arena, v: set<ElemId>, full: bool) {
    && |d| == |g| && |d'| == |g'| && g <= g'
    && (forall id :: 0 <= id < |d| && !InScope(g, v, full, id) ==> d'[id] == d[id])
    && (forall id :: |d| <= id < |d'| ==> InScope(g', v, full, id))
  }

  /** As it was made; a loop has a backedge source among its members. */
  ghost predicate UnfoldedAt(g: seq<Meta>, d: Arena, id: ElemId) {
    Present(d, id) && id < |g| ==>
      && d[id].value == g[id].made
      && (d[id].value.detail.Loop? ==> d[id].value.detail.backedges * d[id].value.detail.body.elems != {})
  }

  /** The bodies of the elements in the scope have not been folded yet. */
  ghost predicate Unfolded(g: seq<Meta>, d: Arena, v: set<ElemId>, full: bool) {
    forall id: nat {:trigger UnfoldedAt(g, d, id)} :: InScope(g, v, full, id) ==> UnfoldedAt(g, d, id)
  }

  lemma GrownTrans(g: seq<Meta>, d: Arena, g1: seq<Meta>, d1: Arena, g2: seq<Meta>, d2: Arena, v: set<ElemId>, full: bool)
    requires Grown(g, d, g1, d1, v, full) && Grown(g1, d1, g2, d2, v, full)
    ensures Grown(g, d, g2, d2, v, full)
  {
    forall id | 0 <= id < |d| && !InScope(g, v, full, id)
      ensures d2[id] == d[id]
    {
      assert !InScope(g1, v, full, id);
    }
    forall id | |d| <= id < |d2|
      ensures InScope(g2, v, full, id)
    {
      if id < |d1| {
        assert InScope(g1, v, full, id);
      }
    }
  }

  /** The scope of a member lies within the scope of its body. */
  lemma MemberScope(g: seq<Meta>, v: set<ElemId>, full: bool, x: ElemId, y: ElemId)
    requires InScope(g, v, full, x) && InScope(g, g[x].leaves, g[x].loop, y)
    ensures InScope(g, v, full, y)
  {
  }

  lemma GrownWider(g: seq<Meta>, d: Arena, g': seq<Meta>, d': Arena, v: set<ElemId>, full: bool, x: ElemId)
    requires InScope(g, v, full, x) && Grown(g, d, g', d', g[x].leaves, g[x].loop)
    ensures Grown(g, d, g', d', v, full)
  {
    forall id | 0 <= id < |d| && !InScope(g, v, full, id)
      ensures d'[id] == d[id]
    {
      if InScope(g, g[x].leaves, g[x].loop, id) {
        MemberScope(g, v, full, x, id);
      }
    }
    forall id | |d| <= id < |d'|
      ensures InScope(g', v, full, id)
    {
      MemberScope(g', v, full, x, id);
    }
  }

  /** Work on some blocks leaves the scope of other blocks alone. */
  lemma ApartScopes(g: seq<Meta>, d: Arena, g': seq<Meta>, d': Arena, v: set<ElemId>, full: bool, w: set<ElemId>, wfull: bool)
    requires v !! w && Grown(g, d, g', d', v, full)
    ensures ScopePresent(g, d, w, wfull) ==> ScopePresent(g', d', w, wfull)
    ensures Unfolded(g, d, w, wfull) ==> Unfolded(g', d', w, wfull)
  {
    forall id: nat | InScope(g', w, wfull, id)
      ensures id < |d| && d'[id] == d[id] && InScope(g, w, wfull, id)
    {
      var b :| b in g'[id].leaves;
      assert b in w && b !in v;
      assert !InScope(g', v, full, id);
    }
    if Unfolded(g, d, w, wfull) {
      forall id: nat | InScope(g', w, wfull, id)
        ensures UnfoldedAt(g', d', id)
      {
        assert InScope(g, w, wfull, id) && UnfoldedAt(g, d, id);
      }
    }
  }

  lemma AfterLoopFold(cfg: Cfg, g: seq<Meta>, d: Arena, body: Body, full: bool, exclude: set<ElemId>,
                      done: set<(seq<ElemId>, nat)>, lp: LoopShape, exits: seq<ElemId>, g': seq<Meta>, d': Arena, r: Body, v: set<ElemId>)
    requires BodyOk(g, body, full) && ArenaOk(cfg, g, d) && ArenaOk(cfg, g', d') && BodyOk(g', r, full)
    requires HoldsBlocks(g, body.elems, v) && HoldsBlocks(g', r.elems, v)
    requires ScopePresent(g, d, v, full) && Unfolded(g, d, v, full)
    requires !full ==> exclude * body.elems != {}
    requires LoopFound(Graph(body, exclude, d), body.entry, done, lp)
    requires LoopFolded(g, d, body, lp, exits, g', d', r)
    ensures Grown(g, d, g', d', v, full) && d <= d'
    ensures ScopePresent(g', d', v, full) && Unfolded(g', d', v, full)
    ensures !full ==> exclude * r.elems != {}
    ensures Graph(body, exclude, d).Ok() && Graph(r, exclude, d').Ok() && Smaller(Graph(r, exclude, d'), Graph(body, exclude, d))
  {
    BlocksAre(g, body.elems, v);
    BlocksAre(g', r.elems, v);
    FoundLoopFits(cfg, g, d, body, full, exclude, done, lp);
    FoldGrows(g, d, body, full, lp.entry, lp.elems, g', d', r, v);
    if !full {
      var z :| z in exclude && z in body.elems;
      assert z in r.elems;
    }
    LoopHasNoSelfEdge(cfg, g', d', r, full, exclude, |d|);
    LoopFoldShrinks(g, d, body, exclude, done, lp, exits, g', d', r);
  }

  /** Appending the element a body was folded into. */
  lemma FoldGrows(g: seq<Meta>, d: Arena, body: Body, full: bool, entry: ElemId, out: set<ElemId>, g': seq<Meta>, d': Arena, r: Body, v: set<ElemId>)
    requires |d| == |g| && |g'| == |d'| == |g| + 1 && g <= g' && d <= d' && d'[|d|] == Some(g'[|g|].made)
    requires r == Fold(body, entry, out, |d|) && BodyOk(g', r, full) && LeavesOf(g', r.elems) == v
    requires ScopePresent(g, d, v, full) && Unfolded(g, d, v, full)
    requires d'[|d|].value.detail.Loop? ==> d'[|d|].value.detail.backedges * d'[|d|].value.detail.body.elems != {}
    ensures Grown(g, d, g', d', v, full)
    ensures ScopePresent(g', d', v, full) && Unfolded(g', d', v, full)
    ensures Graph(r, {}, d').Ok()
  {
    forall id: nat | InScope(g', v, full, id)
      ensures Present(d', id)
    {
      if id < |d| {
        assert InScope(g, v, full, id);
      }
    }
    forall id: nat | InScope(g', v, full, id)
      ensures UnfoldedAt(g', d', id)
    {
      if id < |d| {
        assert InScope(g, v, full, id) && d'[id] == d[id] && UnfoldedAt(g, d, id);
      }
    }
  }

  lemma AfterIfFold(g: seq<Meta>, d: Arena, body: Body, full: bool, f: IfShape, thenBody: Body, elseBody: Option<Body>,
                    g': seq<Meta>, d': Arena, r: Body, v: set<ElemId>)
    requires |d| == |g| && BodyOk(g, body, full) && Graph(body, {}, d).Ok() && IsIf(body, d, f)
    requires IfFolded(g, d, body, f, thenBody, elseBody, g', d', r) && BodyOk(g', r, full) && HoldsBlocks(g', r.elems, v)
    requires ScopePresent(g, d, v, full) && Unfolded(g, d, v, full)
    ensures Grown(g, d, g', d', v, full) && d <= d'
    ensures ScopePresent(g', d', v, full) && Unfolded(g', d', v, full)
    ensures Graph(r, {}, d').Ok() && r.entry == body.entry && r.layout == body.layout
  {
    BlocksAre(g', r.elems, v);
    FoldGrows(g, d, body, full, f.entry, IfOut(f, thenBody, elseBody), g', d', r, v);
  }

  ghost predicate UnfoldedBelow(g: seq<Meta>, d: Arena, x: ElemId) {
    x < |g| && Unfolded(g, d, g[x].leaves, g[x].loop)
  }

  ghost predicate AllUnfolded(g: seq<Meta>, d: Arena, s: set<ElemId>) {
    forall x {:trigger UnfoldedBelow(g, d, x)} :: x in s ==> UnfoldedBelow(g, d, x)
  }

  lemma MembersUnfolded(g: seq<Meta>, d: Arena, r: Body, full: bool, v: set<ElemId>)
    requires BodyOk(g, r, full) && HoldsBlocks(g, r.elems, v) && Unfolded(g, d, v, full)
    ensures AllUnfolded(g, d, r.elems)
  {
    BlocksAre(g, r.elems, v);
    forall x | x in r.elems
      ensures UnfoldedBelow(g, d, x)
    {
      forall y: nat | InScope(g, g[x].leaves, g[x].loop, y)
        ensures UnfoldedAt(g, d, y)
      {
        MemberScope(g, v, full, x, y);
      }
    }
  }

  lemma MemberPresent(g: seq<Meta>, d: Arena, r: Body, full: bool, v: set<ElemId>, x: ElemId)
    requires BodyOk(g, r, full) && HoldsBlocks(g, r.elems, v) && ScopePresent(g, d, v, full) && x in r.elems
    ensures Present(d, x) && ScopePresent(g, d, g[x].leaves, g[x].loop)
    ensures g[x].leaves <= v && (g[x].leaves == v && g[x].loop ==> full)
  {
    BlocksAre(g, r.elems, v);
    MemberLeaves(g, r.elems, x);
    forall y: nat | InScope(g, g[x].leaves, g[x].loop, y)
      ensures InScope(g, v, full, y)
    {
      MemberScope(g, v, full, x, y);
    }
  }

  lemma OthersUnfolded(g: seq<Meta>, d: Arena, g': seq<Meta>, d': Arena, r: Body, full: bool, id: ElemId, todo: set<ElemId>)
    requires BodyOk(g, r, full) && id in todo && todo <= r.elems
    requires Grown(g, d, g', d', g[id].leaves, g[id].loop) && AllUnfolded(g, d, todo)
    ensures AllUnfolded(g', d', todo - {id})
  {
    forall x | x in todo - {id}
      ensures UnfoldedBelow(g', d', x)
    {
      assert UnfoldedBelow(g, d, x);
      ApartScopes(g, d, g', d', g[id].leaves, g[id].loop, g[x].leaves, g[x].loop);
    }
  }

  lemma AfterElem(g: seq<Meta>, d: Arena, g': seq<Meta>, d': Arena, r: Body, full: bool, v: set<ElemId>, id: ElemId, todo: set<ElemId>)
    requires BodyOk(g, r, full) && HoldsBlocks(g, r.elems, v) && id in todo && todo <= r.elems
    requires ScopePresent(g, d, v, full) && ScopePresent(g', d', g[id].leaves, g[id].loop)
    requires Grown(g, d, g', d', g[id].leaves, g[id].loop)
    requires AllUnfolded(g, d, todo) && AllBelow(g, d, r.elems - todo) && FoldedBelow(g', d', id)
    ensures Grown(g, d, g', d', v, full)
    ensures BodyOk(g', r, full) && HoldsBlocks(g', r.elems, v)
    ensures ScopePresent(g', d', v, full)
    ensures AllUnfolded(g', d', todo - {id}) && AllBelow(g', d', r.elems - (todo - {id}))
  {
    BlocksAre(g, r.elems, v);
    GrownWider(g, d, g', d', v, full, id);
    BodyOkPrefix(g, g', r, full);
    OthersBelowKeep(g, d, g', d', r.elems, id, r.elems - todo);
    OthersUnfolded(g, d, g', d', r, full, id, todo);
    AfterPresent(g, d, g', d', v, full, id);
  }

  lemma AfterPresent(g: seq<Meta>, d: Arena, g': seq<Meta>, d': Arena, v: set<ElemId>, full: bool, id: ElemId)
    requires id < |g| && ScopePresent(g, d, v, full) && ScopePresent(g', d', g[id].leaves, g[id].loop)
    requires Grown(g, d, g', d', g[id].leaves, g[id].loop)
    ensures ScopePresent(g', d', v, full)
  {
    forall y: nat | InScope(g', v, full, y)
      ensures Present(d', y)
    {
      if y < |d| && !InScope(g, g[id].leaves, g[id].loop, y) {
        assert InScope(g, v, full, y);
      } else {
        assert InScope(g', g[id].leaves, g[id].loop, y);
      }
    }
  }

  /** A part of what lies below element `id`, without `id` itself. */
  ghost predicate PartOf(g: seq<Meta>, id: ElemId, w: set<ElemId>, wfull: bool)
    requires id < |g|
  {
    w <= g[id].leaves && (w == g[id].leaves ==> g[id].loop && !wfull)
  }

  lemma PartScope(g: seq<Meta>, id: ElemId, w: set<ElemId>, wfull: bool, y: ElemId)
    requires Known(g, id) && PartOf(g, id, w, wfull) && InScope(g, w, wfull, y)
    ensures y != id && InScope(g, g[id].leaves, g[id].loop, y)
  {
  }

  lemma CheckedOut(cfg: Cfg, g: seq<Meta>, d: Arena, id: ElemId, w: set<ElemId>, wfull: bool)
    requires ArenaOk(cfg, g, d) && Present(d, id) && Known(g, id) && PartOf(g, id, w, wfull)
    requires ScopePresent(g, d, g[id].leaves, g[id].loop) && Unfolded(g, d, g[id].leaves, g[id].loop)
    ensures ArenaOk(cfg, g, d[id := None])
    ensures ScopePresent(g, d[id := None], w, wfull) && Unfolded(g, d[id := None], w, wfull)
  {
    var d0 := d[id := None];
    forall y | 0 <= y < |d|
      ensures ElemAt(cfg, g, d0, y)
    {
      assert ElemAt(cfg, g, d, y);
    }
    forall y: nat | InScope(g, w, wfull, y)
      ensures y != id && InScope(g, g[id].leaves, g[id].loop, y) && UnfoldedAt(g, d0, y)
    {
      PartScope(g, id, w, wfull, y);
      assert UnfoldedAt(g, d, y);
    }
  }

  /** From the arena `d` with `id` checked out, parts below `id` were worked on. */
  ghost predicate WorkedBelow(g: seq<Meta>, d: Arena, g1: seq<Meta>, d1: Arena, id: ElemId)
    requires id < |g|
  {
    && |d| == |g| && |d1| == |g1| && g <= g1
    && (forall y: nat :: y < |d| && y != id && !InScope(g, g[id].leaves, g[id].loop, y) ==> d1[y] == d[y])
    && (forall y: nat :: |d| <= y < |d1| ==> InScope(g1, g[id].leaves, g[id].loop, y))
    && d1[id].None?
    && (forall y: nat :: InScope(g1, g[id].leaves, g[id].loop, y) && y != id ==> Present(d1, y))
  }

  lemma WorkStarts(g: seq<Meta>, d: Arena, id: ElemId)
    requires |d| == |g| && Present(d, id) && ScopePresent(g, d, g[id].leaves, g[id].loop)
    ensures WorkedBelow(g, d, g, d[id := None], id)
  {
  }

  lemma WorkGoesOn(g: seq<Meta>, d: Arena, g1: seq<Meta>, d1: Arena, g2: seq<Meta>, d2: Arena, id: ElemId, w: set<ElemId>, wfull: bool)
    requires Known(g, id) && PartOf(g, id, w, wfull)
    requires WorkedBelow(g, d, g1, d1, id)
    requires Grown(g1, d1, g2, d2, w, wfull) && ScopePresent(g2, d2, w, wfull)
    ensures WorkedBelow(g, d, g2, d2, id)
  {
    forall y: nat | y < |g2| && InScope(g2, w, wfull, y)
      ensures y != id && InScope(g2, g2[id].leaves, g2[id].loop, y)
    {
      PartScope(g2, id, w, wfull, y);
    }
    assert !InScope(g1, w, wfull, id) by {
      if InScope(g1, w, wfull, id) {
        PartScope(g1, id, w, wfull, id);
      }
    }
    forall y: nat | y < |d| && y != id && !InScope(g, g[id].leaves, g[id].loop, y)
      ensures d2[y] == d[y]
    {
      if InScope(g1, w, wfull, y) {
        PartScope(g1, id, w, wfull, y);
      }
    }
    forall y: nat | InScope(g2, g[id].leaves, g[id].loop, y) && y != id
      ensures Present(d2, y)
    {
      if !InScope(g2, w, wfull, y) {
        assert y < |d1| && !InScope(g1, w, wfull, y);
        assert InScope(g1, g[id].leaves, g[id].loop, y);
      }
    }
    forall y: nat | |d| <= y < |d2|
      ensures InScope(g2, g[id].leaves, g[id].loop, y)
    {
      if y < |d1| {
        assert InScope(g1, g[id].leaves, g[id].loop, y);
      }
    }
  }

  lemma FinishArena(cfg: Cfg, g: seq<Meta>, d: Arena, id: ElemId, e: Elem)
    requires ArenaOk(cfg, g, d) && id < |d| && ElemOk(cfg, g, id, e)
    ensures ArenaOk(cfg, g, d[id := Some(e)])
  {
    var d' := d[id := Some(e)];
    forall y | 0 <= y < |d'|
      ensures ElemAt(cfg, g, d', y)
    {
      assert ElemAt(cfg, g, d, y);
    }
  }

  lemma WorkReleased(g: seq<Meta>, d: Arena, g1: seq<Meta>, d1: Arena, id: ElemId, elem: Elem)
    requires Known(g, id) && WorkedBelow(g, d, g1, d1, id)
    requires Present(d, id)
    ensures Grown(g, d, g1, d1[id := Some(elem)], g[id].leaves, g[id].loop)
    ensures ScopePresent(g1, d1[id := Some(elem)], g[id].leaves, g[id].loop)
  {
  }

  lemma IfParts(cfg: Cfg, g: seq<Meta>, id: ElemId, e: Elem)
    requires ElemOk(cfg, g, id, e) && e.detail.If?
    ensures PartOf(g, id, LeavesOf(g, e.detail.thenBody.elems), true)
    ensures e.detail.elseBody.Some? ==> PartOf(g, id, LeavesOf(g, e.detail.elseBody.value.elems), true)
  {
  }

  /** An if with folded arms. */
  lemma IfRebuilt(cfg: Cfg, g: seq<Meta>, h: seq<Meta>, id: ElemId, e: Elem, thenBody: Body, elseBody: Option<Body>)
    requires g <= h && e.detail.If? && ElemHead(cfg, g, id, e) && !g[id].loop && |e.exits| == 1
    requires IfSplit(cfg, g, e, g[id].leaves, thenBody.entry, LeavesOf(h, thenBody.elems),
                     if elseBody.Some? then elseBody.value.entry else e.exits[0], ElseLeaves(h, elseBody))
    requires BodyOk(h, thenBody, true)
    requires elseBody.Some? ==> BodyOk(h, elseBody.value, true)
    ensures ElemOk(cfg, h, id, e.(detail := If(e.detail.inverted, thenBody, elseBody)))
  {
  }

  lemma LoopRebuilt(cfg: Cfg, g: seq<Meta>, h: seq<Meta>, id: ElemId, e: Elem, body: Body)
    requires g <= h && e.detail.Loop? && ElemHead(cfg, g, id, e) && LoopHead(g, id, e, body.entry)
    requires BodyOk(h, body, false)
    requires LeavesOf(h, body.elems) == g[id].leaves
    ensures ElemOk(cfg, h, id, e.(detail := Loop(e.detail.backedges, body)))
  {
  }

  /** Work below one member leaves the other members folded. */
  lemma OthersBelowKeep(g: seq<Meta>, d: Arena, g': seq<Meta>, d': Arena, members: set<ElemId>, id: ElemId, s: set<ElemId>)
    requires MembersOk(g, members) && id in members && s <= members && id !in s
    requires Grown(g, d, g', d', g[id].leaves, g[id].loop) && AllBelow(g, d, s)
    ensures AllBelow(g', d', s)
  {
    forall x | x in s
      ensures FoldedBelow(g', d', x)
    {
      assert FoldedBelow(g, d, x);
      BelowKeepsApart(g, d, g', d', g[id].leaves, g[id].loop, x);
    }
  }

  lemma BelowKeepsApart(g: seq<Meta>, d: Arena, g': seq<Meta>, d': Arena, v: set<ElemId>, full: bool, x: ElemId)
    requires FoldedBelow(g, d, x) && g[x].leaves !! v && Grown(g, d, g', d', v, full)
    ensures FoldedBelow(g', d', x)
  {
    forall y: nat | InScope(g, g[x].leaves, g[x].loop, y)
      ensures d'[y] == d[y]
    {
      var b :| b in g[y].leaves;
      assert b in g[x].leaves && b !in v;
      assert !InScope(g, v, full, y);
    }
    BelowKeeps(g, d, g', d', x);
  }

  /** Folding one arm leaves the other one folded. */
  lemma ArmStaysFolded(g: seq<Meta>, d: Arena, g': seq<Meta>, d': Arena, made: Body, arm: Body, w: set<ElemId>)
    requires BodyOk(g, arm, true) && Folds(g, made, {}, arm) && AllBelow(g, d, arm.elems)
    requires LeavesOf(g, arm.elems) !! w && Grown(g, d, g', d', w, true)
    ensures Folds(g', made, {}, arm) && AllBelow(g', d', arm.elems)
  {
    FoldsKeeps(g, g', made, {}, arm);
    forall x | x in arm.elems
      ensures FoldedBelow(g', d', x)
    {
      MemberLeaves(g, arm.elems, x);
      assert FoldedBelow(g, d, x);
      BelowKeepsApart(g, d, g', d', w, true, x);
    }
  }

  lemma LoopBelow(g: seq<Meta>, d: Arena, d': Arena, id: ElemId, e: Elem)
    requires |d| == |g| && Known(g, id) && d[id].None? && d' == d[id := Some(e)] && e.detail.Loop? && SameKind(g[id].made, e)
    requires BodyOk(g, e.detail.body, false) && LeavesOf(g, e.detail.body.elems) == g[id].leaves
    requires Folds(g, g[id].made.detail.body, e.detail.backedges, e.detail.body) && AllBelow(g, d, e.detail.body.elems)
    ensures FoldedBelow(g, d', id)
  {
    MembersWithin(g, id, e.detail.body, false);
    ReleasedAbove(g, d, d', id, e.detail.body.elems);
  }

  ghost predicate ArmsFolded(g: seq<Meta>, d: Arena, made: Elem, e: Elem)
    requires made.detail.If? && e.detail.If? && made.detail.elseBody.Some? == e.detail.elseBody.Some?
  {
    && Folds(g, made.detail.thenBody, {}, e.detail.thenBody) && AllBelow(g, d, e.detail.thenBody.elems)
    && (e.detail.elseBody.Some? ==>
          Folds(g, made.detail.elseBody.value, {}, e.detail.elseBody.value) && AllBelow(g, d, e.detail.elseBody.value.elems))
  }

  lemma IfBelow(cfg: Cfg, g: seq<Meta>, d: Arena, d': Arena, id: ElemId, e: Elem)
    requires |d| == |g| && Known(g, id) && d[id].None? && d' == d[id := Some(e)] && e.detail.If? && ElemOk(cfg, g, id, e)
    requires g[id].made.detail.elseBody.Some? == e.detail.elseBody.Some? && ArmsFolded(g, d, g[id].made, e)
    ensures FoldedBelow(g, d', id)
  {
    IfParts(cfg, g, id, e);
    MembersWithin(g, id, e.detail.thenBody, true);
    ReleasedAbove(g, d, d', id, e.detail.thenBody.elems);
    if e.detail.elseBody.Some? {
      MembersWithin(g, id, e.detail.elseBody.value, true);
      ReleasedAbove(g, d, d', id, e.detail.elseBody.value.elems);
    }
  }

  // ------------------------------------------------------------------------
  // Folding below one element.

  lemma ElemKnown(cfg: Cfg, g: seq<Meta>, d: Arena, id: ElemId)
    requires ArenaOk(cfg, g, d) && AllBare(d) && Present(d, id)
    ensures ElemOk(cfg, g, id, d[id].value) && Bare(d[id].value) && AllBare(d[id := None])
  {
    assert ElemAt(cfg, g, d, id) && BareAt(d, id);
    UpdateBare(d, id, None);
  }

  lemma IfPartsAt(cfg: Cfg, g: seq<Meta>, d: Arena, id: ElemId)
    requires ArenaOk(cfg, g, d) && Present(d, id) && d[id].value.detail.If?
    ensures var e := d[id].value;
      && PartOf(g, id, LeavesOf(g, e.detail.thenBody.elems), true)
      && (e.detail.elseBody.Some? ==> PartOf(g, id, LeavesOf(g, e.detail.elseBody.value.elems), true))
  {
    assert ElemAt(cfg, g, d, id);
    IfParts(cfg, g, id, d[id].value);
  }

  /** With the folded bodies in it the element goes back to the arena. */
  ghost predicate Returned(cfg: Cfg, g: seq<Meta>, d: Arena, g': seq<Meta>, d': Arena, id: ElemId)
    requires id < |g|
  {
    && ArenaOk(cfg, g', d') && AllBare(d')
    && Grown(g, d, g', d', g[id].leaves, g[id].loop)
    && ScopePresent(g', d', g[id].leaves, g[id].loop)
    && FoldedBelow(g', d', id)
  }

  lemma LoopReturned(cfg: Cfg, g: seq<Meta>, d: Arena, g1: seq<Meta>, d1: Arena, id: ElemId, e: Elem, body: Body, e': Elem, d': Arena)
    requires ArenaOk(cfg, g, d) && AllBare(d) && id < |d| && d[id] == Some(e) && e.detail.Loop?
    requires WorkedBelow(g, d, g1, d1, id) && ArenaOk(cfg, g1, d1) && AllBare(d1)
    requires e' == e.(detail := Loop(e.detail.backedges, body)) && d' == d1[id := Some(e')]
    requires BodyOk(g1, body, false) && LeavesOf(g1, body.elems) == g[id].leaves
    requires body.entry == e.detail.body.entry && body.layout == []
    requires e == g[id].made && Folds(g1, e.detail.body, e.detail.backedges, body) && AllBelow(g1, d1, body.elems)
    ensures Returned(cfg, g, d, g1, d', id)
  {
    ElemKnown(cfg, g, d, id);
    LoopRebuilt(cfg, g, g1, id, e, body);
    LoopBelow(g1, d1, d', id, e');
    FinishArena(cfg, g1, d1, id, e');
    WorkReleased(g, d, g1, d1, id, e');
    UpdateBare(d1, id, Some(e'));
  }

  lemma IfReturned(cfg: Cfg, g: seq<Meta>, d: Arena, g1: seq<Meta>, d1: Arena, id: ElemId, e: Elem, arm: Body, other: Option<Body>, e': Elem, d': Arena)
    requires ArenaOk(cfg, g, d) && AllBare(d) && id < |d| && d[id] == Some(e) && e.detail.If?
    requires WorkedBelow(g, d, g1, d1, id) && ArenaOk(cfg, g1, d1) && AllBare(d1)
    requires e' == e.(detail := If(e.detail.inverted, arm, other)) && d' == d1[id := Some(e')]
    requires SameArm(g, g1, e.detail.thenBody, arm)
    requires other.Some? == e.detail.elseBody.Some? && (other.Some? ==> SameArm(g, g1, e.detail.elseBody.value, other.value))
    requires e == g[id].made && ArmsFolded(g1, d1, e, e')
    ensures Returned(cfg, g, d, g1, d', id)
  {
    ElemKnown(cfg, g, d, id);
    IfRebuilt(cfg, g, g1, id, e, arm, other);
    IfBelow(cfg, g1, d1, d', id, e');
    FinishArena(cfg, g1, d1, id, e');
    WorkReleased(g, d, g1, d1, id, e');
    UpdateBare(d1, id, Some(e'));
  }

  ghost predicate SameArm(g: seq<Meta>, g': seq<Meta>, arm: Body, arm': Body) {
    BodyOk(g', arm', true) && LeavesOf(g', arm'.elems) == LeavesOf(g, arm.elems) && arm'.entry == arm.entry && arm'.layout == []
  }

  lemma ElseReady(cfg: Cfg, g: seq<Meta>, d: Arena, g1: seq<Meta>, d1: Arena, id: ElemId, arm: Body, other: Body)
    requires ArenaOk(cfg, g, d) && Present(d, id) && d[id].value.detail.If?
    requires d[id].value.detail.thenBody == arm && d[id].value.detail.elseBody == Some(other)
    requires ScopePresent(g, d, g[id].leaves, g[id].loop) && Unfolded(g, d, g[id].leaves, g[id].loop)
    requires Grown(g, d[id := None], g1, d1, LeavesOf(g, arm.elems), true)
    ensures BodyOk(g1, other, true) && LeavesOf(g1, other.elems) == LeavesOf(g, other.elems)
    ensures ScopePresent(g1, d1, LeavesOf(g, other.elems), true) && Unfolded(g1, d1, LeavesOf(g, other.elems), true)
  {
    var w, w2 := LeavesOf(g, arm.elems), LeavesOf(g, other.elems);
    assert ElemAt(cfg, g, d, id);
    IfPartsAt(cfg, g, d, id);
    CheckedOut(cfg, g, d, id, w2, true);
    ApartScopes(g, d[id := None], g1, d1, w, true, w2, true);
    BodyOkPrefix(g, g1, other, true);
  }

  lemma ElseFolded(cfg: Cfg, g: seq<Meta>, d: Arena, id: ElemId, g1: seq<Meta>, d1: Arena, g2: seq<Meta>, d2: Arena,
                   arm: Body, arm': Body, other: Body)
    requires ArenaOk(cfg, g, d) && Present(d, id) && d[id].value.detail.If?
    requires d[id].value.detail.thenBody == arm && d[id].value.detail.elseBody == Some(other)
    requires WorkedBelow(g, d, g1, d1, id) && SameArm(g, g1, arm, arm')
    requires Folds(g1, arm, {}, arm') && AllBelow(g1, d1, arm'.elems)
    requires Grown(g1, d1, g2, d2, LeavesOf(g, other.elems), true) && ScopePresent(g2, d2, LeavesOf(g, other.elems), true)
    ensures WorkedBelow(g, d, g2, d2, id) && SameArm(g, g2, arm, arm')
    ensures Folds(g2, arm, {}, arm') && AllBelow(g2, d2, arm'.elems)
  {
    var w2 := LeavesOf(g, other.elems);
    assert ElemAt(cfg, g, d, id);
    IfPartsAt(cfg, g, d, id);
    WorkGoesOn(g, d, g1, d1, g2, d2, id, w2, true);
    ArmStaysFolded(g1, d1, g2, d2, arm, arm', w2);
    BodyOkPrefix(g1, g2, arm', true);
  }
}
