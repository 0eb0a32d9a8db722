/** The whole structure: fold one body, then the bodies below it
    (dis86/src/decompile/control_flow.rs, infer_structure). */
module Inference {
  import opened Wrappers
  import opened ControlFlow
  import opened Ownership
  import opened Dfs
  import opened FirstCycle
  import opened Structure
  import opened Steps
  import opened Scopes

  /** What holds while the body `first` is folded, to `b` so far, in an arena that was `d0`. */
  ghost predicate FoldingTo(cfg: Cfg, g0: seq<Meta>, d0: Arena, g: seq<Meta>, d: Arena, first: Body, b: Body, v: set<ElemId>, full: bool) {
    && CfgOk(cfg) && ArenaOk(cfg, g, d) && AllBare(d) && BodyOk(g, b, full) && HoldsBlocks(g, b.elems, v)
    && ScopePresent(g, d, v, full) && Unfolded(g, d, v, full)
    && Grown(g0, d0, g, d, v, full)
    && b.entry == first.entry && b.layout == first.layout
    && Graph(b, {}, d).Ok() && Present(d, b.entry)
  }

  /** The same, said of any body that is `r`: a proof that needs it asks for it (`FoldingIs`). */
  ghost predicate Folding(cfg: Cfg, g0: seq<Meta>, d0: Arena, g: seq<Meta>, d: Arena, first: Body, r: Body, v: set<ElemId>, full: bool) {
    forall b {:trigger FoldingTo(cfg, g0, d0, g, d, first, b, v, full)} :: b == r ==> FoldingTo(cfg, g0, d0, g, d, first, b, v, full)
  }

  lemma FoldingIs(cfg: Cfg, g0: seq<Meta>, d0: Arena, g: seq<Meta>, d: Arena, first: Body, r: Body, v: set<ElemId>, full: bool)
    requires Folding(cfg, g0, d0, g, d, first, r, v, full)
    ensures FoldingTo(cfg, g0, d0, g, d, first, r, v, full)
  {
  }

  lemma FoldingStarts(cfg: Cfg, g: seq<Meta>, d: Arena, body: Body, v: set<ElemId>, full: bool)
    requires CfgOk(cfg) && ArenaOk(cfg, g, d) && AllBare(d) && BodyOk(g, body, full) && HoldsBlocks(g, body.elems, v)
    requires ScopePresent(g, d, v, full) && Unfolded(g, d, v, full)
    ensures Folding(cfg, g, d, g, d, body, body, v, full)
  {
    BlocksAre(g, body.elems, v);
    ScopeGivesGraph(g, d, body, full, {});
  }

  lemma FoldingEnds(cfg: Cfg, g0: seq<Meta>, d0: Arena, g: seq<Meta>, d: Arena, first: Body, r: Body, v: set<ElemId>, full: bool)
    requires Folding(cfg, g0, d0, g, d, first, r, v, full)
    ensures CfgOk(cfg) && ArenaOk(cfg, g, d) && AllBare(d) && BodyOk(g, r, full) && HoldsBlocks(g, r.elems, v)
    ensures ScopePresent(g, d, v, full) && Unfolded(g, d, v, full) && Grown(g0, d0, g, d, v, full)
    ensures r.entry == first.entry && r.layout == first.layout
  {
    FoldingIs(cfg, g0, d0, g, d, first, r, v, full);
  }

  lemma FoldingGoesOn(cfg: Cfg, g0: seq<Meta>, d0: Arena, g: seq<Meta>, d: Arena, g': seq<Meta>, d': Arena,
                      first: Body, body: Body, r: Body, v: set<ElemId>, full: bool)
    requires Folding(cfg, g0, d0, g, d, first, body, v, full)
    requires ArenaOk(cfg, g', d') && AllBare(d') && BodyOk(g', r, full) && HoldsBlocks(g', r.elems, v)
    requires ScopePresent(g', d', v, full) && Unfolded(g', d', v, full) && Grown(g, d, g', d', v, full)
    requires r.entry == body.entry && r.layout == body.layout
    ensures Folding(cfg, g0, d0, g', d', first, r, v, full)
  {
    FoldingIs(cfg, g0, d0, g, d, first, body, v, full);
    GrownTrans(g0, d0, g, d, g', d', v, full);
    BlocksAre(g', r.elems, v);
    ScopeGivesGraph(g', d', r, full, {});
  }

  lemma LoopWithin(cfg: Cfg, g: seq<Meta>, d: Arena, id: ElemId)
    requires ArenaOk(cfg, g, d) && Present(d, id) && d[id].value.detail.Loop? && g[id].loop
    ensures AllWithin(g, id, d[id].value.detail.body.elems)
  {
    assert ElemAt(cfg, g, d, id);
    MembersWithin(g, id, d[id].value.detail.body, false);
  }

  lemma HeaderWithin(cfg: Cfg, g: seq<Meta>, d: Arena, id: ElemId)
    requires ArenaOk(cfg, g, d) && Present(d, id) && d[id].value.detail.If?
    ensures Within(g, id, d[id].value.entry)
  {
    assert ElemAt(cfg, g, d, id);
    var h, arm := d[id].value.entry, d[id].value.detail.thenBody;
    assert g[h] == BlockMeta(cfg, h);
    var b :| b in g[arm.entry].leaves;
    assert b in LeavesOf(g, arm.elems) && b in g[id].leaves && b != h;
  }

  lemma IfWithin(cfg: Cfg, g: seq<Meta>, d: Arena, id: ElemId, out: set<ElemId>)
    requires ArenaOk(cfg, g, d) && Present(d, id) && d[id].value.detail.If?
    requires out == {d[id].value.entry} + d[id].value.detail.thenBody.elems + ArmSet(d[id].value.detail.elseBody)
    ensures AllWithin(g, id, out)
  {
    HeaderWithin(cfg, g, d, id);
    ArmsWithin(cfg, g, d, id);
  }

  lemma ArmsWithin(cfg: Cfg, g: seq<Meta>, d: Arena, id: ElemId)
    requires ArenaOk(cfg, g, d) && Present(d, id) && d[id].value.detail.If?
    ensures AllWithin(g, id, d[id].value.detail.thenBody.elems) && AllWithin(g, id, ArmSet(d[id].value.detail.elseBody))
  {
    assert ElemAt(cfg, g, d, id);
    var e := d[id].value;
    IfPartsAt(cfg, g, d, id);
    MembersWithin(g, id, e.detail.thenBody, true);
    if e.detail.elseBody.Some? {
      MembersWithin(g, id, e.detail.elseBody.value, true);
    }
  }

  lemma LoopFoldGoesOn(cfg: Cfg, g0: seq<Meta>, d0: Arena, g: seq<Meta>, d: Arena, first: Body, body: Body, v: set<ElemId>, full: bool,
                       exclude: set<ElemId>, done: set<(seq<ElemId>, nat)>, lp: LoopShape, exits: seq<ElemId>,
                       g': seq<Meta>, d': Arena, r: Body)
    requires Folding(cfg, g0, d0, g, d, first, body, v, full) && (!full ==> exclude * body.elems != {})
    requires LoopFolded(g, d, body, lp, exits, g', d', r)
    requires Graph(body, exclude, d).Ok() && Graph(body, exclude, d).SimplePath([body.entry])
    requires LoopFound(Graph(body, exclude, d), body.entry, done, lp) && FirstFrom(Graph(body, exclude, d), [body.entry], 0) == Some(lp.entry)
    requires ArenaOk(cfg, g', d') && AllBare(d') && BodyOk(g', r, full) && HoldsBlocks(g', r.elems, v)
    ensures Folding(cfg, g0, d0, g', d', first, r, v, full) && (!full ==> exclude * r.elems != {})
    ensures LoopsTo(g', exclude, [body, r], [|g|])
    ensures Graph(r, exclude, d').Ok() && Smaller(Graph(r, exclude, d'), Graph(body, exclude, d))
  {
    FoldingIs(cfg, g0, d0, g, d, first, body, v, full);
    AfterLoopFold(cfg, g, d, body, full, exclude, done, lp, exits, g', d', r, v);
    FoldingGoesOn(cfg, g0, d0, g, d, g', d', first, body, r, v, full);
    LoopWithin(cfg, g', d', |g|);
    NewLoop(cfg, g, d, body, full, exclude, lp, exits, g', d', r);
  }

  lemma IfFoldGoesOn(cfg: Cfg, g0: seq<Meta>, d0: Arena, g: seq<Meta>, d: Arena, first: Body, body: Body, v: set<ElemId>, full: bool,
                     f: IfShape, arm: Body, other: Option<Body>, g': seq<Meta>, d': Arena, r: Body)
    requires Folding(cfg, g0, d0, g, d, first, body, v, full)
    requires Graph(body, {}, d).Ok() && ChosenIf(body, d, f) && IfFolded(g, d, body, f, arm, other, g', d', r)
    requires ArenaOk(cfg, g', d') && AllBare(d') && BodyOk(g', r, full) && HoldsBlocks(g', r.elems, v)
    ensures Folding(cfg, g0, d0, g', d', first, r, v, full)
    ensures IfsTo(g', [body, r], [|g|])
  {
    FoldingIs(cfg, g0, d0, g, d, first, body, v, full);
    AfterIfFold(g, d, body, full, f, arm, other, g', d', r, v);
    FoldingGoesOn(cfg, g0, d0, g, d, g', d', first, body, r, v, full);
    IfWithin(cfg, g', d', |g|, IfOut(f, arm, other));
    NewIf(cfg, g, d, body, full, f, arm, other, g', d', r);
  }

  lemma NoLoopLeft(cfg: Cfg, g0: seq<Meta>, d0: Arena, g: seq<Meta>, d: Arena, first: Body, body: Body, v: set<ElemId>, full: bool,
                   exclude: set<ElemId>, done: set<(seq<ElemId>, nat)>)
    requires Folding(cfg, g0, d0, g, d, first, body, v, full)
    requires AllSteps(Graph(body, exclude, d), body.entry, done) && Gathered(Graph(body, exclude, d), done, None)
    ensures Acyclic(Graph(body, exclude, Made(g)), body.entry)
  {
    FoldingIs(cfg, g0, d0, g, d, first, body, v, full);
    NoneLeft(Graph(body, exclude, d), body.entry, done);
    MatchesMade(cfg, g, d, g, body, exclude);
    AcyclicSame(Graph(body, exclude, d), Graph(body, exclude, Made(g)), body.entry);
  }

  lemma NoIfLeft(cfg: Cfg, g0: seq<Meta>, d0: Arena, g: seq<Meta>, d: Arena, first: Body, body: Body, v: set<ElemId>, full: bool)
    requires Folding(cfg, g0, d0, g, d, first, body, v, full)
    requires Graph(body, {}, d).Ok() && forall f :: !IsIf(body, d, f)
    ensures NoIfs(body, Made(g))
  {
    FoldingIs(cfg, g0, d0, g, d, first, body, v, full);
    MatchesMade(cfg, g, d, g, body, {});
    NoIfsSame(body, d, Made(g));
  }

  method InferLoops(body: Body, exclude: set<ElemId>, data: ControlFlowData, ghost v: set<ElemId>, ghost full: bool)
    returns (r: Body, ghost bs: seq<Body>, ghost ids: seq<ElemId>)
    requires Folding(data.cfg, data.meta, data.elems, data.meta, data.elems, body, body, v, full)
    requires !full ==> exclude * body.elems != {}
    modifies data
    ensures Folding(data.cfg, old(data.meta), old(data.elems), data.meta, data.elems, body, r, v, full)
    ensures LoopsTo(data.meta, exclude, bs, ids) && bs[0] == body && LastOf(bs) == r
    ensures r.entry == body.entry && old(data.meta) <= data.meta && Acyclic(Graph(r, exclude, Made(data.meta)), r.entry)
  {
    r, bs, ids := body, [body], [];
    ghost var g0, d0 := data.meta, data.elems;
    var found := true;
    GraphIsOk(data.cfg, g0, d0, g0, d0, body, body, v, full, exclude);
    while found
      invariant Folding(data.cfg, g0, d0, data.meta, data.elems, body, r, v, full) && Graph(r, exclude, data.elems).Ok()
      invariant (!full ==> exclude * r.elems != {}) && r.entry == body.entry && g0 <= data.meta
      invariant LoopsTo(data.meta, exclude, bs, ids) && bs[0] == body && LastOf(bs) == r
      invariant !found ==> Acyclic(Graph(r, exclude, Made(data.meta)), r.entry)
      modifies data
      decreases found, |r.elems|, |SelfEdges(Graph(r, exclude, data.elems))|
    {
      ghost var g := data.meta;
      r, found := InferNextLoop(r, exclude, data, v, full, g0, d0, body);
      if found {
        OneMoreLoop(g, data.meta, exclude, bs, ids, r, |g|);
        bs, ids := bs + [r], ids + [|g|];
      }
    }
  }

  lemma GraphIsOk(cfg: Cfg, g0: seq<Meta>, d0: Arena, g: seq<Meta>, d: Arena, first: Body, r: Body, v: set<ElemId>, full: bool, exclude: set<ElemId>)
    requires Folding(cfg, g0, d0, g, d, first, r, v, full)
    ensures Graph(r, exclude, d).Ok()
  {
    FoldingIs(cfg, g0, d0, g, d, first, r, v, full);
  }

  method InferNextLoop(body: Body, exclude: set<ElemId>, data: ControlFlowData, ghost v: set<ElemId>, ghost full: bool,
                       ghost g0: seq<Meta>, ghost d0: Arena, ghost first: Body)
    returns (r: Body, found: bool)
    requires Folding(data.cfg, g0, d0, data.meta, data.elems, first, body, v, full)
    requires Graph(body, exclude, data.elems).Ok() && (!full ==> exclude * body.elems != {})
    modifies data
    ensures Folding(data.cfg, g0, d0, data.meta, data.elems, first, r, v, full)
    ensures Graph(r, exclude, data.elems).Ok() && (!full ==> exclude * r.elems != {}) && old(data.meta) <= data.meta && r.entry == body.entry
    ensures !found ==> r == body && data.meta == old(data.meta) && Acyclic(Graph(r, exclude, Made(data.meta)), r.entry)
    ensures found ==> LoopsTo(data.meta, exclude, [body, r], [old(|data.meta|)])
    ensures found ==> Smaller(Graph(r, exclude, data.elems), old(Graph(body, exclude, data.elems)))
  {
    ghost var g, d := data.meta, data.elems;
    FoldingIs(data.cfg, g0, d0, g, d, first, body, v, full);
    ghost var done, lp, exits;
    r, found, done, lp, exits := InferLoop(body, exclude, data, v, full);
    if found {
      LoopFoldGoesOn(data.cfg, g0, d0, g, d, first, body, v, full, exclude, done, lp.value, exits, data.meta, data.elems, r);
    } else {
      NoLoopLeft(data.cfg, g0, d0, g, d, first, body, v, full, exclude, done);
    }
  }

  method InferIfs(body: Body, data: ControlFlowData, ghost v: set<ElemId>, ghost full: bool, ghost g0: seq<Meta>, ghost d0: Arena, ghost first: Body)
    returns (r: Body, ghost bs: seq<Body>, ghost ids: seq<ElemId>)
    requires Folding(data.cfg, g0, d0, data.meta, data.elems, first, body, v, full)
    modifies data
    ensures Folding(data.cfg, g0, d0, data.meta, data.elems, first, r, v, full) && old(data.meta) <= data.meta
    ensures IfsTo(data.meta, bs, ids) && bs[0] == body && LastOf(bs) == r && NoIfs(r, Made(data.meta))
  {
    r, bs, ids := body, [body], [];
    var found := true;
    while found
      invariant Folding(data.cfg, g0, d0, data.meta, data.elems, first, r, v, full) && old(data.meta) <= data.meta
      invariant IfsTo(data.meta, bs, ids) && bs[0] == body && LastOf(bs) == r
      invariant !found ==> NoIfs(r, Made(data.meta))
      modifies data
      decreases found, |r.elems|
    {
      ghost var g := data.meta;
      r, found := InferNextIf(r, data, v, full, g0, d0, first);
      if found {
        OneMoreIf(g, data.meta, bs, ids, r, |g|);
        bs, ids := bs + [r], ids + [|g|];
      }
    }
  }

  method InferNextIf(body: Body, data: ControlFlowData, ghost v: set<ElemId>, ghost full: bool, ghost g0: seq<Meta>, ghost d0: Arena, ghost first: Body)
    returns (r: Body, found: bool)
    requires Folding(data.cfg, g0, d0, data.meta, data.elems, first, body, v, full)
    modifies data
    ensures Folding(data.cfg, g0, d0, data.meta, data.elems, first, r, v, full) && old(data.meta) <= data.meta
    ensures !found ==> r == body && data.meta == old(data.meta) && NoIfs(r, Made(data.meta))
    ensures found ==> IfsTo(data.meta, [body, r], [old(|data.meta|)]) && |r.elems| < |body.elems|
  {
    ghost var g, d := data.meta, data.elems;
    FoldingIs(data.cfg, g0, d0, g, d, first, body, v, full);
    ghost var f, arm, other;
    r, found, f, arm, other := InferIf(body, data, v, full);
    if found {
      IfFoldGoesOn(data.cfg, g0, d0, g, d, first, body, v, full, f, arm, other, data.meta, data.elems, r);
    } else {
      NoIfLeft(data.cfg, g0, d0, g, d, first, body, v, full);
    }
  }

  lemma FoldedHere(cfg: Cfg, g0: seq<Meta>, d0: Arena, g1: seq<Meta>, g2: seq<Meta>, d2: Arena, body: Body, exclude: set<ElemId>,
                   mid: Body, r: Body, v: set<ElemId>, full: bool, h: History)
    requires Known(g0, body.entry) && g0 <= g1 <= g2 && mid.entry == body.entry
    requires LoopsTo(g1, exclude, h.loops, h.loopIds) && h.loops[0] == body && LastOf(h.loops) == mid
    requires Acyclic(Graph(mid, exclude, Made(g1)), mid.entry)
    requires IfsTo(g2, h.ifs, h.ifIds) && h.ifs[0] == mid && LastOf(h.ifs) == r && NoIfs(r, Made(g2))
    requires Folding(cfg, g0, d0, g2, d2, body, r, v, full)
    ensures Folds(g2, body, exclude, r)
    ensures CfgOk(cfg) && ArenaOk(cfg, g2, d2) && AllBare(d2) && BodyOk(g2, r, full) && HoldsBlocks(g2, r.elems, v)
    ensures ScopePresent(g2, d2, v, full) && Unfolded(g2, d2, v, full) && Grown(g0, d0, g2, d2, v, full)
    ensures r.entry == body.entry && r.layout == body.layout
  {
    FoldingEnds(cfg, g0, d0, g2, d2, body, r, v, full);
    FoldedInOrder(g1, g2, body, exclude, r, h);
  }

  method InferStructure(body: Body, exclude: Option<set<ElemId>>, data: ControlFlowData, ghost v: set<ElemId>) returns (r: Body)
    requires data.Valid() && BodyOk(data.meta, body, exclude.None?) && HoldsBlocks(data.meta, body.elems, v)
    requires ScopePresent(data.meta, data.elems, v, exclude.None?) && Unfolded(data.meta, data.elems, v, exclude.None?)
    requires exclude.Some? ==> exclude.value * body.elems != {}
    modifies data
    ensures data.Valid() && BodyOk(data.meta, r, exclude.None?) && HoldsBlocks(data.meta, r.elems, v)
    ensures ScopePresent(data.meta, data.elems, v, exclude.None?)
    ensures Grown(old(data.meta), old(data.elems), data.meta, data.elems, v, exclude.None?)
    ensures r.entry == body.entry && r.layout == body.layout
    ensures Folds(data.meta, body, if exclude.Some? then exclude.value else {}, r) && AllBelow(data.meta, data.elems, r.elems)
    decreases v, if exclude.None? then 7 else 3
  {
    ghost var full := exclude.None?;
    var avoid := if exclude.Some? then exclude.value else {};
    ghost var g0, d0 := data.meta, data.elems;
    ghost var loops, loopIds, ifs, ifIds;
    FoldingStarts(data.cfg, g0, d0, body, v, full);
    r, loops, loopIds := InferLoops(body, avoid, data, v, full);
    ghost var g1, mid := data.meta, r;
    r, ifs, ifIds := InferIfs(r, data, v, full, g0, d0, body);
    FoldedHere(data.cfg, g0, d0, g1, data.meta, data.elems, body, avoid, mid, r, v, full, History(loops, loopIds, ifs, ifIds));

    ghost var g2, d2 := data.meta, data.elems;
    MembersUnfolded(g2, d2, r, full, v);
    InferMembers(r, data, v, full);
    FoldsKeeps(g2, data.meta, body, avoid, r);
    GrownTrans(g0, d0, g2, d2, data.meta, data.elems, v, full);
  }

  /** Fold the bodies below each member, in any order. */
  method InferMembers(r: Body, data: ControlFlowData, ghost v: set<ElemId>, ghost full: bool)
    requires data.Valid() && BodyOk(data.meta, r, full) && HoldsBlocks(data.meta, r.elems, v)
    requires ScopePresent(data.meta, data.elems, v, full)
    requires AllUnfolded(data.meta, data.elems, r.elems)
    modifies data
    ensures data.Valid() && BodyOk(data.meta, r, full) && HoldsBlocks(data.meta, r.elems, v)
    ensures ScopePresent(data.meta, data.elems, v, full)
    ensures Grown(old(data.meta), old(data.elems), data.meta, data.elems, v, full)
    ensures AllBelow(data.meta, data.elems, r.elems)
    decreases v, if full then 6 else 2
  {
    var todo := r.elems;
    while todo != {}
      invariant todo <= r.elems
      invariant data.Valid() && BodyOk(data.meta, r, full) && HoldsBlocks(data.meta, r.elems, v)
      invariant ScopePresent(data.meta, data.elems, v, full)
      invariant Grown(old(data.meta), old(data.elems), data.meta, data.elems, v, full)
      invariant AllUnfolded(data.meta, data.elems, todo) && AllBelow(data.meta, data.elems, r.elems - todo)
      modifies data
      decreases todo
    {
      var id :| id in todo;
      ghost var g, d := data.meta, data.elems;
      InferMember(id, r, data, v, full, todo);
      todo := todo - {id};
      GrownTrans(old(data.meta), old(data.elems), g, d, data.meta, data.elems, v, full);
    }
  }

  method InferMember(id: ElemId, ghost r: Body, data: ControlFlowData, ghost v: set<ElemId>, ghost full: bool, ghost todo: set<ElemId>)
    requires data.Valid() && BodyOk(data.meta, r, full) && HoldsBlocks(data.meta, r.elems, v)
    requires ScopePresent(data.meta, data.elems, v, full)
    requires id in todo && todo <= r.elems && AllUnfolded(data.meta, data.elems, todo)
    requires AllBelow(data.meta, data.elems, r.elems - todo)
    modifies data
    ensures data.Valid() && BodyOk(data.meta, r, full) && HoldsBlocks(data.meta, r.elems, v)
    ensures ScopePresent(data.meta, data.elems, v, full)
    ensures Grown(old(data.meta), old(data.elems), data.meta, data.elems, v, full)
    ensures AllUnfolded(data.meta, data.elems, todo - {id}) && AllBelow(data.meta, data.elems, r.elems - (todo - {id}))
    decreases v, if full then 5 else 1
  {
    ghost var g, d := data.meta, data.elems;
    MemberPresent(g, d, r, full, v, id);
    assert UnfoldedBelow(g, d, id);
    InferElem(id, data);
    AfterElem(g, d, data.meta, data.elems, r, full, v, id, todo);
  }

  method InferInside(ghost id: ElemId, elem: Elem, data: ControlFlowData, ghost d: Arena) returns (elem': Elem)
    requires CfgOk(data.cfg) && AllBare(data.elems) && id < |d| && d[id] == Some(elem) && elem.detail.Loop? && data.elems == d[id := None]
    requires id < |data.meta| && elem == data.meta[id].made
    requires ArenaOk(data.cfg, data.meta, d) && AllBare(d) && WorkedBelow(data.meta, d, data.meta, data.elems, id)
    requires ScopePresent(data.meta, d, data.meta[id].leaves, data.meta[id].loop)
    requires Unfolded(data.meta, d, data.meta[id].leaves, data.meta[id].loop)
    modifies data
    ensures id < |data.elems| && data.elems[id].None?
    ensures Returned(data.cfg, old(data.meta), d, data.meta, data.elems[id := Some(elem')], id)
    decreases data.meta[id].leaves, if data.meta[id].loop then 4 else 0, 0
  {
    ghost var g := data.meta;
    var backedges, body := elem.detail.backedges, elem.detail.body;
    ElemKnown(data.cfg, g, d, id);
    assert InScope(g, g[id].leaves, g[id].loop, id) && UnfoldedAt(g, d, id);
    CheckedOut(data.cfg, g, d, id, g[id].leaves, false);
    LeavesAreBlocks(g, body.elems);
    var body' := InferStructure(body, Some(backedges), data, g[id].leaves);
    BlocksAre(data.meta, body'.elems, g[id].leaves);
    WorkGoesOn(g, d, g, d[id := None], data.meta, data.elems, id, g[id].leaves, false);
    elem' := elem.(detail := Loop(backedges, body'));
    LoopReturned(data.cfg, g, d, data.meta, data.elems, id, elem, body', elem', data.elems[id := Some(elem')]);
  }

  method InferElem(id: ElemId, data: ControlFlowData)
    requires data.Valid() && Present(data.elems, id)
    requires ScopePresent(data.meta, data.elems, data.meta[id].leaves, data.meta[id].loop)
    requires Unfolded(data.meta, data.elems, data.meta[id].leaves, data.meta[id].loop)
    modifies data
    ensures data.Valid()
    ensures ScopePresent(data.meta, data.elems, old(data.meta[id]).leaves, old(data.meta[id]).loop)
    ensures Grown(old(data.meta), old(data.elems), data.meta, data.elems, old(data.meta[id]).leaves, old(data.meta[id]).loop)
    ensures FoldedBelow(data.meta, data.elems, id)
    decreases data.meta[id].leaves, if data.meta[id].loop then 4 else 0
  {
    ghost var g, d := data.meta, data.elems;
    ElemKnown(data.cfg, g, d, id);
    assert InScope(g, g[id].leaves, g[id].loop, id) && UnfoldedAt(g, d, id);
    WorkStarts(g, d, id);
    var elem := data.Checkout(id);
    match elem.detail {
      case BasicBlock(_) =>
        data.Release(id, elem);
        assert data.elems == d;
      case Loop(backedges, body) =>
        var elem' := InferInside(id, elem, data, d);
        data.Release(id, elem');
      case If(inverted, thenBody, elseBody) =>
        var elem' := InferArms(id, elem, data, d);
        data.Release(id, elem');
    }
  }

  /** Fold the arms of the checked out if `elem`. */
  method InferArms(ghost id: ElemId, elem: Elem, data: ControlFlowData, ghost d: Arena) returns (elem': Elem)
    requires CfgOk(data.cfg) && AllBare(data.elems) && id < |d| && d[id] == Some(elem) && elem.detail.If? && data.elems == d[id := None]
    requires id < |data.meta| && elem == data.meta[id].made
    requires ArenaOk(data.cfg, data.meta, d) && AllBare(d) && WorkedBelow(data.meta, d, data.meta, data.elems, id)
    requires ScopePresent(data.meta, d, data.meta[id].leaves, data.meta[id].loop)
    requires Unfolded(data.meta, d, data.meta[id].leaves, data.meta[id].loop)
    modifies data
    ensures id < |data.elems| && data.elems[id].None?
    ensures Returned(data.cfg, old(data.meta), d, data.meta, data.elems[id := Some(elem')], id)
    decreases data.meta[id].leaves, if data.meta[id].loop then 4 else 0, 0
  {
    ghost var g := data.meta;
    var thenBody, elseBody := elem.detail.thenBody, elem.detail.elseBody;
    ElemKnown(data.cfg, g, d, id);
    IfPartsAt(data.cfg, g, d, id);
    ghost var w := LeavesOf(g, thenBody.elems);
    CheckedOut(data.cfg, g, d, id, w, true);
    LeavesAreBlocks(g, thenBody.elems);
    var thenBody' := InferStructure(thenBody, None, data, w);
    BlocksAre(data.meta, thenBody'.elems, w);
    ghost var g1, d1 := data.meta, data.elems;
    WorkGoesOn(g, d, g, d[id := None], g1, d1, id, w, true);
    var elseBody' := elseBody;
    if elseBody.Some? {
      ElseReady(data.cfg, g, d, g1, d1, id, thenBody, elseBody.value);
      ghost var w2 := LeavesOf(g, elseBody.value.elems);
      LeavesAreBlocks(data.meta, elseBody.value.elems);
      var other := InferStructure(elseBody.value, None, data, w2);
      BlocksAre(data.meta, other.elems, w2);
      ElseFolded(data.cfg, g, d, id, g1, d1, data.meta, data.elems, thenBody, thenBody', elseBody.value);
      elseBody' := Some(other);
    }
    elem' := elem.(detail := If(elem.detail.inverted, thenBody', elseBody'));
    IfReturned(data.cfg, g, d, data.meta, data.elems, id, elem, thenBody', elseBody', elem', data.elems[id := Some(elem')]);
  }
}
