/** The order of laying out a folded structure (dis86/src/decompile/control_flow.rs, schedule_layout_*),
    element by element. It completes exactly where every body below kept its entry and every if is met by what
    its arms are offered. */
module Scheduling {
  import opened Wrappers
  import opened ControlFlow
  import opened Ownership
  import opened Structure
  import opened Enclosing
  import opened Layout

  /** A loop goes on to the first of its exits that is still to be laid out. */
  method FirstAvail(exits: seq<ElemId>, parent: Parent, ghost g: seq<Meta>) returns (next: Option<ElemId>)
    requires parent.Ok(g) && forall i :: 0 <= i < |exits| ==> Known(g, exits[i])
    ensures Offered(parent, next)
    ensures |exits| == 1 ==> next == parent.ElemAvail(exits[0])
    ensures LoopChosen(parent, exits, next)
  {
    for n := 0 to |exits|
      invariant forall j :: 0 <= j < n ==> parent.ElemAvail(exits[j]).None?
    {
      AvailMeans(g, parent, exits[n]);
      next := parent.ElemAvail(exits[n]);
      if next.Some? {
        assert FirstOffered(parent, exits, next, n);
        return;
      }
    }
    next := None;
  }

  method ScheduleBody(body: Body, parent: Parent, data: ControlFlowData, ghost t: Task)
    returns (ok: bool, r: Body, next: Option<ElemId>, ghost fall: Falls)
    requires t == Task(data.cfg, data.meta, t.u, data.elems, t.fall, body, t.full, t.v, parent, t.run, t.n)
    requires Waiting(t) && body.layout == []
    modifies data`elems
    ensures ok ==> BodyDone(t, data.elems, fall, r, next)
    ensures ok <==> t.Completes()
    decreases t.v, if t.full then 7 else 3
  {
    r, fall, ok := body, t.fall, false;
    var remaining := body.elems;
    next := body.LookupFromId(body.entry);
    if next.None? { return; }
    BodyStarts(t, next.value);
    while remaining != {}
      invariant r == body.(layout := r.layout)
      invariant Underway(t, data.elems, fall, r.layout, remaining, next)
      decreases remaining
    {
      var cur;
      if next.Some? { cur := next.value; } else { cur := Least(remaining); }
      NextIsLeft(t, data.elems, fall, r.layout, remaining, next);
      assert cur in remaining;
      MemberReady(t, data.elems, fall, r.layout, remaining, next, cur);
      ghost var d, f, layout, was, before := data.elems, fall, r.layout, remaining, next;
      remaining := remaining - {cur};
      r := r.(layout := r.layout + [cur]);
      ok, next, fall := ScheduleElem(cur, Parent(r, remaining, parent), data, t.u, fall);
      if !ok { return; }
      ok := false;
      BodyGoesOn(t, d, f, layout, was, before, cur, data.elems, fall, next);
    }
    ok := true;
    BodyEnds(t, data.elems, fall, r.layout, next);
  }

  method ScheduleElem(id: ElemId, parent: Parent, data: ControlFlowData, ghost u: Arena, ghost fall: Falls)
    returns (ok: bool, next: Option<ElemId>, ghost fall': Falls)
    requires ElemReady(data.cfg, data.meta, u, data.elems, fall, id, parent) && Known(data.meta, id)
    modifies data`elems
    ensures ok ==> ElemDone(data.cfg, data.meta, u, old(data.elems), fall, data.elems, fall', id, parent, next)
    ensures ok <==> Lays(data.meta, u, id, parent)
    decreases data.meta[id].leaves, if data.meta[id].loop then 4 else 0
  {
    ghost var g, d := data.meta, data.elems;
    ElemStarts(data.cfg, g, u, d, fall, id, parent);
    var elem := data.Checkout(id);
    match elem.detail {
      case BasicBlock(_) =>
        ok, elem, next, fall' := ScheduleBasicBlock(id, elem, parent, data, u, fall);
      case Loop(_, _) =>
        ok, elem, next, fall' := ScheduleLoop(id, elem, parent, data, u, fall);
      case If(_, _, _) =>
        ok, elem, next, fall' := ScheduleIfstmt(id, elem, parent, data, u, fall);
    }
    if !ok { return; }
    FinishElem(data.cfg, g, u, d, fall, data.elems, fall', id, elem, parent, next);
    data.Release(id, elem);
    fall' := fall'[id := Choice(next, parent)];
  }

  method ScheduleBasicBlock(ghost id: ElemId, elem: Elem, parent: Parent, ghost data: ControlFlowData, ghost u: Arena,
                            ghost fall: Falls)
    returns (ok: bool, elem': Elem, next: Option<ElemId>, ghost fall': Falls)
    requires At(data.cfg, data.meta, u, data.elems, fall, id, elem, parent) && elem.detail.BasicBlock?
    ensures ok && OutDone(data.cfg, data.meta, data.elems, fall, data.elems, fall', id, elem, elem', parent, next)
    ensures Lays(data.meta, u, id, parent)
    ensures elem' == elem.(jump := elem'.jump) && elem'.jump.Some? && BlockChosen(parent, elem.exits, elem'.jump.value, next)
  {
    ghost var g := data.meta;
    ok, fall' := true, fall;
    var (n, jump) := ScheduleBlock(elem.exits, parent);
    next, elem' := n, elem.(jump := Some(jump));
    BlockDone(data.cfg, g, data.elems, fall, id, elem, parent);
  }

  method ScheduleLoop(ghost id: ElemId, elem: Elem, parent: Parent, data: ControlFlowData, ghost u: Arena,
                      ghost fall: Falls)
    returns (ok: bool, elem': Elem, next: Option<ElemId>, ghost fall': Falls)
    requires At(data.cfg, data.meta, u, data.elems, fall, id, elem, parent) && elem.detail.Loop?
    modifies data`elems
    ensures ok ==> OutDone(data.cfg, data.meta, old(data.elems), fall, data.elems, fall', id, elem, elem', parent, next)
    ensures ok <==> Lays(data.meta, u, id, parent)
    decreases data.meta[id].leaves, if data.meta[id].loop then 4 else 0, 0
  {
    OutExits(data.cfg, data.meta, data.elems, fall, id, elem);
    ghost var t := LoopTask(data.cfg, data.meta, u, data.elems, fall, id, elem, parent);
    LoopLays(t, id, elem, parent);
    var body;
    var last;
    ok, body, last, fall' := ScheduleBody(elem.detail.body, NoParent, data, t);
    elem', next := elem, None;
    if !ok { return; }
    elem' := elem.(detail := Loop(elem.detail.backedges, body), jump := Some(NoJump));
    next := FirstAvail(elem.exits, parent, data.meta);
    LoopDone(t, id, elem, parent, data.elems, fall', body, last, next);
  }

  /** Both asserts about where the arms leave to hold exactly when what encloses the if meets it. */
  method ScheduleIfstmt(ghost id: ElemId, elem: Elem, parent: Parent, data: ControlFlowData, ghost u: Arena,
                        ghost fall: Falls)
    returns (ok: bool, elem': Elem, next: Option<ElemId>, ghost fall': Falls)
    requires At(data.cfg, data.meta, u, data.elems, fall, id, elem, parent) && elem.detail.If?
    modifies data`elems
    ensures ok ==> OutDone(data.cfg, data.meta, old(data.elems), fall, data.elems, fall', id, elem, elem', parent, next)
    ensures ok <==> Lays(data.meta, u, id, parent)
    decreases data.meta[id].leaves, if data.meta[id].loop then 4 else 0, 1
  {
    IfHasOneExit(data.cfg, data.meta, data.elems, fall, id, elem);
    var inverted, exit := elem.detail.inverted, elem.exits[0];
    elem', next := elem, None;
    ghost var t := ArmTask(data.cfg, data.meta, u, data.elems, fall, id, elem, parent);
    IfKeeps(t, id, elem, parent);
    IfLays(t, id, elem, parent);
    var thenBody, thenNext;
    ok, thenBody, thenNext, fall' := ScheduleBody(elem.detail.thenBody, parent, data, t);
    if !ok { return; }
    var elseBody, elseNext;
    ok, elseBody, elseNext, fall' := ScheduleElse(id, elem, parent, data, fall', t, thenBody, thenNext);
    if !ok { return; }
    next := parent.ElemAvail(exit);
    var jump := if next.Some? then UncondFallthrough else UncondTarget(exit);
    ArmsAgree(t, id, elem, parent, data.elems, fall', thenBody, thenNext, elseBody, elseNext);
    if thenNext != next || elseNext != next {
      ok := false;
      return;
    }
    elem' := elem.(detail := If(inverted, thenBody, elseBody), jump := Some(jump));
    IfDone(t, id, elem, parent, data.elems, fall', thenBody, elseBody, next);
  }

  /** The else-arm, laid out against the same enclosing bodies; without one the if goes on where its join is. */
  method ScheduleElse(ghost id: ElemId, elem: Elem, parent: Parent, data: ControlFlowData, ghost fall: Falls,
                      ghost t: Task, ghost thenBody: Body, ghost thenNext: Option<ElemId>)
    returns (ok: bool, elseBody: Option<Body>, elseNext: Option<ElemId>, ghost fall': Falls)
    requires OfThen(t, id, elem, parent) && BodyDone(t, data.elems, fall, thenBody, thenNext)
    requires t.cfg == data.cfg && t.g == data.meta
    modifies data`elems
    ensures ok ==> ElseDone(t, id, elem, parent, data.elems, fall', thenBody, thenNext, elseBody, elseNext)
    ensures ok <==> (elem.detail.elseBody.Some? ==> ArmLays(t.g, t.u, parent, elem.detail.elseBody.value))
    decreases data.meta[id].leaves, if data.meta[id].loop then 4 else 0, 0
  {
    ok, elseBody, elseNext, fall' := true, None, parent.ElemAvail(elem.exits[0]), fall;
    if elem.detail.elseBody.None? {
      NoElse(t, id, elem, parent, data.elems, fall, thenBody, thenNext);
      return;
    }
    ghost var t2 := OtherTask(t, id, elem, parent, data.elems, fall, thenBody, thenNext);
    var other;
    ok, other, elseNext, fall' := ScheduleBody(elem.detail.elseBody.value, parent, data, t2);
    if !ok { return; }
    elseBody := Some(other);
    ElseLaid(t, t2, id, elem, parent, data.elems, fall', thenBody, thenNext, other, elseNext);
  }
}
