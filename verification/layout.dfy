/** Laying out a folded structure (dis86/src/decompile/control_flow.rs, schedule_layout_*):
    the order of each body's members, and the jump each member ends with. */
module Layout {
  import opened Wrappers
  import opened ControlFlow
  import opened Ownership
  import opened Structure
  import opened Scopes
  import opened Steps
  import opened Names
  import opened Arms
  import opened Enclosing
  import opened Progress

  /** For a scheduled element, the element its scheduling chose to come next, and the enclosing bodies it chose from. */
  datatype Choice = Choice(next: Option<ElemId>, around: Parent)

  type Falls = map<ElemId, Choice>

  // ------------------------------------------------------------------------
  // What a laid out element satisfies.

  /** The jump of a block with these exits, when `next` is laid out after it. */
  ghost predicate BlockJump(g: seq<Meta>, exits: seq<ElemId>, jump: Jump, next: Option<ElemId>) {
    match |exits|
    case 0 => jump == NoJump && next.None?
    case 1 => LeaveJump(g, exits[0], jump, next)
    case _ =>
      if next.None? then jump == CondTargetBoth(exits[0], exits[1])
      else
        || (jump == CondTargetTrue(exits[0]) && SameHead(g, exits[1], next.value))
        || (jump == CondTargetFalse(exits[1]) && SameHead(g, exits[0], next.value))
  }

  ghost predicate LeaveJump(g: seq<Meta>, exit: ElemId, jump: Jump, next: Option<ElemId>) {
    if next.None? then jump == UncondTarget(exit)
    else jump == UncondFallthrough && SameHead(g, exit, next.value)
  }

  ghost predicate Follows(fall: Falls, layout: seq<ElemId>, i: nat, out: Option<ElemId>)
    requires i < |layout|
  {
    && layout[i] in fall
    && (i + 1 < |layout| && fall[layout[i]].next.Some? ==> fall[layout[i]].next.value == layout[i + 1])
    && (i + 1 == |layout| ==> fall[layout[i]].next == out)
  }

  /** The layout is a permutation of the members, starts where the body is entered, and every
      member that chose a successor is followed by it; the last one chose `out`. */
  ghost predicate BodyLaid(g: seq<Meta>, b: Body, fall: Falls, out: Option<ElemId>) {
    && b.layout != []
    && Distinct(b.layout)
    && (forall x :: x in b.layout <==> x in b.elems)
    && SameHead(g, b.entry, b.layout[0])
    && (forall i :: 0 <= i < |b.layout| ==> Follows(fall, b.layout, i, out))
  }

  ghost predicate ElemLaid(g: seq<Meta>, e: Elem, fall: Falls, next: Option<ElemId>) {
    && e.jump.Some?
    && match e.detail
       case BasicBlock(labeled) => !labeled && BlockJump(g, e.exits, e.jump.value, next)
       case Loop(_, body) => e.jump.value == NoJump && BodyLaid(g, body, fall, None)
       case If(_, arm, other) =>
         && |e.exits| == 1
         && LeaveJump(g, e.exits[0], e.jump.value, next)
         && BodyLaid(g, arm, fall, next)
         && (other.Some? ==> BodyLaid(g, other.value, fall, next))
  }

  // ------------------------------------------------------------------------
  // What is chosen from what the enclosing bodies offer.

  /** With one exit, a block goes on there if that is offered. With two, it goes on at its false exit if that is offered,
      at its true exit if only that is, and jumps to whatever it does not go on at. */
  ghost predicate BlockChosen(p: Parent, exits: seq<ElemId>, jump: Jump, next: Option<ElemId>) {
    match |exits|
    case 0 => next.None? && jump == NoJump
    case 1 =>
      if p.ElemAvail(exits[0]).Some? then next == p.ElemAvail(exits[0]) && jump == UncondFallthrough
      else next.None? && jump == UncondTarget(exits[0])
    case _ =>
      if p.ElemAvail(exits[1]).Some? then next == p.ElemAvail(exits[1]) && jump == CondTargetTrue(exits[0])
      else if p.ElemAvail(exits[0]).Some? then next == p.ElemAvail(exits[0]) && jump == CondTargetFalse(exits[1])
      else next.None? && jump == CondTargetBoth(exits[0], exits[1])
  }

  /** A loop goes on at the first of its exits that is offered. */
  ghost predicate LoopChosen(p: Parent, exits: seq<ElemId>, next: Option<ElemId>) {
    if next.None? then NoneOffered(p, exits) else exists i :: FirstOffered(p, exits, next, i)
  }

  ghost predicate FirstOffered(p: Parent, exits: seq<ElemId>, next: Option<ElemId>, i: nat) {
    i < |exits| && p.ElemAvail(exits[i]) == next && NoneOffered(p, exits[..i])
  }

  /** The members that come after the first `i + 1` of the layout. */
  ghost function Later(b: Body, layout: seq<ElemId>, i: nat): set<ElemId>
    requires i < |layout|
  {
    set x | x in b.elems && x !in layout[..i + 1]
  }

  /** Member `i` chose from the members still left, and then from what lies around the body; after it comes what it
      chose, or else the least of those left. */
  ghost predicate MemberChosen(fall: Falls, b: Body, outer: Parent, layout: seq<ElemId>, i: nat)
    requires i < |layout|
  {
    && layout[i] in fall
    && fall[layout[i]].around == Parent(b.(layout := layout[..i + 1]), Later(b, layout, i), outer)
    && (i + 1 < |layout| ==> ComesNext(Later(b, layout, i), fall[layout[i]].next, layout[i + 1]))
  }

  ghost predicate AllChosen(fall: Falls, b: Body, outer: Parent, layout: seq<ElemId>) {
    forall i {:trigger MemberChosen(fall, b, outer, layout, i)} :: 0 <= i < |layout| ==> MemberChosen(fall, b, outer, layout, i)
  }

  ghost predicate BodyChosen(fall: Falls, b: Body, outer: Parent) {
    AllChosen(fall, b, outer, b.layout)
  }

  ghost predicate ElemChosen(fall: Falls, e: Elem, p: Parent, next: Option<ElemId>) {
    && e.jump.Some?
    && match e.detail
       case BasicBlock(_) => BlockChosen(p, e.exits, e.jump.value, next)
       case Loop(_, body) => LoopChosen(p, e.exits, next) && BodyChosen(fall, body, NoParent)
       case If(_, arm, other) =>
         && |e.exits| == 1 && next == p.ElemAvail(e.exits[0])
         && BodyChosen(fall, arm, p) && (other.Some? ==> BodyChosen(fall, other.value, p))
  }

  ghost predicate LaidAt(g: seq<Meta>, d: Arena, fall: Falls, id: ElemId)
    requires id in fall
  {
    Present(d, id) && ElemLaid(g, d[id].value, fall, fall[id].next) && ElemChosen(fall, d[id].value, fall[id].around, fall[id].next)
  }

  ghost predicate RestAt(d: Arena, fall: Falls, id: ElemId)
    requires id < |d|
  {
    id !in fall && d[id].Some? ==> Bare(d[id].value)
  }

  /** Scheduled elements are laid out, the others untouched. */
  ghost predicate LaidOk(g: seq<Meta>, d: Arena, fall: Falls) {
    && (forall id {:trigger LaidAt(g, d, fall, id)} :: id in fall ==> LaidAt(g, d, fall, id))
    && (forall id :: 0 <= id < |d| ==> RestAt(d, fall, id))
  }

  ghost predicate FreshAt(d: Arena, fall: Falls, id: ElemId) {
    Present(d, id) && Bare(d[id].value) && id !in fall
  }

  ghost predicate Fresh(g: seq<Meta>, d: Arena, fall: Falls, v: set<ElemId>, full: bool) {
    forall id :: InScope(g, v, full, id) ==> FreshAt(d, fall, id)
  }

  ghost predicate Extends(fall: Falls, fall': Falls) {
    forall id :: id in fall ==> id in fall' && fall'[id] == fall[id]
  }

  /** Only elements in the scope were scheduled, and only jumps and orders were written. */
  ghost predicate Scheduled(g: seq<Meta>, d: Arena, fall: Falls, d': Arena, fall': Falls, v: set<ElemId>, full: bool) {
    && |d'| == |d| == |g|
    && Extends(fall, fall')
    && (forall id: nat :: id < |d| && !InScope(g, v, full, id) ==> d'[id] == d[id] && (id in fall' ==> id in fall))
    && SameSlots(d, d')
  }

  // ------------------------------------------------------------------------
  // Scheduling more leaves what is laid out as it is.

  lemma BodyLaidExtends(g: seq<Meta>, b: Body, fall: Falls, fall': Falls, out: Option<ElemId>)
    requires BodyLaid(g, b, fall, out) && Extends(fall, fall')
    ensures BodyLaid(g, b, fall', out)
  {
    forall i | 0 <= i < |b.layout|
      ensures Follows(fall', b.layout, i, out)
    {
      assert Follows(fall, b.layout, i, out);
    }
  }

  lemma ElemLaidExtends(g: seq<Meta>, e: Elem, fall: Falls, fall': Falls, next: Option<ElemId>)
    requires ElemLaid(g, e, fall, next) && Extends(fall, fall')
    ensures ElemLaid(g, e, fall', next)
  {
    match e.detail {
      case BasicBlock(_) =>
      case Loop(_, body) => BodyLaidExtends(g, body, fall, fall', None);
      case If(_, arm, other) =>
        BodyLaidExtends(g, arm, fall, fall', next);
        if other.Some? {
          BodyLaidExtends(g, other.value, fall, fall', next);
        }
    }
  }

  /** If a later member stands for the false exit of a block, that member comes next and the block jumps to its true exit.
      A block jumps to its false exit only where neither a later member nor what lies around the body stands for it. */
  lemma FalseExitComesNext(g: seq<Meta>, d: Arena, fall: Falls, b: Body, outer: Parent, out: Option<ElemId>, i: nat)
    requires LaidOk(g, d, fall) && BodyLaid(g, b, fall, out) && BodyChosen(fall, b, outer) && i < |b.layout|
    requires Present(d, b.layout[i]) && d[b.layout[i]].value.detail.BasicBlock? && |d[b.layout[i]].value.exits| == 2
    ensures var e := d[b.layout[i]].value;
      && (forall j :: i < j < |b.layout| && b.LookupFromId(e.exits[1]) == Some(b.layout[j]) ==>
            j == i + 1 && e.jump == Some(CondTargetTrue(e.exits[0])))
      && (e.jump == Some(CondTargetFalse(e.exits[1])) ==>
            outer.ElemAvail(e.exits[1]).None? && forall j :: i < j < |b.layout| ==> b.LookupFromId(e.exits[1]) != Some(b.layout[j]))
  {
    var e := d[b.layout[i]].value;
    assert MemberChosen(fall, b, outer, b.layout, i) && Follows(fall, b.layout, i, out);
    assert LaidAt(g, d, fall, b.layout[i]);
    forall j | i < j < |b.layout|
      ensures b.layout[j] in Later(b, b.layout, i)
    {
      assert b.layout[j] in b.layout;
    }
    assert b.(layout := b.layout[..i + 1]).LookupFromId(e.exits[1]) == b.LookupFromId(e.exits[1]);
  }

  lemma AllChosenExtends(fall: Falls, fall': Falls, b: Body, outer: Parent, layout: seq<ElemId>)
    requires AllChosen(fall, b, outer, layout) && Extends(fall, fall')
    ensures AllChosen(fall', b, outer, layout)
  {
    forall i | 0 <= i < |layout|
      ensures MemberChosen(fall', b, outer, layout, i)
    {
      assert MemberChosen(fall, b, outer, layout, i);
    }
  }

  lemma ElemChosenExtends(fall: Falls, fall': Falls, e: Elem, p: Parent, next: Option<ElemId>)
    requires ElemChosen(fall, e, p, next) && Extends(fall, fall')
    ensures ElemChosen(fall', e, p, next)
  {
    match e.detail {
      case BasicBlock(_) =>
      case Loop(_, body) => AllChosenExtends(fall, fall', body, NoParent, body.layout);
      case If(_, arm, other) =>
        AllChosenExtends(fall, fall', arm, p, arm.layout);
        if other.Some? {
          AllChosenExtends(fall, fall', other.value, p, other.value.layout);
        }
    }
  }

  lemma ReleaseLaid(g: seq<Meta>, d: Arena, fall: Falls, id: ElemId, e: Elem, p: Parent, next: Option<ElemId>)
    requires LaidOk(g, d, fall) && id < |d| && id !in fall && ElemLaid(g, e, fall, next) && ElemChosen(fall, e, p, next)
    ensures LaidOk(g, d[id := Some(e)], fall[id := Choice(next, p)]) && Extends(fall, fall[id := Choice(next, p)])
  {
    var d', fall' := d[id := Some(e)], fall[id := Choice(next, p)];
    forall x | x in fall'
      ensures LaidAt(g, d', fall', x)
    {
      if x == id {
        ElemLaidExtends(g, e, fall, fall', next);
        ElemChosenExtends(fall, fall', e, p, next);
      } else {
        assert LaidAt(g, d, fall, x);
        ElemLaidExtends(g, d[x].value, fall, fall', fall[x].next);
        ElemChosenExtends(fall, fall', d[x].value, fall[x].around, fall[x].next);
      }
    }
    forall x | 0 <= x < |d'|
      ensures RestAt(d', fall', x)
    {
      assert RestAt(d, fall, x);
    }
  }

  lemma UncheckedLaid(g: seq<Meta>, d: Arena, fall: Falls, id: ElemId)
    requires LaidOk(g, d, fall) && id < |d| && id !in fall
    ensures LaidOk(g, d[id := None], fall)
  {
    var d0 := d[id := None];
    forall x | x in fall
      ensures LaidAt(g, d0, fall, x)
    {
      assert LaidAt(g, d, fall, x);
    }
    forall x | 0 <= x < |d0|
      ensures RestAt(d0, fall, x)
    {
      assert RestAt(d, fall, x);
    }
  }

  lemma ScheduledTrans(g: seq<Meta>, d: Arena, fall: Falls, d1: Arena, fall1: Falls, d2: Arena, fall2: Falls, v: set<ElemId>, full: bool)
    requires Scheduled(g, d, fall, d1, fall1, v, full) && Scheduled(g, d1, fall1, d2, fall2, v, full)
    ensures Scheduled(g, d, fall, d2, fall2, v, full)
  {
    SameSlotsTrans(d, d1, d2);
  }

  lemma ScheduledWider(g: seq<Meta>, d: Arena, fall: Falls, d': Arena, fall': Falls, v: set<ElemId>, full: bool, w: set<ElemId>, wfull: bool)
    requires Scheduled(g, d, fall, d', fall', w, wfull)
    requires forall id: nat :: InScope(g, w, wfull, id) ==> InScope(g, v, full, id)
    ensures Scheduled(g, d, fall, d', fall', v, full)
  {
    forall id: nat | id < |d| && !InScope(g, v, full, id)
      ensures d'[id] == d[id] && (id in fall' ==> id in fall)
    {
      assert !InScope(g, w, wfull, id);
    }
  }

  /** Scheduling some blocks leaves the scope of other blocks fresh. */
  lemma ApartStaysFresh(g: seq<Meta>, d: Arena, fall: Falls, d': Arena, fall': Falls, v: set<ElemId>, full: bool, w: set<ElemId>, wfull: bool)
    requires v !! w && Scheduled(g, d, fall, d', fall', v, full) && Fresh(g, d, fall, w, wfull)
    ensures Fresh(g, d', fall', w, wfull)
  {
    forall id: nat | InScope(g, w, wfull, id)
      ensures FreshAt(d', fall', id)
    {
      assert FreshAt(d, fall, id);
      var b :| b in g[id].leaves;
      assert b in w && b !in v;
      assert !InScope(g, v, full, id);
    }
  }

  ghost predicate FreshBelow(g: seq<Meta>, d: Arena, fall: Falls, x: ElemId) {
    x < |g| && Fresh(g, d, fall, g[x].leaves, g[x].loop)
  }

  ghost predicate AllFresh(g: seq<Meta>, d: Arena, fall: Falls, s: set<ElemId>) {
    forall x {:trigger FreshBelow(g, d, fall, x)} :: x in s ==> FreshBelow(g, d, fall, x)
  }

  lemma MembersFresh(g: seq<Meta>, d: Arena, fall: Falls, b: Body, full: bool)
    requires BodyOk(g, b, full) && Fresh(g, d, fall, LeavesOf(g, b.elems), full)
    ensures AllFresh(g, d, fall, b.elems)
  {
    forall x | x in b.elems
      ensures FreshBelow(g, d, fall, x)
    {
      forall y | InScope(g, g[x].leaves, g[x].loop, y)
        ensures FreshAt(d, fall, y)
      {
        MemberScope(g, LeavesOf(g, b.elems), full, x, y);
      }
    }
  }

  lemma OthersStayFresh(g: seq<Meta>, d: Arena, fall: Falls, d': Arena, fall': Falls, s: set<ElemId>, cur: ElemId, rest: set<ElemId>)
    requires MembersOk(g, s) && cur in s && rest <= s && cur !in rest
    requires AllFresh(g, d, fall, rest) && Scheduled(g, d, fall, d', fall', g[cur].leaves, g[cur].loop)
    ensures AllFresh(g, d', fall', rest)
  {
    forall x | x in rest
      ensures FreshBelow(g, d', fall', x)
    {
      assert FreshBelow(g, d, fall, x);
      ApartStaysFresh(g, d, fall, d', fall', g[cur].leaves, g[cur].loop, g[x].leaves, g[x].loop);
    }
  }

  /** Element `id` is checked out, and everything below it is still to be scheduled. */
  ghost predicate Out(cfg: Cfg, g: seq<Meta>, d: Arena, fall: Falls, id: ElemId, e: Elem) {
    && id < |d| && id !in fall && d[id].None?
    && LayoutState(cfg, g, d[id := Some(e)], fall)
    && (forall y :: InScope(g, g[id].leaves, g[id].loop, y) && y != id ==> FreshAt(d, fall, y))
  }

  lemma OutMeans(cfg: Cfg, g: seq<Meta>, d: Arena, fall: Falls, id: ElemId, e: Elem)
    requires Out(cfg, g, d, fall, id, e)
    ensures LayoutState(cfg, g, d, fall) && ElemOk(cfg, g, id, e) && Bare(e)
  {
    var d1 := d[id := Some(e)];
    assert d1[id := None] == d;
    assert ElemAt(cfg, g, d1, id) && RestAt(d1, fall, id);
    UncheckedLaid(g, d1, fall, id);
    forall y | 0 <= y < |d|
      ensures ElemAt(cfg, g, d, y)
    {
      assert ElemAt(cfg, g, d1, y);
    }
  }

  lemma StartElem(cfg: Cfg, g: seq<Meta>, d: Arena, fall: Falls, id: ElemId)
    requires LayoutState(cfg, g, d, fall) && Known(g, id) && Fresh(g, d, fall, g[id].leaves, g[id].loop)
    ensures Present(d, id) && Out(cfg, g, d[id := None], fall, id, d[id].value)
  {
    assert InScope(g, g[id].leaves, g[id].loop, id);
    assert FreshAt(d, fall, id);
    assert d == d[id := None][id := Some(d[id].value)];
    var d0 := d[id := None];
    forall y | InScope(g, g[id].leaves, g[id].loop, y) && y != id
      ensures FreshAt(d0, fall, y)
    {
      assert FreshAt(d, fall, y);
    }
  }

  lemma PartFresh(cfg: Cfg, g: seq<Meta>, d: Arena, fall: Falls, id: ElemId, e: Elem, w: set<ElemId>, wfull: bool)
    requires Out(cfg, g, d, fall, id, e) && PartOf(g, id, w, wfull)
    ensures Fresh(g, d, fall, w, wfull)
  {
    forall y | InScope(g, w, wfull, y)
      ensures FreshAt(d, fall, y)
    {
      PartScope(g, id, w, wfull, y);
    }
  }

  lemma FinishScheduled(g: seq<Meta>, d: Arena, fall: Falls, d': Arena, fall': Falls, id: ElemId, e: Elem, p: Parent, next: Option<ElemId>)
    requires id < |d| && Known(g, id) && |d| == |g| && id !in fall && id !in fall'
    requires Scheduled(g, d[id := None], fall, d', fall', g[id].leaves, g[id].loop)
    requires d[id].Some? && Unlaid(e) == Unlaid(d[id].value)
    ensures Scheduled(g, d, fall, d'[id := Some(e)], fall'[id := Choice(next, p)], g[id].leaves, g[id].loop)
  {
    var d0, d2 := d[id := None], d'[id := Some(e)];
    assert InScope(g, g[id].leaves, g[id].loop, id);
    forall y: nat | y < |d| && !InScope(g, g[id].leaves, g[id].loop, y)
      ensures d2[y] == d[y]
    {
      assert d0[y] == d[y];
    }
    forall y | 0 <= y < |d|
      ensures SameSlot(d, d2, y)
    {
      assert SameSlot(d0, d', y);
    }
  }

  lemma PartScheduled(g: seq<Meta>, d: Arena, fall: Falls, d': Arena, fall': Falls, id: ElemId, w: set<ElemId>, wfull: bool)
    requires Known(g, id) && PartOf(g, id, w, wfull) && Scheduled(g, d, fall, d', fall', w, wfull)
    ensures Scheduled(g, d, fall, d', fall', g[id].leaves, g[id].loop)
    ensures id < |d| ==> d'[id] == d[id] && (id in fall' ==> id in fall)
  {
    forall y: nat | InScope(g, w, wfull, y)
      ensures y != id && InScope(g, g[id].leaves, g[id].loop, y)
    {
      PartScope(g, id, w, wfull, y);
    }
    ScheduledWider(g, d, fall, d', fall', g[id].leaves, g[id].loop, w, wfull);
    if id < |d| {
      assert !InScope(g, w, wfull, id);
    }
  }

  // ------------------------------------------------------------------------
  // Scheduling.

  ghost predicate LayoutState(cfg: Cfg, g: seq<Meta>, d: Arena, fall: Falls) {
    ArenaOk(cfg, g, d) && LaidOk(g, d, fall)
  }

  /** A basic block goes on to its false exit if that is still to be laid out, else to its true exit. */
  function ScheduleBlock(exits: seq<ElemId>, parent: Parent): (Option<ElemId>, Jump) {
    if |exits| == 0 then (None, NoJump)
    else if |exits| == 1 then
      var x := parent.ElemAvail(exits[0]);
      if x.Some? then (x, UncondFallthrough) else (None, UncondTarget(exits[0]))
    else if |exits| == 2 then
      var f, t := parent.ElemAvail(exits[1]), parent.ElemAvail(exits[0]);
      if f.Some? then (f, CondTargetTrue(exits[0]))
      else if t.Some? then (t, CondTargetFalse(exits[1]))
      else (None, CondTargetBoth(exits[0], exits[1]))
    else (None, Table(exits))
  }

  lemma ScheduleBlockOk(g: seq<Meta>, exits: seq<ElemId>, parent: Parent)
    requires parent.Ok(g) && |exits| <= 2 && forall i :: 0 <= i < |exits| ==> Known(g, exits[i])
    ensures var (next, jump) := ScheduleBlock(exits, parent);
      BlockJump(g, exits, jump, next) && Offered(parent, next) && BlockChosen(parent, exits, jump, next)
  {
    forall i | 0 <= i < |exits|
      ensures Offered(parent, parent.ElemAvail(exits[i]))
      ensures parent.ElemAvail(exits[i]).Some? ==> SameHead(g, exits[i], parent.ElemAvail(exits[i]).value)
    {
      AvailMeans(g, parent, exits[i]);
    }
  }

  /** Everything about the layout of a body so far: `layout` holds what is not `remaining`, and `next` comes next. */
  ghost predicate LaidSoFar(b: Body, fall: Falls, layout: seq<ElemId>, remaining: set<ElemId>, first: ElemId, next: Option<ElemId>) {
    && remaining <= b.elems
    && Distinct(layout)
    && (forall x :: x in layout <==> x in b.elems && x !in remaining)
    && (forall i :: 0 <= i < |layout| ==> Follows(fall, layout, i, next))
    && (if layout == [] then next == Some(first) else layout[0] == first)
  }

  lemma LaidOneMore(b: Body, fall: Falls, layout: seq<ElemId>, remaining: set<ElemId>, first: ElemId, next: Option<ElemId>,
                    cur: ElemId, fall': Falls, next': Option<ElemId>)
    requires LaidSoFar(b, fall, layout, remaining, first, next)
    requires cur in remaining && (next.Some? ==> next.value == cur)
    requires Extends(fall, fall') && cur in fall' && fall'[cur].next == next'
    ensures LaidSoFar(b, fall', layout + [cur], remaining - {cur}, first, next')
  {
    var more := layout + [cur];
    forall i | 0 <= i < |more|
      ensures Follows(fall', more, i, next')
    {
      if i < |layout| {
        assert Follows(fall, layout, i, next);
      }
    }
  }

  lemma ChosenOneMore(b: Body, outer: Parent, fall: Falls, layout: seq<ElemId>, remaining: set<ElemId>, first: ElemId, next: Option<ElemId>,
                      cur: ElemId, fall': Falls)
    requires LaidSoFar(b, fall, layout, remaining, first, next) && AllChosen(fall, b, outer, layout)
    requires cur in remaining && ComesNext(remaining, next, cur) && Extends(fall, fall')
    requires cur in fall' && fall'[cur].around == Parent(b.(layout := layout + [cur]), remaining - {cur}, outer)
    ensures AllChosen(fall', b, outer, layout + [cur])
  {
    var more := layout + [cur];
    assert more[..|layout| + 1] == more;
    assert Later(b, more, |layout|) == remaining - {cur};
    forall i | 0 <= i < |more|
      ensures MemberChosen(fall', b, outer, more, i)
    {
      if i < |layout| {
        assert MemberChosen(fall, b, outer, layout, i) && Follows(fall, layout, i, next);
        assert more[..i + 1] == layout[..i + 1];
        if i + 1 == |layout| {
          assert layout[..i + 1] == layout;
          assert Later(b, layout, i) == remaining;
        }
      }
    }
  }

  lemma LaidAll(g: seq<Meta>, b: Body, full: bool, fall: Falls, layout: seq<ElemId>, first: ElemId, next: Option<ElemId>)
    requires BodyOk(g, b, full) && LaidSoFar(b, fall, layout, {}, first, next)
    requires first in b.elems && b.LookupFromId(b.entry) == Some(first)
    ensures BodyLaid(g, b.(layout := layout), fall, next)
  {
    assert first in layout;
    if b.entry in b.remap {
      assert Renames(g, b.entry, b.remap[b.entry]);
    }
  }

  /** The layout so far follows a body that runs straight, and goes on as it does. */
  ghost predicate Tracks(run: seq<ElemId>, layout: seq<ElemId>, next: Option<ElemId>, last: Option<ElemId>) {
    run != [] ==> layout <= run && next == if |layout| < |run| then Some(run[|layout|]) else last
  }

  lemma NotBefore(run: seq<ElemId>, k: nat)
    requires Distinct(run) && k < |run|
    ensures run[k] !in run[..k]
  {
    forall j | 0 <= j < k
      ensures run[..k][j] != run[k]
    {
      assert run[..k][j] == run[j];
    }
  }

  /** While members are left, a body that runs straight has its next member left. */
  lemma RunGoesOn(b: Body, run: seq<ElemId>, layout: seq<ElemId>, remaining: set<ElemId>, next: Option<ElemId>, last: Option<ElemId>)
    requires run != [] && Distinct(run) && forall x :: x in run <==> x in b.elems
    requires remaining <= b.elems && forall x :: x in layout <==> x in b.elems && x !in remaining
    requires Tracks(run, layout, next, last)
    ensures remaining == {} ==> layout == run
    ensures remaining != {} ==> layout < run && run[|layout|] in remaining && next == Some(run[|layout|])
  {
    var k := |layout|;
    assert layout == run[..k];
    if k < |run| {
      NotBefore(run, k);
      assert run[k] in run && run[k] in remaining;
    } else {
      assert layout == run;
      forall x
        ensures x !in remaining
      {
        assert x in run <==> x in layout;
      }
    }
  }

  /** The successor of a member in the run is still left. */
  lemma NextInRun(b: Body, run: seq<ElemId>, layout: seq<ElemId>, remaining: set<ElemId>, cur: ElemId)
    requires Distinct(run) && (forall x :: x in run <==> x in b.elems) && |layout| + 1 < |run| && layout == run[..|layout|] && cur == run[|layout|]
    requires forall x :: x in layout <==> x in b.elems && x !in remaining
    ensures run[|layout| + 1] in remaining - {cur}
  {
    var k := |layout|;
    NotBefore(run, k + 1);
    assert run[..k + 1] == layout + [cur];
    assert run[k + 1] in run;
    assert cur in layout + [cur];
  }

  lemma RunIsOver(b: Body, run: seq<ElemId>, layout: seq<ElemId>, remaining: set<ElemId>, cur: ElemId)
    requires layout + [cur] == run && (forall x :: x in run <==> x in b.elems) && remaining <= b.elems
    requires forall x :: x in layout <==> x in b.elems && x !in remaining
    ensures remaining - {cur} == {}
  {
    forall x | x in remaining
      ensures x == cur
    {
      assert x in layout + [cur];
    }
  }

  lemma TrackOneMore(g: seq<Meta>, b: Body, r: Body, run: seq<ElemId>, n: ElemId, layout: seq<ElemId>, remaining: set<ElemId>,
                     before: Option<ElemId>, cur: ElemId, parent: Parent, next: Option<ElemId>)
    requires (run != [] ==> RunsTo(g, b, run, n)) && cur < |g|
    requires Tracks(run, layout, before, parent.ElemAvail(n)) && (before.Some? ==> before.value == cur)
    requires r == b.(layout := r.layout) && cur in remaining && remaining <= b.elems
    requires forall x :: x in layout <==> x in b.elems && x !in remaining
    requires |g[cur].made.exits| == 1 ==> next == Parent(r, remaining - {cur}, parent).ElemAvail(g[cur].made.exits[0])
    ensures Tracks(run, layout + [cur], next, parent.ElemAvail(n))
  {
    if run != [] {
      var k, left := |layout|, remaining - {cur};
      RunGoesOn(b, run, layout, remaining, before, parent.ElemAvail(n));
      assert RunLink(g, b, run, n, k);
      assert layout + [cur] == run[..k + 1];
      var x := g[cur].made.exits[0];
      assert r.LookupFromId(x) == b.LookupFromId(x);
      if k + 1 < |run| {
        NextInRun(b, run, layout, remaining, cur);
        assert Parent(r, left, parent).ElemAvail(x) == Some(run[k + 1]);
      } else {
        assert layout + [cur] == run;
        RunIsOver(b, run, layout, remaining, cur);
        assert Parent(r, left, parent).ElemAvail(x) == parent.ElemAvail(x);
      }
    }
  }

  /** The chosen successor is always left: what was offered is, but for what is offered around the body. */
  lemma NeverStrays(b: Body, fall: Falls, layout: seq<ElemId>, remaining: set<ElemId>, first: ElemId, next: Option<ElemId>,
                    parent: Parent, run: seq<ElemId>, n: ElemId)
    requires LaidSoFar(b, fall, layout, remaining, first, next) && Tracks(run, layout, next, parent.ElemAvail(n))
    requires run != [] ==> Distinct(run) && forall x :: x in run <==> x in b.elems
    requires layout != [] ==> Offered(Parent(b.(layout := layout), remaining, parent), next)
    requires layout == [] ==> remaining == b.elems && first in b.elems
    requires run != [] || parent.NoParent? || layout == [] || next.None?
    ensures remaining != {} && next.Some? ==> next.value in remaining
  {
    if run != [] {
      RunGoesOn(b, run, layout, remaining, next, parent.ElemAvail(n));
    }
    assert parent.NoParent? && next.Some? ==> !parent.Offers(next.value);
  }

  lemma WiderByMember(g: seq<Meta>, d: Arena, fall: Falls, d': Arena, fall': Falls, b: Body, full: bool, v: set<ElemId>, x: ElemId)
    requires BodyOk(g, b, full) && v == LeavesOf(g, b.elems) && x in b.elems
    requires Scheduled(g, d, fall, d', fall', g[x].leaves, g[x].loop)
    ensures Scheduled(g, d, fall, d', fall', v, full)
  {
    forall y: nat | InScope(g, g[x].leaves, g[x].loop, y)
      ensures InScope(g, v, full, y)
    {
      MemberScope(g, v, full, x, y);
    }
    ScheduledWider(g, d, fall, d', fall', v, full, g[x].leaves, g[x].loop);
  }

  /** One body being laid out: the arena `u` before any layout, where this one started from, and, if the body is an arm
      that runs straight, the way `run` through it and the name `n` by which it leaves. */
  datatype Task = Task(cfg: Cfg, g: seq<Meta>, u: Arena, d: Arena, fall: Falls, body: Body, full: bool, v: set<ElemId>,
                       parent: Parent, run: seq<ElemId>, n: ElemId)
  {
    ghost predicate Ok() {
      && CfgOk(cfg) && Sound(cfg, g) && BodyOk(g, body, full) && v == LeavesOf(g, body.elems)
      && parent.Ok(g) && parent.Spares(g, v) && Snap(u, d) && BodyReady(g, u, body) && Shaped()
    }

    /** An arm that runs straight, the body of a loop or of the function, or an arm that was a ring. */
    ghost predicate Shaped() {
      if run != [] then parent.Parent? && RunsTo(g, body, run, n) && BodyKnown(g, body)
      else if parent.NoParent? then BodyKnown(g, body) || SingleExits(g, body)
      else exists loop :: Lone(loop)
    }

    ghost predicate Lone(loop: ElemId) {
      && body.elems == {loop} && loop < |g| && g[loop].made.detail.Loop?
      && forall i :: 0 <= i < |g[loop].made.exits| ==> parent.ElemAvail(g[loop].made.exits[i]).None?
    }

    /** Every body at or below this one kept its entry, and the ifs in it and below meet their joins. */
    ghost predicate Completes() {
      && BodyKeeps(g, u, body) && BodyJoins(g, u, body)
      && if parent.NoParent? then LoopMeets(g, body) else LastMeets(g, parent, body)
    }

    function Around(layout: seq<ElemId>, remaining: set<ElemId>): Parent {
      Parent(body.(layout := layout), remaining, parent)
    }
  }

  ghost predicate ToBeLaid(t: Task, d: Arena) {
    t.Ok() && LayoutState(t.cfg, t.g, d, t.fall) && Fresh(t.g, d, t.fall, t.v, t.full)
  }

  /** Nothing of the body was laid out yet. */
  ghost predicate Waiting(t: Task) {
    forall d {:trigger ToBeLaid(t, d)} :: d == t.d ==> ToBeLaid(t, d)
  }

  ghost predicate AllLay(t: Task, layout: seq<ElemId>) {
    forall x {:trigger Keeps(t.g, t.u, x)} :: x in layout ==> Keeps(t.g, t.u, x) && JoinsMeet(t.g, t.u, x)
  }

  /** What was met so far, as the shape of the body asks for it. */
  ghost predicate ShapeMeets(t: Task, layout: seq<ElemId>, remaining: set<ElemId>, next: Option<ElemId>, first: ElemId) {
    if t.run != [] then layout == t.run ==> Meets(t.g, t.parent, LastMember(t.run))
    else if t.parent.Parent? then layout == [] || next.None?
    else
      BodyKnown(t.g, t.body) ||
      (WalkMeets(t.g, t.body, t.body.elems, Some(first)) <==> WalkMeets(t.g, t.body, remaining, next))
  }

  /** The members laid out so far kept their entries and met their joins. */
  ghost predicate Meeting(t: Task, layout: seq<ElemId>, remaining: set<ElemId>, next: Option<ElemId>, first: ElemId) {
    AllLay(t, layout) && ShapeMeets(t, layout, remaining, next, first)
  }

  /** What was laid out of the body, in which order, and what it chose. */
  ghost predicate Ordered(t: Task, fall: Falls, layout: seq<ElemId>, remaining: set<ElemId>, next: Option<ElemId>, first: ElemId) {
    && t.body.LookupFromId(t.body.entry) == Some(first)
    && LaidSoFar(t.body, fall, layout, remaining, first, next)
    && (layout != [] ==> Offered(t.Around(layout, remaining), next))
    && (layout == [] ==> remaining == t.body.elems)
    && Tracks(t.run, layout, next, t.parent.ElemAvail(t.n))
    && AllChosen(fall, t.body, t.parent, layout)
  }

  ghost predicate Reached(t: Task, d: Arena, fall: Falls, layout: seq<ElemId>, remaining: set<ElemId>, next: Option<ElemId>, first: ElemId) {
    && t.Ok() && Ordered(t, fall, layout, remaining, next, first) && Meeting(t, layout, remaining, next, first)
    && LayoutState(t.cfg, t.g, d, fall)
    && Scheduled(t.g, t.d, t.fall, d, fall, t.v, t.full)
    && AllFresh(t.g, d, fall, remaining)
  }

  ghost predicate Underway(t: Task, d: Arena, fall: Falls, layout: seq<ElemId>, remaining: set<ElemId>, next: Option<ElemId>) {
    && t.body.LookupFromId(t.body.entry).Some? && remaining <= t.body.elems
    && forall first {:trigger Reached(t, d, fall, layout, remaining, next, first)} ::
      t.body.LookupFromId(t.body.entry) == Some(first) ==> Reached(t, d, fall, layout, remaining, next, first)
  }

  lemma BodyStarts(t: Task, first: ElemId)
    requires Waiting(t) && t.body.LookupFromId(t.body.entry) == Some(first)
    ensures Underway(t, t.d, t.fall, [], t.body.elems, Some(first))
  {
    assert ToBeLaid(t, t.d);
    MembersFresh(t.g, t.d, t.fall, t.body, t.full);
    forall id | 0 <= id < |t.d|
      ensures SameSlot(t.d, t.d, id)
    {
    }
    assert Reached(t, t.d, t.fall, [], t.body.elems, Some(first), first);
  }

  /** What encloses the next member spares its blocks. */
  lemma MemberSpared(t: Task, layout: seq<ElemId>, remaining: set<ElemId>, cur: ElemId)
    requires t.Ok() && cur in t.body.elems && remaining <= t.body.elems && cur !in remaining
    ensures t.Around(layout, remaining).Spares(t.g, t.g[cur].leaves) && t.Around(layout, remaining).Ok(t.g)
  {
    MemberLeaves(t.g, t.body.elems, cur);
    SparesFewer(t.g, t.parent, t.v, t.g[cur].leaves);
  }

  lemma SameAround(t: Task, layout: seq<ElemId>, remaining: set<ElemId>)
    ensures SameOffers(Parent(t.body, remaining, t.parent), t.Around(layout, remaining))
    ensures remaining == {} ==> SameOffers(t.parent, t.Around(layout, remaining))
    ensures remaining == {} ==> SameOffers(t.Around(layout, remaining), t.parent)
    ensures SameOffers(t.Around(layout, remaining), Parent(t.body, remaining, t.parent))
  {
    var p, q := Parent(t.body, remaining, t.parent), t.Around(layout, remaining);
    forall n: ElemId
      ensures p.ElemAvail(n) == q.ElemAvail(n)
    {
      assert q.body.LookupFromId(n) == p.body.LookupFromId(n);
    }
  }

  /** The task is in order; closed, so that callers need not look inside. */
  ghost predicate InOrder(t: Task) {
    exists n :: InOrderBy(t, n)
  }

  ghost predicate InOrderBy(t: Task, n: ElemId) {
    n == t.n && t.Ok()
  }

  /** A member that another one follows is met in the arm. */
  lemma MiddleMeets(t: Task, layout: seq<ElemId>, left: set<ElemId>, k: nat)
    requires InOrder(t) && t.run != [] && k + 1 < |t.run| && t.run[k + 1] in left
    ensures Meets(t.g, t.Around(layout, left), t.run[k])
  {
    assert RunLink(t.g, t.body, t.run, t.n, k);
    assert t.run[k] in t.run && JoinsKnown(t.g, t.body, t.run[k]);
    KnownMeets(t.cfg, t.g, t.body, left, t.parent, t.run[k]);
    SameAround(t, layout, left);
    MeetsToo(t.g, Parent(t.body, left, t.parent), t.Around(layout, left), t.run[k]);
  }

  /** The last one is met where the arm is. */
  lemma EndMeets(t: Task, layout: seq<ElemId>, remaining: set<ElemId>, cur: ElemId)
    requires t.run != [] && (forall x :: x in t.run <==> x in t.body.elems) && remaining <= t.body.elems && layout + [cur] == t.run
    requires (forall x :: x in layout <==> x in t.body.elems && x !in remaining) && Meets(t.g, t.parent, cur)
    ensures Meets(t.g, t.Around(layout + [cur], remaining - {cur}), cur)
  {
    RunIsOver(t.body, t.run, layout, remaining, cur);
    SameAround(t, layout + [cur], remaining - {cur});
    MeetsToo(t.g, t.parent, t.Around(layout + [cur], remaining - {cur}), cur);
  }

  lemma RunMemberMeets(t: Task, layout: seq<ElemId>, remaining: set<ElemId>, cur: ElemId)
    requires InOrder(t) && Distinct(t.run) && (forall x :: x in t.run <==> x in t.body.elems) && remaining <= t.body.elems
    requires (forall x :: x in layout <==> x in t.body.elems && x !in remaining) && (t.run != [] && Meets(t.g, t.parent, LastMember(t.run)))
    requires |layout| < |t.run| && layout == t.run[..|layout|] && cur == t.run[|layout|]
    ensures Meets(t.g, t.Around(layout + [cur], remaining - {cur}), cur)
  {
    if |layout| + 1 < |t.run| {
      NextInRun(t.body, t.run, layout, remaining, cur);
      MiddleMeets(t, layout + [cur], remaining - {cur}, |layout|);
    } else {
      assert layout + [cur] == t.run;
      EndMeets(t, layout, remaining, cur);
    }
  }

  lemma BodyMemberMeets(t: Task, layout: seq<ElemId>, remaining: set<ElemId>, next: Option<ElemId>, first: ElemId, cur: ElemId)
    requires InOrder(t) && t.run == [] && t.parent.NoParent? && t.body.LookupFromId(t.body.entry) == Some(first)
    requires cur in remaining && remaining <= t.body.elems && ComesNext(remaining, next, cur) && LoopMeets(t.g, t.body)
    requires !BodyKnown(t.g, t.body) ==> (WalkMeets(t.g, t.body, t.body.elems, Some(first)) <==> WalkMeets(t.g, t.body, remaining, next))
    ensures Meets(t.g, t.Around(layout, remaining - {cur}), cur)
  {
    var left := remaining - {cur};
    SameAround(t, layout, left);
    if BodyKnown(t.g, t.body) {
      assert JoinsKnown(t.g, t.body, cur);
      KnownMeets(t.cfg, t.g, t.body, left, t.parent, cur);
    }
    MeetsToo(t.g, Parent(t.body, left, t.parent), t.Around(layout, left), cur);
  }

  lemma LoneMemberMeets(t: Task, p: Parent, cur: ElemId)
    requires InOrder(t) && t.run == [] && t.parent.Parent? && cur in t.body.elems
    ensures Meets(t.g, p, cur)
  {
    var loop :| t.Lone(loop);
  }

  /** If the body can be laid out, what its next member meets around it lets it be laid out too. */
  lemma MemberMeets(t: Task, fall: Falls, layout: seq<ElemId>, remaining: set<ElemId>, next: Option<ElemId>, first: ElemId, cur: ElemId)
    requires t.Ok() && Ordered(t, fall, layout, remaining, next, first) && Meeting(t, layout, remaining, next, first)
    requires cur in remaining && ComesNext(remaining, next, cur) && t.Completes()
    ensures Meets(t.g, t.Around(layout + [cur], remaining - {cur}), cur)
  {
    assert InOrderBy(t, t.n);
    if t.run != [] {
      LastOfWay(t.g, t.parent, t.body, t.run, t.n);
      RunGoesOn(t.body, t.run, layout, remaining, next, t.parent.ElemAvail(t.n));
      RunMemberMeets(t, layout, remaining, cur);
    } else if t.parent.NoParent? {
      BodyMemberMeets(t, layout + [cur], remaining, next, first, cur);
    } else {
      LoneMemberMeets(t, t.Around(layout + [cur], remaining - {cur}), cur);
    }
  }

  lemma MemberReady(t: Task, d: Arena, fall: Falls, layout: seq<ElemId>, remaining: set<ElemId>, next: Option<ElemId>, cur: ElemId)
    requires Underway(t, d, fall, layout, remaining, next) && cur in remaining && ComesNext(remaining, next, cur)
    ensures ElemReady(t.cfg, t.g, t.u, d, fall, cur, t.Around(layout + [cur], remaining - {cur}))
    ensures Known(t.g, cur) && t.g[cur].leaves <= t.v && (t.g[cur].leaves == t.v && t.g[cur].loop ==> t.full)
    ensures t.Completes() ==> Lays(t.g, t.u, cur, t.Around(layout + [cur], remaining - {cur}))
  {
    var first := t.body.LookupFromId(t.body.entry).value;
    assert Reached(t, d, fall, layout, remaining, next, first);
    assert cur in t.body.elems && InScope(t.g, t.v, t.full, cur);
    assert FreshBelow(t.g, d, fall, cur);
    SnapKeeps(t.u, t.d, d);
    MemberSpared(t, layout + [cur], remaining - {cur}, cur);
    assert Ready(t.g, t.u, cur);
    assert ReadyIn(t.cfg, t.g, t.u, d, fall, cur, t.Around(layout + [cur], remaining - {cur}));
    if t.Completes() {
      assert Keeps(t.g, t.u, cur) && JoinsMeet(t.g, t.u, cur);
      MemberMeets(t, fall, layout, remaining, next, first, cur);
    }
  }

  lemma NextIsLeft(t: Task, d: Arena, fall: Falls, layout: seq<ElemId>, remaining: set<ElemId>, next: Option<ElemId>)
    requires Underway(t, d, fall, layout, remaining, next)
    ensures remaining != {} && next.Some? ==> next.value in remaining
  {
    var first := t.body.LookupFromId(t.body.entry).value;
    assert Reached(t, d, fall, layout, remaining, next, first);
    NeverStrays(t.body, fall, layout, remaining, first, next, t.parent, t.run, t.n);
  }

  /** What the layout of an element depends on: that no body below lost its entry, and that the ifs meet their joins. */
  ghost predicate Lays(g: seq<Meta>, u: Arena, id: ElemId, parent: Parent) {
    Keeps(g, u, id) && JoinsMeet(g, u, id) && Meets(g, parent, id)
  }

  ghost predicate ElemReady(cfg: Cfg, g: seq<Meta>, u: Arena, d: Arena, fall: Falls, id: ElemId, parent: Parent) {
    exists d0 :: d0 == d && ReadyIn(cfg, g, u, d0, fall, id, parent)
  }

  ghost predicate ReadyIn(cfg: Cfg, g: seq<Meta>, u: Arena, d: Arena, fall: Falls, id: ElemId, parent: Parent) {
    && CfgOk(cfg) && Sound(cfg, g) && LayoutState(cfg, g, d, fall) && Known(g, id) && Fresh(g, d, fall, g[id].leaves, g[id].loop)
    && parent.Parent? && parent.Ok(g) && parent.Spares(g, g[id].leaves) && Snap(u, d) && Ready(g, u, id)
  }

  /** None of these names is offered. */
  ghost predicate NoneOffered(p: Parent, names: seq<ElemId>) {
    forall i :: 0 <= i < |names| ==> p.ElemAvail(names[i]).None?
  }

  /** Element `id` was laid out, and chose `next` from what `parent` offers. */
  ghost predicate ElemDone(cfg: Cfg, g: seq<Meta>, u: Arena, d: Arena, fall: Falls, d': Arena, fall': Falls,
                           id: ElemId, parent: Parent, next: Option<ElemId>)
  {
    && Known(g, id)
    && LayoutState(cfg, g, d', fall')
    && Scheduled(g, d, fall, d', fall', g[id].leaves, g[id].loop)
    && id in fall' && fall'[id] == Choice(next, parent) && Offered(parent, next)
    && (|g[id].made.exits| == 1 ==> next == parent.ElemAvail(g[id].made.exits[0]))
    && (g[id].made.detail.Loop? && NoneOffered(parent, g[id].made.exits) ==> next.None?)
    && Lays(g, u, id, parent)
  }

  lemma OrderGoesOn(t: Task, fall: Falls, layout: seq<ElemId>, remaining: set<ElemId>, next: Option<ElemId>, first: ElemId,
                    cur: ElemId, fall': Falls, next': Option<ElemId>)
    requires (t.run != [] ==> RunsTo(t.g, t.body, t.run, t.n)) && cur < |t.g|
    requires Ordered(t, fall, layout, remaining, next, first) && cur in remaining && ComesNext(remaining, next, cur)
    requires Extends(fall, fall') && cur in fall' && fall'[cur] == Choice(next', t.Around(layout + [cur], remaining - {cur}))
    requires var around := t.Around(layout + [cur], remaining - {cur});
      Offered(around, next') && (|t.g[cur].made.exits| == 1 ==> next' == around.ElemAvail(t.g[cur].made.exits[0]))
    ensures Ordered(t, fall', layout + [cur], remaining - {cur}, next', first)
  {
    TrackOneMore(t.g, t.body, t.body.(layout := layout + [cur]), t.run, t.n, layout, remaining, next, cur, t.parent, next');
    LaidOneMore(t.body, fall, layout, remaining, first, next, cur, fall', next');
    ChosenOneMore(t.body, t.parent, fall, layout, remaining, first, next, cur, fall');
  }

  lemma LoneGoesOn(t: Task, layout: seq<ElemId>, left: set<ElemId>, cur: ElemId, next': Option<ElemId>)
    requires InOrder(t) && t.run == [] && t.parent.Parent? && cur in t.body.elems && left <= t.body.elems && cur !in left
    requires var around := t.Around(layout, left);
      t.g[cur].made.detail.Loop? && NoneOffered(around, t.g[cur].made.exits) ==> next'.None?
    ensures next'.None?
  {
    var loop :| t.Lone(loop);
    assert left == {};
    SameAround(t, layout, left);
  }

  lemma WalkStep(g: seq<Meta>, b: Body, left: set<ElemId>, next: Option<ElemId>, cur: ElemId)
    requires cur in left && ComesNext(left, next, cur) && cur < |g| && |g[cur].made.exits| == 1
    requires Meets(g, Parent(b, left - {cur}, NoParent), cur)
    ensures WalkMeets(g, b, left, next) <==> WalkMeets(g, b, left - {cur}, Parent(b, left - {cur}, NoParent).ElemAvail(g[cur].made.exits[0]))
  {
    forall c | ComesNext(left, next, c)
      ensures c == cur
    {
    }
  }

  lemma WalkGoesOn(t: Task, layout: seq<ElemId>, remaining: set<ElemId>, next: Option<ElemId>, cur: ElemId, next': Option<ElemId>)
    requires InOrder(t) && t.parent.NoParent? && !BodyKnown(t.g, t.body) && t.run == []
    requires cur in remaining && remaining <= t.body.elems && ComesNext(remaining, next, cur)
    requires var around := t.Around(layout, remaining - {cur});
      Meets(t.g, around, cur) && (|t.g[cur].made.exits| == 1 ==> next' == around.ElemAvail(t.g[cur].made.exits[0]))
    ensures WalkMeets(t.g, t.body, remaining, next) <==> WalkMeets(t.g, t.body, remaining - {cur}, next')
  {
    var p := Parent(t.body, remaining - {cur}, NoParent);
    SameAround(t, layout, remaining - {cur});
    MeetsToo(t.g, t.Around(layout, remaining - {cur}), p, cur);
    WalkStep(t.g, t.body, remaining, next, cur);
  }

  lemma RunMeetsOn(t: Task, layout: seq<ElemId>, remaining: set<ElemId>, cur: ElemId)
    requires InOrder(t) && layout + [cur] == t.run && remaining <= t.body.elems
    requires (forall x :: x in layout <==> x in t.body.elems && x !in remaining) && Meets(t.g, t.Around(t.run, remaining - {cur}), cur)
    ensures Meets(t.g, t.parent, LastMember(t.run))
  {
    RunIsOver(t.body, t.run, layout, remaining, cur);
    SameAround(t, t.run, remaining - {cur});
    MeetsToo(t.g, t.Around(t.run, remaining - {cur}), t.parent, cur);
  }

  lemma ShapeGoesOn(t: Task, layout: seq<ElemId>, remaining: set<ElemId>, next: Option<ElemId>, first: ElemId, cur: ElemId, next': Option<ElemId>)
    requires InOrder(t) && cur in remaining && remaining <= t.body.elems && ComesNext(remaining, next, cur)
    requires (forall x :: x in layout <==> x in t.body.elems && x !in remaining) && ShapeMeets(t, layout, remaining, next, first)
    requires var around := t.Around(layout + [cur], remaining - {cur});
      && Meets(t.g, around, cur) && (|t.g[cur].made.exits| == 1 ==> next' == around.ElemAvail(t.g[cur].made.exits[0]))
      && (t.g[cur].made.detail.Loop? && NoneOffered(around, t.g[cur].made.exits) ==> next'.None?)
    ensures ShapeMeets(t, layout + [cur], remaining - {cur}, next', first)
  {
    if t.run != [] {
      if layout + [cur] == t.run {
        RunMeetsOn(t, layout, remaining, cur);
      }
    } else if t.parent.Parent? {
      LoneGoesOn(t, layout + [cur], remaining - {cur}, cur, next');
    } else if !BodyKnown(t.g, t.body) {
      WalkGoesOn(t, layout + [cur], remaining, next, cur, next');
    }
  }

  lemma AllLayMore(t: Task, layout: seq<ElemId>, cur: ElemId)
    requires AllLay(t, layout) && Keeps(t.g, t.u, cur) && JoinsMeet(t.g, t.u, cur)
    ensures AllLay(t, layout + [cur])
  {
    forall x | x in layout + [cur]
      ensures Keeps(t.g, t.u, x) && JoinsMeet(t.g, t.u, x)
    {
      assert x == cur || x in layout;
    }
  }

  lemma MeetingGoesOn(t: Task, fall: Falls, layout: seq<ElemId>, remaining: set<ElemId>, next: Option<ElemId>, first: ElemId,
                      cur: ElemId, next': Option<ElemId>)
    requires t.Ok() && Ordered(t, fall, layout, remaining, next, first) && Meeting(t, layout, remaining, next, first)
    requires cur in remaining && ComesNext(remaining, next, cur)
    requires var around := t.Around(layout + [cur], remaining - {cur});
      && Lays(t.g, t.u, cur, around) && (|t.g[cur].made.exits| == 1 ==> next' == around.ElemAvail(t.g[cur].made.exits[0]))
      && (t.g[cur].made.detail.Loop? && NoneOffered(around, t.g[cur].made.exits) ==> next'.None?)
    ensures Meeting(t, layout + [cur], remaining - {cur}, next', first)
  {
    assert InOrderBy(t, t.n);
    AllLayMore(t, layout, cur);
    ShapeGoesOn(t, layout, remaining, next, first, cur, next');
  }

  lemma BodyGoesOn(t: Task, d: Arena, fall: Falls, layout: seq<ElemId>, remaining: set<ElemId>, next: Option<ElemId>,
                   cur: ElemId, d': Arena, fall': Falls, next': Option<ElemId>)
    requires Underway(t, d, fall, layout, remaining, next) && cur in remaining && ComesNext(remaining, next, cur)
    requires ElemDone(t.cfg, t.g, t.u, d, fall, d', fall', cur, t.Around(layout + [cur], remaining - {cur}), next')
    ensures Underway(t, d', fall', layout + [cur], remaining - {cur}, next')
  {
    var first := t.body.LookupFromId(t.body.entry).value;
    assert Reached(t, d, fall, layout, remaining, next, first);
    OrderGoesOn(t, fall, layout, remaining, next, first, cur, fall', next');
    MeetingGoesOn(t, fall, layout, remaining, next, first, cur, next');
    OthersStayFresh(t.g, d, fall, d', fall', t.body.elems, cur, remaining - {cur});
    WiderByMember(t.g, d, fall, d', fall', t.body, t.full, t.v, cur);
    ScheduledTrans(t.g, t.d, t.fall, d, fall, d', fall', t.v, t.full);
  }

  /** The body `r` was laid out, and leaves to `next`. */
  ghost predicate BodyDone(t: Task, d: Arena, fall: Falls, r: Body, next: Option<ElemId>) {
    exists layout :: LaidInOrder(t, d, fall, r, next, layout)
  }

  ghost predicate LaidInOrder(t: Task, d: Arena, fall: Falls, r: Body, next: Option<ElemId>, layout: seq<ElemId>) {
    && LayoutState(t.cfg, t.g, d, fall)
    && Scheduled(t.g, t.d, t.fall, d, fall, t.v, t.full)
    && r == t.body.(layout := layout)
    && BodyLaid(t.g, r, fall, next) && BodyChosen(fall, r, t.parent) && Offered(t.parent, next)
    && (t.run != [] ==> next == t.parent.ElemAvail(t.n))
    && (t.run == [] && t.parent.Parent? ==> next.None?)
  }

  lemma ShapeMet(t: Task, layout: seq<ElemId>, next: Option<ElemId>, first: ElemId)
    requires InOrder(t) && ShapeMeets(t, layout, {}, next, first) && t.body.LookupFromId(t.body.entry) == Some(first)
    requires t.run != [] ==> layout == t.run
    ensures if t.parent.NoParent? then LoopMeets(t.g, t.body) else LastMeets(t.g, t.parent, t.body)
  {
    if t.run != [] {
      LastOfWay(t.g, t.parent, t.body, t.run, t.n);
    } else if t.parent.Parent? {
      LoneMeets(t);
    }
  }

  lemma BodyMet(t: Task, fall: Falls, layout: seq<ElemId>, next: Option<ElemId>, first: ElemId)
    requires t.Ok() && Ordered(t, fall, layout, {}, next, first) && Meeting(t, layout, {}, next, first)
    ensures t.Completes()
  {
    assert InOrderBy(t, t.n);
    if t.run != [] {
      RunGoesOn(t.body, t.run, layout, {}, next, t.parent.ElemAvail(t.n));
    }
    ShapeMet(t, layout, next, first);
    forall x | x in t.body.elems
      ensures Keeps(t.g, t.u, x) && JoinsMeet(t.g, t.u, x)
    {
      assert x in layout;
    }
  }

  lemma LoneMeets(t: Task)
    requires InOrder(t) && t.run == [] && t.parent.Parent?
    ensures LastMeets(t.g, t.parent, t.body)
  {
    var loop :| t.Lone(loop);
    forall run, n | RunsTo(t.g, t.body, run, n)
      ensures Meets(t.g, t.parent, LastMember(run))
    {
      assert LastMember(run) in run;
    }
  }

  /** The order that is written in the body does not matter to what is looked up in it. */
  lemma SameChosen(fall: Falls, b: Body, outer: Parent, layout: seq<ElemId>)
    requires AllChosen(fall, b, outer, layout)
    ensures BodyChosen(fall, b.(layout := layout), outer)
  {
    forall i | 0 <= i < |layout|
      ensures MemberChosen(fall, b.(layout := layout), outer, layout, i)
    {
      assert MemberChosen(fall, b, outer, layout, i);
    }
  }

  lemma BodyEnds(t: Task, d: Arena, fall: Falls, layout: seq<ElemId>, next: Option<ElemId>)
    requires Underway(t, d, fall, layout, {}, next)
    ensures BodyDone(t, d, fall, t.body.(layout := layout), next) && t.Completes()
  {
    var first := t.body.LookupFromId(t.body.entry).value;
    assert Reached(t, d, fall, layout, {}, next, first);
    if t.run != [] {
      RunGoesOn(t.body, t.run, layout, {}, next, t.parent.ElemAvail(t.n));
    }
    BodyMet(t, fall, layout, next, first);
    LaidAll(t.g, t.body, t.full, fall, layout, first, next);
    SameChosen(fall, t.body, t.parent, layout);
    assert LaidInOrder(t, d, fall, t.body.(layout := layout), next, layout);
  }

  /** The checked out element `e` was laid out as `e'`. */
  ghost predicate OutDone(cfg: Cfg, g: seq<Meta>, d: Arena, fall: Falls, d': Arena, fall': Falls,
                          id: ElemId, e: Elem, e': Elem, parent: Parent, next: Option<ElemId>)
    requires id < |g|
  {
    && id < |d'| && id !in fall' && d'[id].None?
    && LayoutState(cfg, g, d'[id := Some(e')], fall'[id := Choice(next, parent)])
    && Scheduled(g, d, fall, d', fall', g[id].leaves, g[id].loop)
    && Unlaid(e') == Unlaid(e)
    && Offered(parent, next)
    && (|e.exits| == 1 ==> next == parent.ElemAvail(e.exits[0]))
    && (e.detail.Loop? && NoneOffered(parent, e.exits) ==> next.None?)
  }

  lemma FinishElem(cfg: Cfg, g: seq<Meta>, u: Arena, d: Arena, fall: Falls, d': Arena, fall': Falls,
                   id: ElemId, e': Elem, parent: Parent, next: Option<ElemId>)
    requires Present(d, id) && |d| == |g| && Known(g, id) && id !in fall && SameKind(g[id].made, d[id].value) && Lays(g, u, id, parent)
    requires OutDone(cfg, g, d[id := None], fall, d', fall', id, d[id].value, e', parent, next)
    ensures ElemDone(cfg, g, u, d, fall, d'[id := Some(e')], fall'[id := Choice(next, parent)], id, parent, next)
  {
    FinishScheduled(g, d, fall, d', fall', id, e', parent, next);
  }

  ghost predicate Laid(cfg: Cfg, g: seq<Meta>, fall: Falls, id: ElemId, e: Elem, e': Elem, p: Parent, next: Option<ElemId>) {
    ElemOk(cfg, g, id, e') && ElemLaid(g, e', fall, next) && ElemChosen(fall, e', p, next) && Unlaid(e') == Unlaid(e)
  }

  /** A laid out element may go back to the arena. */
  lemma MayRelease(cfg: Cfg, g: seq<Meta>, d: Arena, fall: Falls, id: ElemId, e: Elem, e': Elem, p: Parent, next: Option<ElemId>)
    requires LayoutState(cfg, g, d, fall) && id < |d| && id !in fall && Laid(cfg, g, fall, id, e, e', p, next)
    ensures LayoutState(cfg, g, d[id := Some(e')], fall[id := Choice(next, p)]) && Unlaid(e') == Unlaid(e)
  {
    ReleaseLaid(g, d, fall, id, e', p, next);
    FinishArena(cfg, g, d, id, e');
  }

  lemma ExitsKnown(cfg: Cfg, g: seq<Meta>, id: ElemId, e: Elem)
    requires ElemOk(cfg, g, id, e)
    ensures forall i :: 0 <= i < |e.exits| ==> Known(g, e.exits[i])
  {
  }

  lemma LoopRelaid(cfg: Cfg, g: seq<Meta>, id: ElemId, e: Elem, body: Body)
    requires ElemOk(cfg, g, id, e) && e.detail.Loop? && body == e.detail.body.(layout := body.layout)
    ensures ElemOk(cfg, g, id, e.(detail := Loop(e.detail.backedges, body), jump := Some(NoJump)))
  {
  }

  lemma IfRelaid(cfg: Cfg, g: seq<Meta>, id: ElemId, e: Elem, arm: Body, other: Option<Body>, jump: Jump)
    requires ElemOk(cfg, g, id, e) && e.detail.If? && arm == e.detail.thenBody.(layout := arm.layout)
    requires other.Some? == e.detail.elseBody.Some?
    requires other.Some? ==> other.value == e.detail.elseBody.value.(layout := other.value.layout)
    ensures ElemOk(cfg, g, id, e.(detail := If(e.detail.inverted, arm, other), jump := Some(jump)))
  {
  }

  lemma OutExits(cfg: Cfg, g: seq<Meta>, d: Arena, fall: Falls, id: ElemId, e: Elem)
    requires Out(cfg, g, d, fall, id, e)
    ensures forall i :: 0 <= i < |e.exits| ==> Known(g, e.exits[i])
  {
    OutMeans(cfg, g, d, fall, id, e);
    ExitsKnown(cfg, g, id, e);
  }

  lemma BlockDone(cfg: Cfg, g: seq<Meta>, d: Arena, fall: Falls, id: ElemId, e: Elem, parent: Parent)
    requires Out(cfg, g, d, fall, id, e) && CfgOk(cfg) && e.detail.BasicBlock? && parent.Ok(g)
    ensures var (next, jump) := ScheduleBlock(e.exits, parent);
      OutDone(cfg, g, d, fall, d, fall, id, e, e.(jump := Some(jump)), parent, next) && BlockChosen(parent, e.exits, jump, next)
  {
    OutMeans(cfg, g, d, fall, id, e);
    ExitsKnown(cfg, g, id, e);
    ScheduleBlockOk(g, e.exits, parent);
    var (next, jump) := ScheduleBlock(e.exits, parent);
    MayRelease(cfg, g, d, fall, id, e, e.(jump := Some(jump)), parent, next);
    forall y | 0 <= y < |d|
      ensures SameSlot(d, d, y)
    {
    }
  }

  /** The checked out element `e`, as it is in the arena `u`, with what is known around it. */
  ghost predicate At(cfg: Cfg, g: seq<Meta>, u: Arena, d: Arena, fall: Falls, id: ElemId, e: Elem, parent: Parent) {
    && CfgOk(cfg) && Sound(cfg, g) && Out(cfg, g, d, fall, id, e) && Known(g, id)
    && parent.Parent? && parent.Ok(g) && parent.Spares(g, g[id].leaves)
    && Snap(u, d) && Present(u, id) && u[id].value == e && SameKind(g[id].made, e) && Ready(g, u, id)
  }

  lemma ElemStarts(cfg: Cfg, g: seq<Meta>, u: Arena, d: Arena, fall: Falls, id: ElemId, parent: Parent)
    requires ElemReady(cfg, g, u, d, fall, id, parent) && Known(g, id)
    ensures Present(d, id) && SameKind(g[id].made, d[id].value) && At(cfg, g, u, d[id := None], fall, id, d[id].value, parent)
  {
    var d0 :| d0 == d && ReadyIn(cfg, g, u, d0, fall, id, parent);
    StartElem(cfg, g, d, fall, id);
    assert FreshAt(d, fall, id);
    SnapCheckedOut(u, d, id);
    assert ElemAt(cfg, g, d, id);
  }

  // ------------------------------------------------------------------------
  // Loops.

  ghost predicate OfLoop(t: Task, id: ElemId, e: Elem, parent: Parent) {
    && e.detail.Loop? && id < |t.g| && At(t.cfg, t.g, t.u, t.d, t.fall, id, e, parent) && t.Ok()
    && t == Task(t.cfg, t.g, t.u, t.d, t.fall, e.detail.body, false, t.g[id].leaves, NoParent, [], t.n)
  }

  lemma LoopTask(cfg: Cfg, g: seq<Meta>, u: Arena, d: Arena, fall: Falls, id: ElemId, e: Elem, parent: Parent) returns (t: Task)
    requires At(cfg, g, u, d, fall, id, e, parent) && e.detail.Loop?
    ensures t == Task(cfg, g, u, d, fall, e.detail.body, false, g[id].leaves, NoParent, [], 0) && OfLoop(t, id, e, parent)
    ensures Waiting(t) && g[id].loop && e.detail.body.layout == []
  {
    OutMeans(cfg, g, d, fall, id, e);
    t := Task(cfg, g, u, d, fall, e.detail.body, false, g[id].leaves, NoParent, [], 0);
    PartFresh(cfg, g, d, fall, id, e, t.v, false);
    assert ToBeLaid(t, d);
  }

  lemma LoopWithin(t: Task, id: ElemId, e: Elem, parent: Parent)
    requires OfLoop(t, id, e, parent)
    ensures Known(t.g, id) && Present(t.u, id) && t.u[id].value == e && t.g[id].made.detail.Loop?
    ensures AllWithin(t.g, id, e.detail.body.elems)
  {
    OutMeans(t.cfg, t.g, t.d, t.fall, id, e);
    MembersWithin(t.g, id, e.detail.body, false);
  }

  /** A loop is laid out when its body is. */
  lemma LoopLays(t: Task, id: ElemId, e: Elem, parent: Parent)
    requires OfLoop(t, id, e, parent)
    ensures Lays(t.g, t.u, id, parent) <==> t.Completes()
  {
    LoopWithin(t, id, e, parent);
    LoopCompletes(t, id, e);
  }

  lemma LoopCompletes(t: Task, id: ElemId, e: Elem)
    requires Known(t.g, id) && Present(t.u, id) && t.u[id].value == e && e.detail.Loop? && AllWithin(t.g, id, e.detail.body.elems)
    requires t.body == e.detail.body && t.parent.NoParent?
    ensures Keeps(t.g, t.u, id) && JoinsMeet(t.g, t.u, id) <==> t.Completes()
  {
    var b := e.detail.body;
    assert forall x :: x in b.elems ==> Within(t.g, id, x);
    assert Keeps(t.g, t.u, id) <==> BodyKeeps(t.g, t.u, b);
    assert JoinsMeet(t.g, t.u, id) <==> LoopMeets(t.g, b) && BodyJoins(t.g, t.u, b);
  }

  lemma LoopLaid(t: Task, id: ElemId, e: Elem, parent: Parent, d: Arena, fall: Falls, body: Body, last: Option<ElemId>, next: Option<ElemId>)
    requires OfLoop(t, id, e, parent) && BodyDone(t, d, fall, body, last) && LoopChosen(parent, e.exits, next)
    ensures Laid(t.cfg, t.g, fall, id, e, e.(detail := Loop(e.detail.backedges, body), jump := Some(NoJump)), parent, next)
  {
    OutMeans(t.cfg, t.g, t.d, t.fall, id, e);
    LoopParts(t.cfg, t.g, fall, id, e, parent, body, next);
  }

  lemma LoopParts(cfg: Cfg, g: seq<Meta>, fall: Falls, id: ElemId, e: Elem, parent: Parent, body: Body, next: Option<ElemId>)
    requires ElemOk(cfg, g, id, e) && e.detail.Loop? && body == e.detail.body.(layout := body.layout)
    requires BodyLaid(g, body, fall, None) && BodyChosen(fall, body, NoParent) && LoopChosen(parent, e.exits, next)
    ensures Laid(cfg, g, fall, id, e, e.(detail := Loop(e.detail.backedges, body), jump := Some(NoJump)), parent, next)
  {
    LoopRelaid(cfg, g, id, e, body);
  }

  lemma LoopDone(t: Task, id: ElemId, e: Elem, parent: Parent, d: Arena, fall: Falls, body: Body, last: Option<ElemId>, next: Option<ElemId>)
    requires OfLoop(t, id, e, parent) && BodyDone(t, d, fall, body, last) && Offered(parent, next)
    requires (|e.exits| == 1 ==> next == parent.ElemAvail(e.exits[0])) && (NoneOffered(parent, e.exits) ==> next.None?)
    requires LoopChosen(parent, e.exits, next)
    ensures OutDone(t.cfg, t.g, t.d, t.fall, d, fall, id, e, e.(detail := Loop(e.detail.backedges, body), jump := Some(NoJump)), parent, next)
  {
    OutMeans(t.cfg, t.g, t.d, t.fall, id, e);
    PartScheduled(t.g, t.d, t.fall, d, fall, id, t.v, false);
    LoopLaid(t, id, e, parent, d, fall, body, last, next);
    MayRelease(t.cfg, t.g, d, fall, id, e, e.(detail := Loop(e.detail.backedges, body), jump := Some(NoJump)), parent, next);
  }

  // ------------------------------------------------------------------------
  // Ifs: the arms one after the other, both with what encloses the if.

  lemma IfHasOneExit(cfg: Cfg, g: seq<Meta>, d: Arena, fall: Falls, id: ElemId, e: Elem)
    requires Out(cfg, g, d, fall, id, e) && e.detail.If?
    ensures |e.exits| == 1 && Known(g, e.exits[0])
  {
    OutMeans(cfg, g, d, fall, id, e);
    ExitsKnown(cfg, g, id, e);
  }

  /** `t` lays out the arm of the if `e` that was made as `made`: straight, and so as it was made, or a ring. */
  ghost predicate ArmOf(t: Task, id: ElemId, e: Elem, arm: Body, made: Body, parent: Parent, u: Arena) {
    && id < |t.g| && |e.exits| == 1 && parent.Parent? && t.Ok() && PartOf(t.g, id, t.v, true)
    && t == Task(t.cfg, t.g, u, t.d, t.fall, arm, true, LeavesOf(t.g, arm.elems), parent, t.run, t.n)
    && (if t.run != [] then made == arm else Ringed(t.g, made) && parent.ElemAvail(e.exits[0]).None?)
  }

  ghost predicate OfThen(t: Task, id: ElemId, e: Elem, parent: Parent) {
    && Known(t.g, id) && e.detail.If? && |e.exits| == 1
    && forall d {:trigger ThenFrom(t, id, e, parent, d)} :: d == t.d ==> ThenFrom(t, id, e, parent, d)
  }

  ghost predicate ThenFrom(t: Task, id: ElemId, e: Elem, parent: Parent, d: Arena) {
    && d == t.d && e.detail.If? && id < |t.g| && At(t.cfg, t.g, t.u, t.d, t.fall, id, e, parent)
    && ArmOf(t, id, e, e.detail.thenBody, t.g[id].made.detail.thenBody, parent, t.u)
    && t.g[id].made.detail.elseBody.Some? == e.detail.elseBody.Some?
  }

  /** `t2` lays out the else-arm after the then-arm was laid out as `r`. */
  ghost predicate OfElse(t: Task, t2: Task, id: ElemId, e: Elem, parent: Parent, r: Body, next: Option<ElemId>) {
    && OfThen(t, id, e, parent) && e.detail.elseBody.Some?
    && (forall d {:trigger ElseFrom(t, t2, id, e, parent, r, next, d)} :: d == t2.d ==> ElseFrom(t, t2, id, e, parent, r, next, d))
  }

  ghost predicate ElseFrom(t: Task, t2: Task, id: ElemId, e: Elem, parent: Parent, r: Body, next: Option<ElemId>, d: Arena) {
    && d == t2.d && e.detail.If? && e.detail.elseBody.Some? && t2.cfg == t.cfg && t2.g == t.g
    && BodyDone(t, t2.d, t2.fall, r, next)
    && id < |t.g| && t.g[id].made.detail.If? && t.g[id].made.detail.elseBody.Some?
    && ArmOf(t2, id, e, e.detail.elseBody.value, t.g[id].made.detail.elseBody.value, parent, t.u)
  }

  /** The way through an arm that runs straight, or that nothing is offered for a ring and what is in it. */
  lemma WayOf(cfg: Cfg, g: seq<Meta>, u: Arena, id: ElemId, e: Elem, arm: Body, parent: Parent) returns (made: Body, run: seq<ElemId>, n: ElemId)
    requires Sound(cfg, g) && Known(g, id) && Present(u, id) && u[id].value == e && e.detail.If? && SameKind(g[id].made, e) && Ready(g, u, id)
    requires parent.Parent? && parent.Ok(g) && parent.Spares(g, g[id].leaves) && |e.exits| == 1
    requires arm == e.detail.thenBody || e.detail.elseBody == Some(arm)
    ensures g[id].made.detail.elseBody.Some? == e.detail.elseBody.Some?
    ensures run != [] ==> RunsTo(g, arm, run, n) && BodyKnown(g, arm)
    ensures run != [] ==> made == arm
    ensures run == [] ==> Ringed(g, made) && parent.ElemAvail(e.exits[0]).None?
    ensures run == [] ==> exists loop: ElemId :: arm.elems == {loop} && loop < |g| && g[loop].made.detail.Loop? && NoneOffered(parent, g[loop].made.exits)
    ensures made == if arm == e.detail.thenBody then g[id].made.detail.thenBody else g[id].made.detail.elseBody.value
  {
    var was := g[id].made.detail;
    made := if arm == e.detail.thenBody then was.thenBody else was.elseBody.value;
    run, n := [], 0;
    if was.thenBody == e.detail.thenBody && was.elseBody == e.detail.elseBody && Straight(g, arm) && BodyKnown(g, arm) {
      run, n :| RunsTo(g, arm, run, n);
    } else {
      var loop: ElemId :| RoundAbout(g, id, arm, loop);
      SparedIsNotOffered(cfg, g, parent, g[id].leaves, e.exits[0]);
      forall i | 0 <= i < |g[loop].made.exits|
        ensures parent.ElemAvail(g[loop].made.exits[i]).None?
      {
        SparedIsNotOffered(cfg, g, parent, g[id].leaves, g[loop].made.exits[i]);
      }
    }
  }

  /** The task of laying out one arm of the if `e`, in the arena `d`. */
  lemma ArmReady(cfg: Cfg, g: seq<Meta>, u: Arena, d: Arena, fall: Falls, id: ElemId, e: Elem, parent: Parent, arm: Body)
    returns (t: Task, made: Body)
    requires CfgOk(cfg) && Sound(cfg, g) && Known(g, id) && ElemOk(cfg, g, id, e) && e.detail.If?
    requires arm == e.detail.thenBody || e.detail.elseBody == Some(arm)
    requires parent.Parent? && parent.Ok(g) && parent.Spares(g, g[id].leaves)
    requires Snap(u, d) && Present(u, id) && u[id].value == e && SameKind(g[id].made, e) && Ready(g, u, id)
    ensures t == Task(cfg, g, u, d, fall, arm, true, LeavesOf(g, arm.elems), parent, t.run, t.n) && t.v < g[id].leaves
    ensures ArmOf(t, id, e, arm, made, parent, u) && g[id].made.detail.elseBody.Some? == e.detail.elseBody.Some?
    ensures made == if arm == e.detail.thenBody then g[id].made.detail.thenBody else g[id].made.detail.elseBody.value
  {
    IfParts(cfg, g, id, e);
    var m, run, n := WayOf(cfg, g, u, id, e, arm, parent);
    made := m;
    SparesFewer(g, parent, g[id].leaves, LeavesOf(g, arm.elems));
    t := Task(cfg, g, u, d, fall, arm, true, LeavesOf(g, arm.elems), parent, run, n);
    LoneOrStraight(t);
  }

  lemma ArmTask(cfg: Cfg, g: seq<Meta>, u: Arena, d: Arena, fall: Falls, id: ElemId, e: Elem, parent: Parent) returns (t: Task)
    requires At(cfg, g, u, d, fall, id, e, parent) && e.detail.If?
    ensures Waiting(t) && t.v < g[id].leaves && OfThen(t, id, e, parent) && e.detail.thenBody.layout == []
    ensures t == Task(cfg, g, u, d, fall, e.detail.thenBody, true, t.v, parent, t.run, t.n)
  {
    OutMeans(cfg, g, d, fall, id, e);
    var t0, made := ArmReady(cfg, g, u, d, fall, id, e, parent, e.detail.thenBody);
    t := t0;
    PartFresh(cfg, g, d, fall, id, e, t.v, true);
    assert ThenFrom(t, id, e, parent, d);
    assert ToBeLaid(t, d);
  }

  lemma LoneOrStraight(t: Task)
    requires t.parent.Parent? && (t.run != [] ==> RunsTo(t.g, t.body, t.run, t.n) && BodyKnown(t.g, t.body))
    requires t.run == [] ==> exists loop: ElemId :: t.body.elems == {loop} && loop < |t.g| && t.g[loop].made.detail.Loop? && NoneOffered(t.parent, t.g[loop].made.exits)
    ensures t.Shaped()
  {
    if t.run == [] {
      var loop: ElemId :| t.body.elems == {loop} && loop < |t.g| && t.g[loop].made.detail.Loop? && NoneOffered(t.parent, t.g[loop].made.exits);
      assert t.Lone(loop);
    }
  }

  lemma OtherTask(t: Task, id: ElemId, e: Elem, parent: Parent, d: Arena, fall: Falls, r: Body, next: Option<ElemId>) returns (t2: Task)
    requires OfThen(t, id, e, parent) && BodyDone(t, d, fall, r, next) && e.detail.elseBody.Some?
    ensures parent.Parent? && Waiting(t2) && t2.v < t.g[id].leaves && OfElse(t, t2, id, e, parent, r, next) && t2.body.layout == []
    ensures t2 == Task(t.cfg, t.g, t.u, d, fall, e.detail.elseBody.value, true, t2.v, parent, t2.run, t2.n)
  {
    assert ThenFrom(t, id, e, parent, t.d);
    var arm := e.detail.elseBody.value;
    OutMeans(t.cfg, t.g, t.d, t.fall, id, e);
    SnapKeeps(t.u, t.d, d);
    var t0, made := ArmReady(t.cfg, t.g, t.u, d, fall, id, e, parent, arm);
    t2 := t0;
    ArmsDiffer(t.cfg, t.g, id, e);
    PartFresh(t.cfg, t.g, t.d, t.fall, id, e, t2.v, true);
    ApartStaysFresh(t.g, t.d, t.fall, d, fall, t.v, true, t2.v, true);
    assert ElseFrom(t, t2, id, e, parent, r, next, d);
    assert ToBeLaid(t2, d);
  }

  lemma ArmsDiffer(cfg: Cfg, g: seq<Meta>, id: ElemId, e: Elem)
    requires ElemOk(cfg, g, id, e) && e.detail.If? && e.detail.elseBody.Some?
    ensures e.detail.elseBody.value != e.detail.thenBody && LeavesOf(g, e.detail.thenBody.elems) !! LeavesOf(g, e.detail.elseBody.value.elems)
  {
    var b :| b in LeavesOf(g, e.detail.thenBody.elems);
  }

  lemma ArmsWithin(t: Task, id: ElemId, e: Elem, parent: Parent)
    requires OfThen(t, id, e, parent)
    ensures Present(t.u, id) && t.u[id].value == e && AllWithin(t.g, id, e.detail.thenBody.elems)
    ensures e.detail.elseBody.Some? ==> AllWithin(t.g, id, e.detail.elseBody.value.elems)
  {
    assert ThenFrom(t, id, e, parent, t.d);
    OutMeans(t.cfg, t.g, t.d, t.fall, id, e);
    IfParts(t.cfg, t.g, id, e);
    MembersWithin(t.g, id, e.detail.thenBody, true);
    if e.detail.elseBody.Some? {
      MembersWithin(t.g, id, e.detail.elseBody.value, true);
    }
  }

  ghost predicate ArmLays(g: seq<Meta>, u: Arena, p: Parent, arm: Body) {
    BodyKeeps(g, u, arm) && BodyJoins(g, u, arm) && LastMeets(g, p, arm)
  }

  ghost predicate ArmsLay(g: seq<Meta>, u: Arena, p: Parent, e: Elem)
    requires e.detail.If?
  {
    ArmLays(g, u, p, e.detail.thenBody) && (e.detail.elseBody.Some? ==> ArmLays(g, u, p, e.detail.elseBody.value))
  }

  /** Below an if no entry is lost and all joins are met when that is so in its arms. */
  lemma IfKeeps(t: Task, id: ElemId, e: Elem, parent: Parent)
    requires OfThen(t, id, e, parent)
    ensures Keeps(t.g, t.u, id) <==>
      BodyKeeps(t.g, t.u, e.detail.thenBody) && (e.detail.elseBody.Some? ==> BodyKeeps(t.g, t.u, e.detail.elseBody.value))
    ensures JoinsMeet(t.g, t.u, id) <==>
      BodyJoins(t.g, t.u, e.detail.thenBody) && (e.detail.elseBody.Some? ==> BodyJoins(t.g, t.u, e.detail.elseBody.value))
  {
    ArmsWithin(t, id, e, parent);
  }

  /** What an arm is offered, given what it is made of. */
  lemma ArmChoice(t: Task, id: ElemId, e: Elem, arm: Body, made: Body, parent: Parent, u: Arena, next: Option<ElemId>)
    requires ArmOf(t, id, e, arm, made, parent, u) && e.exits == t.g[id].made.exits && AllWithin(t.g, id, arm.elems) && !t.g[id].loop
    requires if t.run != [] then next == parent.ElemAvail(t.n) else next.None?
    requires LastMeets(t.g, parent, arm)
    ensures next == parent.ElemAvail(e.exits[0]) <==> ArmMeets(t.g, parent, id, made)
  {
    if t.run != [] {
      forall y | y in arm.elems
        ensures y < |t.g| && t.g[y].leaves < t.g[id].leaves
      {
        assert Within(t.g, id, y);
      }
      WayMeets(t.g, parent, id, arm, t.run, t.n);
    } else {
      forall run, n
        ensures !RunsTo(t.g, made, run, n)
      {
        RingDoesNotRun(t.g, made, run, n);
      }
    }
  }

  /** If what encloses an if meets it, its arms are met too. */
  lemma ArmsMeet(g: seq<Meta>, u: Arena, id: ElemId, e: Elem, parent: Parent)
    requires Ready(g, u, id) && u[id].value == e && e.detail.If? && Meets(g, parent, id)
    ensures LastMeets(g, parent, e.detail.thenBody) && (e.detail.elseBody.Some? ==> LastMeets(g, parent, e.detail.elseBody.value))
  {
    if g[id].made.detail.thenBody != e.detail.thenBody || g[id].made.detail.elseBody != e.detail.elseBody {
      var loop: ElemId :| RoundAbout(g, id, e.detail.thenBody, loop);
      assert Ready(g, u, loop);
      forall run, n | RunsTo(g, e.detail.thenBody, run, n)
        ensures Meets(g, parent, LastMember(run))
      {
        assert LastMember(run) in run;
      }
    }
  }

  lemma IfLays(t: Task, id: ElemId, e: Elem, parent: Parent)
    requires OfThen(t, id, e, parent)
    ensures t.parent == parent && parent.Parent? && t.body == e.detail.thenBody
    ensures Lays(t.g, t.u, id, parent) ==> ArmsLay(t.g, t.u, parent, e)
  {
    assert ThenFrom(t, id, e, parent, t.d);
    IfKeeps(t, id, e, parent);
    if Meets(t.g, parent, id) {
      ArmsMeet(t.g, t.u, id, e, parent);
    }
  }

  function IfLaidOut(e: Elem, r: Body, other: Option<Body>, next: Option<ElemId>): Elem
    requires e.detail.If? && |e.exits| == 1
  {
    e.(detail := If(e.detail.inverted, r, other), jump := Some(if next.Some? then UncondFallthrough else UncondTarget(e.exits[0])))
  }

  lemma IfLaid(cfg: Cfg, g: seq<Meta>, fall: Falls, id: ElemId, e: Elem, parent: Parent, r: Body, other: Option<Body>, next: Option<ElemId>)
    requires ElemOk(cfg, g, id, e) && e.detail.If? && Bare(e) && parent.Ok(g) && next == parent.ElemAvail(e.exits[0])
    requires r == e.detail.thenBody.(layout := r.layout) && BodyLaid(g, r, fall, next) && BodyChosen(fall, r, parent)
    requires other.Some? == e.detail.elseBody.Some?
    requires other.Some? ==> other.value == e.detail.elseBody.value.(layout := other.value.layout) && BodyLaid(g, other.value, fall, next)
    requires other.Some? ==> BodyChosen(fall, other.value, parent)
    ensures Laid(cfg, g, fall, id, e, IfLaidOut(e, r, other, next), parent, next)
  {
    AvailMeans(g, parent, e.exits[0]);
    IfRelaid(cfg, g, id, e, r, other, IfLaidOut(e, r, other, next).jump.value);
  }

  lemma OneArmDone(t: Task, id: ElemId, e: Elem, parent: Parent, d: Arena, fall: Falls, r: Body, next: Option<ElemId>)
    requires OfThen(t, id, e, parent) && e.detail.elseBody.None? && BodyDone(t, d, fall, r, next) && next == parent.ElemAvail(e.exits[0])
    ensures OutDone(t.cfg, t.g, t.d, t.fall, d, fall, id, e, IfLaidOut(e, r, None, next), parent, next)
  {
    assert ThenFrom(t, id, e, parent, t.d);
    OutMeans(t.cfg, t.g, t.d, t.fall, id, e);
    PartScheduled(t.g, t.d, t.fall, d, fall, id, t.v, true);
    IfLaid(t.cfg, t.g, fall, id, e, parent, r, None, next);
    MayRelease(t.cfg, t.g, d, fall, id, e, IfLaidOut(e, r, None, next), parent, next);
  }

  lemma BothScheduled(t: Task, t2: Task, id: ElemId, e: Elem, parent: Parent, d: Arena, fall: Falls, r: Body, next: Option<ElemId>)
    requires OfElse(t, t2, id, e, parent, r, next) && Scheduled(t2.g, t2.d, t2.fall, d, fall, t2.v, true)
    ensures Scheduled(t.g, t.d, t.fall, d, fall, t.g[id].leaves, t.g[id].loop)
    ensures d[id].None? && id !in fall && BodyLaid(t.g, r, fall, next) && BodyChosen(fall, r, parent)
  {
    assert ThenFrom(t, id, e, parent, t.d);
    assert ElseFrom(t, t2, id, e, parent, r, next, t2.d);
    OutMeans(t.cfg, t.g, t.d, t.fall, id, e);
    PartScheduled(t.g, t.d, t.fall, t2.d, t2.fall, id, t.v, true);
    PartScheduled(t.g, t2.d, t2.fall, d, fall, id, t2.v, true);
    ScheduledTrans(t.g, t.d, t.fall, t2.d, t2.fall, d, fall, t.g[id].leaves, t.g[id].loop);
    BodyLaidExtends(t.g, r, t2.fall, fall, next);
    AllChosenExtends(t2.fall, fall, r, parent, r.layout);
  }

  lemma TwoArmsDone(t: Task, t2: Task, id: ElemId, e: Elem, parent: Parent, d: Arena, fall: Falls, r: Body, r2: Body, next: Option<ElemId>)
    requires OfElse(t, t2, id, e, parent, r, next) && BodyDone(t2, d, fall, r2, next) && next == parent.ElemAvail(e.exits[0])
    ensures OutDone(t.cfg, t.g, t.d, t.fall, d, fall, id, e, IfLaidOut(e, r, Some(r2), next), parent, next)
  {
    assert ThenFrom(t, id, e, parent, t.d);
    assert ElseFrom(t, t2, id, e, parent, r, next, t2.d);
    BothScheduled(t, t2, id, e, parent, d, fall, r, next);
    OutMeans(t.cfg, t.g, t.d, t.fall, id, e);
    IfLaid(t.cfg, t.g, fall, id, e, parent, r, Some(r2), next);
    MayRelease(t.cfg, t.g, d, fall, id, e, IfLaidOut(e, r, Some(r2), next), parent, next);
  }

  /** After the then-arm was laid out as `r`, the else-arm, if there is one, was laid out as `other`. */
  ghost predicate ArmsDone(t: Task, t2: Task, id: ElemId, e: Elem, parent: Parent, d: Arena, fall: Falls,
                           r: Body, thenNext: Option<ElemId>, other: Option<Body>, elseNext: Option<ElemId>) {
    && OfThen(t, id, e, parent)
    && other.Some? == e.detail.elseBody.Some?
    && if other.None? then elseNext == parent.ElemAvail(e.exits[0]) && BodyDone(t, d, fall, r, thenNext)
       else OfElse(t, t2, id, e, parent, r, thenNext) && BodyDone(t2, d, fall, other.value, elseNext)
  }

  ghost predicate ElseDone(t: Task, id: ElemId, e: Elem, parent: Parent, d: Arena, fall: Falls,
                           r: Body, thenNext: Option<ElemId>, other: Option<Body>, elseNext: Option<ElemId>) {
    exists t2 :: ArmsDone(t, t2, id, e, parent, d, fall, r, thenNext, other, elseNext)
  }

  lemma NoElse(t: Task, id: ElemId, e: Elem, parent: Parent, d: Arena, fall: Falls, r: Body, next: Option<ElemId>)
    requires OfThen(t, id, e, parent) && e.detail.elseBody.None? && BodyDone(t, d, fall, r, next)
    ensures ElseDone(t, id, e, parent, d, fall, r, next, None, parent.ElemAvail(e.exits[0]))
  {
    assert ArmsDone(t, t, id, e, parent, d, fall, r, next, None, parent.ElemAvail(e.exits[0]));
  }

  lemma ElseLaid(t: Task, t2: Task, id: ElemId, e: Elem, parent: Parent, d: Arena, fall: Falls,
                 r: Body, next: Option<ElemId>, other: Body, elseNext: Option<ElemId>)
    requires OfElse(t, t2, id, e, parent, r, next) && BodyDone(t2, d, fall, other, elseNext)
    ensures ElseDone(t, id, e, parent, d, fall, r, next, Some(other), elseNext)
  {
    assert ArmsDone(t, t2, id, e, parent, d, fall, r, next, Some(other), elseNext);
  }

  lemma IfDone(t: Task, id: ElemId, e: Elem, parent: Parent, d: Arena, fall: Falls, r: Body, other: Option<Body>, next: Option<ElemId>)
    requires ElseDone(t, id, e, parent, d, fall, r, next, other, next) && |e.exits| == 1 && next == parent.ElemAvail(e.exits[0])
    ensures e.detail.If? && |e.exits| == 1
    ensures OutDone(t.cfg, t.g, t.d, t.fall, d, fall, id, e, IfLaidOut(e, r, other, next), parent, next)
  {
    var t2 :| ArmsDone(t, t2, id, e, parent, d, fall, r, next, other, next);
    if other.None? {
      OneArmDone(t, id, e, parent, d, fall, r, next);
    } else {
      TwoArmsDone(t, t2, id, e, parent, d, fall, r, other.value, next);
    }
  }

  /** Both asserts of the source hold exactly when what encloses the if meets it. */
  lemma ArmsAgree(t: Task, id: ElemId, e: Elem, parent: Parent, d: Arena, fall: Falls,
                  r: Body, thenNext: Option<ElemId>, other: Option<Body>, elseNext: Option<ElemId>)
    requires ElseDone(t, id, e, parent, d, fall, r, thenNext, other, elseNext) && e.detail.If? && |e.exits| == 1
    requires LastMeets(t.g, parent, e.detail.thenBody) && (e.detail.elseBody.Some? ==> LastMeets(t.g, parent, e.detail.elseBody.value))
    ensures thenNext == parent.ElemAvail(e.exits[0]) && elseNext == parent.ElemAvail(e.exits[0]) <==> Meets(t.g, parent, id)
  {
    var t2 :| ArmsDone(t, t2, id, e, parent, d, fall, r, thenNext, other, elseNext);
    IfIsNoLoop(t, id, e, parent);
    if other.None? {
      ThenChoice(t, id, e, parent, d, fall, r, thenNext);
    } else {
      ElseChoice(t, t2, id, e, parent, d, fall, r, thenNext, other.value, elseNext);
    }
  }

  lemma ThenChoice(t: Task, id: ElemId, e: Elem, parent: Parent, d: Arena, fall: Falls, r: Body, next: Option<ElemId>)
    requires OfThen(t, id, e, parent) && BodyDone(t, d, fall, r, next) && LastMeets(t.g, parent, e.detail.thenBody)
    ensures t.g[id].made.detail.If? && |t.g[id].made.exits| == 1
    ensures next == parent.ElemAvail(e.exits[0]) <==> ArmMeets(t.g, parent, id, t.g[id].made.detail.thenBody)
  {
    assert ThenFrom(t, id, e, parent, t.d);
    ArmsWithin(t, id, e, parent);
    IfIsNoLoop(t, id, e, parent);
    DoneChoice(t, d, fall, r, next);
    ArmChoice(t, id, e, e.detail.thenBody, t.g[id].made.detail.thenBody, parent, t.u, next);
  }

  lemma ElseChoice(t: Task, t2: Task, id: ElemId, e: Elem, parent: Parent, d: Arena, fall: Falls,
                   r: Body, next: Option<ElemId>, other: Body, elseNext: Option<ElemId>)
    requires OfElse(t, t2, id, e, parent, r, next) && BodyDone(t2, d, fall, other, elseNext)
    requires LastMeets(t.g, parent, e.detail.thenBody) && LastMeets(t.g, parent, e.detail.elseBody.value)
    ensures t.g[id].made.detail.If? && t.g[id].made.detail.elseBody.Some? && |t.g[id].made.exits| == 1
    ensures next == parent.ElemAvail(e.exits[0]) <==> ArmMeets(t.g, parent, id, t.g[id].made.detail.thenBody)
    ensures elseNext == parent.ElemAvail(e.exits[0]) <==> ArmMeets(t.g, parent, id, t.g[id].made.detail.elseBody.value)
  {
    assert ElseFrom(t, t2, id, e, parent, r, next, t2.d);
    ThenChoice(t, id, e, parent, t2.d, t2.fall, r, next);
    ArmsWithin(t, id, e, parent);
    IfIsNoLoop(t, id, e, parent);
    DoneChoice(t2, d, fall, other, elseNext);
    ArmChoice(t2, id, e, e.detail.elseBody.value, t.g[id].made.detail.elseBody.value, parent, t.u, elseNext);
  }

  lemma DoneChoice(t: Task, d: Arena, fall: Falls, r: Body, next: Option<ElemId>)
    requires BodyDone(t, d, fall, r, next) && t.parent.Parent?
    ensures if t.run != [] then next == t.parent.ElemAvail(t.n) else next.None?
  {
  }

  lemma IfIsNoLoop(t: Task, id: ElemId, e: Elem, parent: Parent)
    requires OfThen(t, id, e, parent)
    ensures !t.g[id].loop && t.g[id].made.detail.If? && t.g[id].made.exits == e.exits
    ensures t.g[id].made.detail.elseBody.Some? == e.detail.elseBody.Some?
  {
    assert ThenFrom(t, id, e, parent, t.d);
  }
}
