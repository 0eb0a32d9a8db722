/** When laying out a folded structure completes: when every body still holds what it is entered at, and in every
    loop that was made of an arm the ifs meet their joins. */
module Progress {
  import opened Wrappers
  import opened ControlFlow
  import opened Ownership
  import opened Structure
  import opened Steps
  import opened Names
  import opened Arms
  import opened Levels
  import opened Rings
  import opened Enclosing

  /** An element before layout: without its jump, and with no order in its bodies. */
  function Unlaid(e: Elem): Elem {
    e.(jump := None, detail :=
      match e.detail
      case BasicBlock(_) => e.detail
      case Loop(backedges, body) => Loop(backedges, body.(layout := []))
      case If(inverted, arm, other) =>
        If(inverted, arm.(layout := []), if other.Some? then Some(other.value.(layout := [])) else None))
  }

  ghost predicate SameSlot(d: Arena, d': Arena, id: ElemId)
    requires id < |d| && id < |d'|
  {
    d[id].Some? == d'[id].Some? && (d[id].Some? ==> Unlaid(d[id].value) == Unlaid(d'[id].value))
  }

  /** Nothing but jumps and orders differs. */
  ghost predicate SameSlots(d: Arena, d': Arena) {
    |d| == |d'| && forall id :: 0 <= id < |d| ==> SameSlot(d, d', id)
  }

  lemma SameSlotsTrans(d: Arena, d1: Arena, d2: Arena)
    requires SameSlots(d, d1) && SameSlots(d1, d2)
    ensures SameSlots(d, d2)
  {
    forall id | 0 <= id < |d|
      ensures SameSlot(d, d2, id)
    {
      assert SameSlot(d, d1, id) && SameSlot(d1, d2, id);
    }
  }

  ghost predicate SnapAt(u: Arena, d: Arena, id: ElemId) {
    Present(d, id) ==> Present(u, id) && Bare(u[id].value) && Unlaid(d[id].value) == u[id].value
  }

  /** `u` is the arena before layout; elements may be checked out of `d`. */
  ghost predicate Snap(u: Arena, d: Arena) {
    forall id: nat {:trigger SnapAt(u, d, id)} :: SnapAt(u, d, id)
  }

  lemma SnapStarts(u: Arena)
    requires AllBare(u)
    ensures Snap(u, u)
  {
    forall id: nat
      ensures SnapAt(u, u, id)
    {
      assert id < |u| ==> BareAt(u, id);
    }
  }

  lemma SnapKeeps(u: Arena, d: Arena, d': Arena)
    requires Snap(u, d) && SameSlots(d, d')
    ensures Snap(u, d')
  {
    forall id: nat
      ensures SnapAt(u, d', id)
    {
      assert SnapAt(u, d, id);
      assert id < |d| ==> SameSlot(d, d', id);
    }
  }

  lemma SnapCheckedOut(u: Arena, d: Arena, id: ElemId)
    requires Snap(u, d) && Present(d, id) && Bare(d[id].value)
    ensures Present(u, id) && u[id] == d[id] && Snap(u, d[id := None])
  {
    assert SnapAt(u, d, id);
    var d' := d[id := None];
    forall y: nat
      ensures SnapAt(u, d', y)
    {
      assert SnapAt(u, d, y);
    }
  }

  // ------------------------------------------------------------------------
  // Bodies that keep their entries.

  /** No body below the element has lost its entry. */
  ghost predicate Keeps(g: seq<Meta>, u: Arena, id: ElemId)
    decreases if id < |g| then g[id].leaves else {}, id < |g| && g[id].loop
  {
    Known(g, id) && Present(u, id) &&
    match u[id].value.detail
    case BasicBlock(_) => true
    case Loop(_, b) => b.LookupFromId(b.entry).Some? && forall x :: x in b.elems ==> Within(g, id, x) && Keeps(g, u, x)
    case If(_, arm, other) =>
      && arm.LookupFromId(arm.entry).Some? && (forall x :: x in arm.elems ==> Within(g, id, x) && Keeps(g, u, x))
      && (other.Some? ==>
            other.value.LookupFromId(other.value.entry).Some? && forall x :: x in other.value.elems ==> Within(g, id, x) && Keeps(g, u, x))
  }

  /** Neither this body nor any below it has lost its entry. */
  ghost predicate BodyKeeps(g: seq<Meta>, u: Arena, b: Body) {
    b.LookupFromId(b.entry).Some? && forall x {:trigger Keeps(g, u, x)} :: x in b.elems ==> Keeps(g, u, x)
  }

  // ------------------------------------------------------------------------
  // Loops whose ifs meet their joins.

  /** Of the members `left`, the one that `next` names comes next, or else the least. */
  ghost predicate ComesNext(left: set<ElemId>, next: Option<ElemId>, cur: ElemId) {
    if next.Some? then cur == next.value else cur in left && forall x :: x in left ==> cur <= x
  }

  /** Going through the members `left` from `next` on, each time to where the member's exit leads if that is left and
      else to the least that is left, every if is met by what its arms are offered. */
  ghost predicate WalkMeets(g: seq<Meta>, b: Body, left: set<ElemId>, next: Option<ElemId>)
    decreases left
  {
    left == {} ||
    forall cur: ElemId {:trigger ComesNext(left, next, cur)} :: ComesNext(left, next, cur) ==>
      && cur in left && cur < |g| && |g[cur].made.exits| == 1
      && var p := Parent(b, left - {cur}, NoParent);
      Meets(g, p, cur) && WalkMeets(g, b, left - {cur}, p.ElemAvail(g[cur].made.exits[0]))
  }

  /** The body of a loop knows the joins below its members, or they are met where it is laid out. */
  ghost predicate LoopMeets(g: seq<Meta>, b: Body) {
    BodyKnown(g, b) || WalkMeets(g, b, b.elems, b.LookupFromId(b.entry))
  }

  /** In every loop at or below the element the ifs meet their joins. */
  ghost predicate JoinsMeet(g: seq<Meta>, u: Arena, id: ElemId)
    decreases if id < |g| then g[id].leaves else {}, id < |g| && g[id].loop
  {
    Known(g, id) && Present(u, id) &&
    match u[id].value.detail
    case BasicBlock(_) => true
    case Loop(_, b) => LoopMeets(g, b) && forall x :: x in b.elems ==> Within(g, id, x) && JoinsMeet(g, u, x)
    case If(_, arm, other) =>
      && (forall x :: x in arm.elems ==> Within(g, id, x) && JoinsMeet(g, u, x))
      && (other.Some? ==> forall x :: x in other.value.elems ==> Within(g, id, x) && JoinsMeet(g, u, x))
  }

  ghost predicate BodyJoins(g: seq<Meta>, u: Arena, b: Body) {
    forall x {:trigger JoinsMeet(g, u, x)} :: x in b.elems ==> JoinsMeet(g, u, x)
  }

  // ------------------------------------------------------------------------
  // What layout relies on below an element.

  ghost predicate SingleExits(g: seq<Meta>, b: Body) {
    forall x :: x in b.elems ==> x < |g| && |g[x].made.exits| == 1
  }

  /** All these names lead to blocks of the element. */
  ghost predicate OwnNames(g: seq<Meta>, id: ElemId, names: seq<ElemId>)
    requires id < |g|
  {
    forall i :: 0 <= i < |names| ==> Known(g, names[i]) && g[names[i]].head in g[id].leaves
  }

  /** An arm that was a ring: one loop, which neither it nor the if leaves by any name. */
  ghost predicate RoundAbout(g: seq<Meta>, id: ElemId, arm: Body, loop: ElemId)
    requires id < |g|
  {
    && arm.elems == {loop} && loop < |g| && g[loop].made.detail.Loop?
    && OwnNames(g, id, g[loop].made.exits) && OwnNames(g, id, g[id].made.exits)
  }

  /** The arms of an if are ready: straight, as they were made, or the one arm is a ring. */
  ghost predicate ArmsReady(g: seq<Meta>, id: ElemId, arm: Body, other: Option<Body>)
    requires id < |g| && g[id].made.detail.If?
  {
    var made := g[id].made.detail;
    || (made.thenBody == arm && made.elseBody == other && Straight(g, arm) && BodyKnown(g, arm)
        && (other.Some? ==> Straight(g, other.value) && BodyKnown(g, other.value)))
    || (made.elseBody.None? && other.None? && Ringed(g, made.thenBody) && exists loop :: RoundAbout(g, id, arm, loop))
  }

  ghost predicate Ready(g: seq<Meta>, u: Arena, id: ElemId)
    decreases if id < |g| then g[id].leaves else {}, id < |g| && g[id].loop
  {
    Known(g, id) && Present(u, id) && SameKind(g[id].made, u[id].value) &&
    match u[id].value.detail
    case BasicBlock(_) => true
    case Loop(_, b) => (BodyKnown(g, b) || SingleExits(g, b)) && forall x :: x in b.elems ==> Within(g, id, x) && Ready(g, u, x)
    case If(_, arm, other) =>
      && ArmsReady(g, id, arm, other)
      && (forall x :: x in arm.elems ==> Within(g, id, x) && Ready(g, u, x))
      && (other.Some? ==> forall x :: x in other.value.elems ==> Within(g, id, x) && Ready(g, u, x))
  }

  ghost predicate BodyReady(g: seq<Meta>, u: Arena, b: Body) {
    forall x {:trigger Ready(g, u, x)} :: x in b.elems ==> Ready(g, u, x)
  }

  /** A structure folded as the source does is ready to be laid out. */
  lemma {:induction false} FoldedIsReady(cfg: Cfg, g: seq<Meta>, d: Arena, id: ElemId)
    requires Sound(cfg, g) && WellMade(cfg, g, id) && FoldedBelow(g, d, id)
    ensures Ready(g, d, id)
    decreases g[id].leaves, g[id].loop, 2
  {
    match d[id].value.detail {
      case BasicBlock(_) =>
      case Loop(backedges, body) =>
        FoldedBodyKnows(cfg, g, g[id].made.detail.body, backedges, body);
        MembersAreReady(cfg, g, d, id, body.elems);
      case If(_, arm, other) =>
        if Straight(g, g[id].made.detail.thenBody) {
          StraightIsReady(cfg, g, d, id);
        } else {
          RingIsReady(cfg, g, d, id);
        }
    }
  }

  lemma StraightIsReady(cfg: Cfg, g: seq<Meta>, d: Arena, id: ElemId)
    requires Sound(cfg, g) && WellMade(cfg, g, id) && FoldedBelow(g, d, id)
    requires g[id].made.detail.If? && Straight(g, g[id].made.detail.thenBody)
    ensures Ready(g, d, id)
    decreases g[id].leaves, g[id].loop, 1
  {
    var made, now := g[id].made.detail, d[id].value.detail;
    StraightStays(g, made.thenBody, now.thenBody);
    MembersAreReady(cfg, g, d, id, now.thenBody.elems);
    if now.elseBody.Some? {
      StraightStays(g, made.elseBody.value, now.elseBody.value);
      MembersAreReady(cfg, g, d, id, now.elseBody.value.elems);
    }
  }

  /** The loop that a ring became has the members of the ring, and stays as it was made. */
  lemma RingIsReady(cfg: Cfg, g: seq<Meta>, d: Arena, id: ElemId)
    requires Sound(cfg, g) && WellMade(cfg, g, id) && FoldedBelow(g, d, id)
    requires g[id].made.detail.If? && !Straight(g, g[id].made.detail.thenBody)
    ensures Ready(g, d, id)
    decreases g[id].leaves, g[id].loop, 1
  {
    var made, arm := g[id].made.detail.thenBody, d[id].value.detail.thenBody;
    var run :| RunsRound(g, made, run);
    var loop := RingFolds(g, made, run, arm);
    assert Within(g, id, loop) && FoldedBelow(g, d, loop);
    RingBodyStays(g, made, run, d[loop].value.detail.body);
    forall x | x in made.elems
      ensures Within(g, id, x) && FoldedBelow(g, d, x) && Within(g, loop, x)
    {
      assert x in d[loop].value.detail.body.elems;
    }
    MembersAreReady(cfg, g, d, loop, made.elems);
    OneExits(g, made, run);
    assert Ready(g, d, loop);
    RingIsRoundAbout(cfg, g, id, made, run, arm, loop);
  }

  lemma OneExits(g: seq<Meta>, arm: Body, run: seq<ElemId>)
    requires RunsRound(g, arm, run)
    ensures SingleExits(g, NewBody(run[0]).(elems := arm.elems))
  {
    forall x | x in arm.elems
      ensures x < |g| && |g[x].made.exits| == 1
    {
      OneExitEach(g, arm, run, x);
    }
  }

  lemma RingIsRoundAbout(cfg: Cfg, g: seq<Meta>, id: ElemId, made: Body, run: seq<ElemId>, arm: Body, loop: ElemId)
    requires Sound(cfg, g) && OnlyLoop(g, made, run, arm, loop) && Within(g, id, loop) && g[id].made.exits == [made.entry]
    ensures RoundAbout(g, id, arm, loop)
  {
    assert run[0] in run;
    OwnMember(cfg, g, id, loop, run[0]);
    forall i | 0 <= i < |g[loop].made.exits|
      ensures Known(g, g[loop].made.exits[i]) && g[g[loop].made.exits[i]].head in g[id].leaves
    {
      var t := g[loop].made.exits[i];
      assert LeavesRing(g, made, t, loop);
      var x :| x in made.elems && x < |g| && |g[x].made.exits| == 1 && g[x].made.exits[0] == t;
      var k :| 0 <= k < |run| && run[k] == x;
      assert RingLink(g, made, run, k) && Within(g, loop, x) && KnownSound(cfg, g, x);
      LookedUp(g, made, t);
      OwnMember(cfg, g, id, loop, made.LookupFromId(t).value);
    }
  }

  lemma OwnMember(cfg: Cfg, g: seq<Meta>, id: ElemId, loop: ElemId, x: ElemId)
    requires Sound(cfg, g) && Within(g, id, loop) && Within(g, loop, x)
    ensures g[x].head in g[id].leaves
  {
    assert g[x].head in g[x].leaves;
  }

  lemma MembersAreReady(cfg: Cfg, g: seq<Meta>, d: Arena, id: ElemId, s: set<ElemId>)
    requires Sound(cfg, g) && Known(g, id) && AllWell(cfg, g, s)
    requires forall x :: x in s ==> Within(g, id, x) && FoldedBelow(g, d, x)
    ensures forall x :: x in s ==> Within(g, id, x) && Ready(g, d, x)
    decreases g[id].leaves, g[id].loop, 0
  {
    forall x | x in s
      ensures Ready(g, d, x)
    {
      assert WellMade(cfg, g, x) && Within(g, id, x);
      FoldedIsReady(cfg, g, d, x);
    }
  }

  // ------------------------------------------------------------------------
  // Only a ring can fail to meet its joins.

  /** Unless an if was folded over a block with one way out, every body knows the joins below it. */
  lemma {:induction false} FoldedMeets(cfg: Cfg, g: seq<Meta>, d: Arena, id: ElemId)
    requires Sound(cfg, g) && NoTwinIfs(g) && WellMade(cfg, g, id) && FoldedBelow(g, d, id)
    ensures JoinsMeet(g, d, id)
    decreases g[id].leaves, g[id].loop, 1
  {
    var made := g[id].made.detail;
    match d[id].value.detail {
      case BasicBlock(_) =>
      case Loop(backedges, body) =>
        FoldedBodyKnows(cfg, g, made.body, backedges, body);
        MembersMeet(cfg, g, d, id, body.elems);
      case If(_, arm, other) =>
        assert !TwinIf(g, id);
        StraightStays(g, made.thenBody, arm);
        MembersMeet(cfg, g, d, id, arm.elems);
        if other.Some? {
          StraightStays(g, made.elseBody.value, other.value);
          MembersMeet(cfg, g, d, id, other.value.elems);
        }
    }
  }

  lemma MembersMeet(cfg: Cfg, g: seq<Meta>, d: Arena, id: ElemId, s: set<ElemId>)
    requires Sound(cfg, g) && NoTwinIfs(g) && Known(g, id) && AllWell(cfg, g, s)
    requires forall x :: x in s ==> Within(g, id, x) && FoldedBelow(g, d, x)
    ensures forall x :: x in s ==> Within(g, id, x) && JoinsMeet(g, d, x)
    decreases g[id].leaves, g[id].loop, 0
  {
    forall x | x in s
      ensures JoinsMeet(g, d, x)
    {
      assert WellMade(cfg, g, x) && Within(g, id, x);
      FoldedMeets(cfg, g, d, x);
    }
  }
}
