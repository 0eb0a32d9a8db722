/** The bodies around an element while it is laid out (dis86/src/decompile/control_flow.rs, struct Parent):
    what they offer, and when the arms of an if are offered what the if is offered. */
module Enclosing {
  import opened Wrappers
  import opened ControlFlow
  import opened Ownership
  import opened Names
  import opened Arms

  /** The enclosing bodies and what is left to schedule in them. */
  datatype Parent = NoParent | Parent(body: Body, remain: set<ElemId>, next: Parent) {
    /** The element that stands for `id` in the nearest enclosing body that has it left. */
    function ElemAvail(id: ElemId): Option<ElemId> {
      if NoParent? then None
      else
        var found := body.LookupFromId(id);
        if remain != {} && found.Some? && found.value in remain then found else next.ElemAvail(id)
    }

    ghost predicate Ok(g: seq<Meta>) {
      Parent? ==> next.Ok(g) && forall k :: k in body.remap ==> Renames(g, k, body.remap[k])
    }

    ghost predicate Offers(x: ElemId) {
      Parent? && (x in remain || next.Offers(x))
    }

    /** Nothing that is left stands for any of the blocks `v`. */
    ghost predicate Spares(g: seq<Meta>, v: set<ElemId>) {
      Parent? ==> next.Spares(g, v) && forall x :: x in remain ==> x < |g| && g[x].leaves !! v
    }
  }

  ghost predicate Offered(p: Parent, next: Option<ElemId>) {
    next.Some? ==> p.Offers(next.value)
  }

  /** An available element starts with the block asked for, and is still to be scheduled. */
  lemma {:induction false} AvailMeans(g: seq<Meta>, p: Parent, id: ElemId)
    requires p.Ok(g) && Known(g, id)
    ensures p.ElemAvail(id).Some? ==> SameHead(g, id, p.ElemAvail(id).value)
    ensures Offered(p, p.ElemAvail(id))
  {
    if p.Parent? {
      AvailMeans(g, p.next, id);
      if id in p.body.remap {
        assert Renames(g, id, p.body.remap[id]);
      }
    }
  }

  /** `x` is left to schedule in the `k`-th enclosing body, and is or took over the name `id`. */
  ghost predicate StandsIn(p: Parent, k: nat, id: ElemId, x: ElemId) {
    p.Parent? && if k > 0 then StandsIn(p.next, k - 1, id, x)
                 else x in p.remain && x in p.body.elems && x == if id in p.body.remap then p.body.remap[id] else id
  }

  /** The nearest enclosing body that has an element for `id` left is the one that it is taken from. */
  ghost predicate Nearest(p: Parent, k: nat, id: ElemId, x: ElemId) {
    StandsIn(p, k, id, x) && forall j: nat, y {:trigger StandsIn(p, j, id, y)} :: j < k ==> !StandsIn(p, j, id, y)
  }

  lemma {:induction false} AvailIsNearest(p: Parent, id: ElemId, x: ElemId)
    ensures p.ElemAvail(id) == Some(x) <==> exists k: nat :: Nearest(p, k, id, x)
  {
    if p.Parent? {
      AvailIsNearest(p.next, id, x);
      if p.ElemAvail(id) == Some(x) {
        if StandsIn(p, 0, id, x) {
          assert Nearest(p, 0, id, x);
        } else {
          var k: nat :| Nearest(p.next, k, id, x);
          assert StandsIn(p, k + 1, id, x);
          forall j: nat, y | j < k + 1
            ensures !StandsIn(p, j, id, y)
          {
            assert j > 0 ==> !StandsIn(p.next, j - 1, id, y);
          }
          assert Nearest(p, k + 1, id, x);
        }
      }
      if k: nat :| Nearest(p, k, id, x) {
        var found := p.body.LookupFromId(id);
        if k > 0 {
          assert found.Some? ==> !StandsIn(p, 0, id, found.value);
          forall j: nat, y | j < k - 1
            ensures !StandsIn(p.next, j, id, y)
          {
            assert !StandsIn(p, j + 1, id, y);
          }
          assert Nearest(p.next, k - 1, id, x);
        }
      }
    }
  }

  lemma {:induction false} SparesFewer(g: seq<Meta>, p: Parent, v: set<ElemId>, w: set<ElemId>)
    requires p.Spares(g, v) && w <= v
    ensures p.Spares(g, w)
  {
    if p.Parent? {
      SparesFewer(g, p.next, v, w);
    }
  }

  /** No name that leads to one of the blocks is offered. */
  lemma {:induction false} SparedIsNotOffered(cfg: Cfg, g: seq<Meta>, p: Parent, v: set<ElemId>, n: ElemId)
    requires MetaOk(cfg, g) && p.Ok(g) && p.Spares(g, v) && Known(g, n) && g[n].head in v
    ensures p.ElemAvail(n).None?
  {
    if p.Parent? {
      SparedIsNotOffered(cfg, g, p.next, v, n);
      LookedUp(g, p.body, n);
      var found := p.body.LookupFromId(n);
      assert found.Some? ==> g[found.value].head in g[found.value].leaves;
    }
  }

  // ------------------------------------------------------------------------
  // What the asserts of the source compare.

  function LastMember(run: seq<ElemId>): ElemId
    requires run != []
  {
    run[|run| - 1]
  }

  /** However an arm of the if `x` is left, what encloses the if offers the same for that name as for the join;
      and so for an if that is the last member of an arm, which is left by the same way. */
  ghost predicate Meets(g: seq<Meta>, p: Parent, x: ElemId)
    decreases if x < |g| then g[x].leaves else {}, 1
  {
    Known(g, x) &&
    match g[x].made.detail
    case If(_, arm, other) => |g[x].made.exits| == 1 && ArmMeets(g, p, x, arm) && (other.Some? ==> ArmMeets(g, p, x, other.value))
    case _ => true
  }

  ghost predicate ArmMeets(g: seq<Meta>, p: Parent, x: ElemId, arm: Body)
    requires x < |g| && |g[x].made.exits| == 1
    decreases g[x].leaves, 0
  {
    forall run, n {:trigger RunsTo(g, arm, run, n)} :: RunsTo(g, arm, run, n) ==>
      && p.ElemAvail(n) == p.ElemAvail(g[x].made.exits[0])
      && LastMember(run) < |g| && g[LastMember(run)].leaves < g[x].leaves && Meets(g, p, LastMember(run))
  }

  ghost predicate SameOffers(p: Parent, q: Parent) {
    forall n: ElemId {:trigger p.ElemAvail(n)} {:trigger q.ElemAvail(n)} :: p.ElemAvail(n) == q.ElemAvail(n)
  }

  /** Only what is offered matters. */
  lemma {:induction false} MeetsToo(g: seq<Meta>, p: Parent, q: Parent, x: ElemId)
    requires Meets(g, p, x) && SameOffers(p, q)
    ensures Meets(g, q, x)
    decreases g[x].leaves, 1
  {
    match g[x].made.detail {
      case If(_, arm, other) =>
        ArmMeetsToo(g, p, q, x, arm);
        if other.Some? {
          ArmMeetsToo(g, p, q, x, other.value);
        }
      case _ =>
    }
  }

  lemma {:induction false} ArmMeetsToo(g: seq<Meta>, p: Parent, q: Parent, x: ElemId, arm: Body)
    requires x < |g| && |g[x].made.exits| == 1 && ArmMeets(g, p, x, arm) && SameOffers(p, q)
    ensures ArmMeets(g, q, x, arm)
    decreases g[x].leaves, 0
  {
    forall run, n | RunsTo(g, arm, run, n)
      ensures q.ElemAvail(n) == q.ElemAvail(g[x].made.exits[0]) && Meets(g, q, LastMember(run))
    {
      assert p.ElemAvail(n) == p.ElemAvail(g[x].made.exits[0]);
      MeetsToo(g, p, q, LastMember(run));
    }
  }

  /** How an arm is left, and that the body knows the join by that name. */
  lemma LastKnown(cfg: Cfg, g: seq<Meta>, b: Body, arm: Body, e: ElemId, run: seq<ElemId>, n: ElemId)
    requires Sound(cfg, g) && RunsTo(g, arm, run, n) && ArmTied(g, b, arm, e) && Known(g, e)
    requires (forall k :: k in b.remap ==> Renames(g, k, b.remap[k])) && forall y :: y in arm.elems ==> Known(g, y)
    ensures LastMember(run) in arm.elems && |g[LastMember(run)].made.exits| == 1 && g[LastMember(run)].made.exits[0] == n
    ensures b.LookupFromId(n) == b.LookupFromId(e) && Known(g, n)
  {
    assert RunLink(g, arm, run, n, |run| - 1);
    assert LastMember(run) in run;
    assert KnownSound(cfg, g, LastMember(run));
    TiedLookup(g, b, n, e);
  }

  ghost predicate JoinLeft(g: seq<Meta>, b: Body, rem: set<ElemId>, x: ElemId) {
    x < |g| && |g[x].made.exits| == 1 && b.LookupFromId(g[x].made.exits[0]).Some? && b.LookupFromId(g[x].made.exits[0]).value in rem
  }

  /** Where a body knows the joins below `x`, its arms meet there if nothing encloses that body, or the join is left in it. */
  lemma {:induction false} KnownMeets(cfg: Cfg, g: seq<Meta>, b: Body, rem: set<ElemId>, p: Parent, x: ElemId)
    requires Sound(cfg, g) && JoinsKnown(g, b, x) && (forall k :: k in b.remap ==> Renames(g, k, b.remap[k]))
    requires p.NoParent? || JoinLeft(g, b, rem, x)
    ensures Meets(g, Parent(b, rem, p), x)
    decreases g[x].leaves, 1
  {
    match g[x].made.detail {
      case If(_, arm, other) =>
        assert KnownSound(cfg, g, x);
        ArmKnownMeets(cfg, g, b, rem, p, x, arm);
        if other.Some? {
          ArmKnownMeets(cfg, g, b, rem, p, x, other.value);
        }
      case _ =>
    }
  }

  lemma {:induction false} ArmKnownMeets(cfg: Cfg, g: seq<Meta>, b: Body, rem: set<ElemId>, p: Parent, x: ElemId, arm: Body)
    requires Sound(cfg, g) && (forall k :: k in b.remap ==> Renames(g, k, b.remap[k]))
    requires Known(g, x) && |g[x].made.exits| == 1 && Known(g, g[x].made.exits[0]) && ArmTied(g, b, arm, g[x].made.exits[0])
    requires forall y :: y in arm.elems ==> y < |g| && g[y].leaves < g[x].leaves && JoinsKnown(g, b, y)
    requires p.NoParent? || JoinLeft(g, b, rem, x)
    ensures ArmMeets(g, Parent(b, rem, p), x, arm)
    decreases g[x].leaves, 0
  {
    forall run, n | RunsTo(g, arm, run, n)
      ensures Parent(b, rem, p).ElemAvail(n) == Parent(b, rem, p).ElemAvail(g[x].made.exits[0])
      ensures LastMember(run) < |g| && g[LastMember(run)].leaves < g[x].leaves && Meets(g, Parent(b, rem, p), LastMember(run))
    {
      LastKnown(cfg, g, b, arm, g[x].made.exits[0], run, n);
      KnownMeets(cfg, g, b, rem, p, LastMember(run));
    }
  }

  /** There is one way through an arm. */
  lemma {:induction false} SameWay(g: seq<Meta>, arm: Body, run: seq<ElemId>, n: ElemId, run': seq<ElemId>, n': ElemId, k: nat)
    requires RunsTo(g, arm, run, n) && RunsTo(g, arm, run', n') && k < |run|
    ensures k < |run'| && run'[k] == run[k]
  {
    if k > 0 {
      SameWay(g, arm, run, n, run', n', k - 1);
      assert RunLink(g, arm, run, n, k - 1) && RunLink(g, arm, run', n', k - 1);
    }
  }

  lemma OneWay(g: seq<Meta>, arm: Body, run: seq<ElemId>, n: ElemId, run': seq<ElemId>, n': ElemId)
    requires RunsTo(g, arm, run, n) && RunsTo(g, arm, run', n')
    ensures run' == run && n' == n
  {
    SameWay(g, arm, run, n, run', n', |run| - 1);
    SameWay(g, arm, run', n', run, n, |run'| - 1);
    forall k | 0 <= k < |run|
      ensures run'[k] == run[k]
    {
      SameWay(g, arm, run, n, run', n', k);
    }
    assert RunLink(g, arm, run, n, |run| - 1) && RunLink(g, arm, run', n', |run| - 1);
  }

  lemma RingDoesNotRun(g: seq<Meta>, arm: Body, run: seq<ElemId>, n: ElemId)
    requires Ringed(g, arm)
    ensures !RunsTo(g, arm, run, n)
  {
    var ring :| RunsRound(g, arm, ring);
    if run != [] && LastMember(run) in arm.elems {
      var k :| 0 <= k < |ring| && ring[k] == LastMember(run);
      assert RingLink(g, arm, ring, k);
      assert !RunLink(g, arm, run, n, |run| - 1);
    }
  }

  // ------------------------------------------------------------------------
  // Arms that meet up to their last member.

  /** What encloses an arm offers for the ifs at its end what it offers for their joins. */
  ghost predicate LastMeets(g: seq<Meta>, p: Parent, arm: Body) {
    forall run, n {:trigger RunsTo(g, arm, run, n)} :: RunsTo(g, arm, run, n) ==> Meets(g, p, LastMember(run))
  }

  lemma LastOfWay(g: seq<Meta>, p: Parent, arm: Body, run: seq<ElemId>, n: ElemId)
    requires RunsTo(g, arm, run, n)
    ensures LastMeets(g, p, arm) <==> Meets(g, p, LastMember(run))
  {
    forall run', n' | RunsTo(g, arm, run', n')
      ensures run' == run
    {
      OneWay(g, arm, run, n, run', n');
    }
  }

  /** Such an arm meets the join exactly when the way out of it is offered what the join is. */
  lemma WayMeets(g: seq<Meta>, p: Parent, x: ElemId, arm: Body, run: seq<ElemId>, n: ElemId)
    requires RunsTo(g, arm, run, n) && x < |g| && |g[x].made.exits| == 1
    requires forall y :: y in arm.elems ==> y < |g| && g[y].leaves < g[x].leaves
    ensures ArmMeets(g, p, x, arm) <==> LastMeets(g, p, arm) && p.ElemAvail(n) == p.ElemAvail(g[x].made.exits[0])
  {
    forall run', n' | RunsTo(g, arm, run', n')
      ensures run' == run && n' == n
    {
      OneWay(g, arm, run, n, run', n');
    }
    assert LastMember(run) in run;
  }
}
