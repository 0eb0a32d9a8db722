/** The search itself (dis86/src/analyze/func_details.rs, workqueue.rs): block by block from a
    work queue, instruction by instruction within a block. */
module Discover {
  import opened Wrappers
  import opened Addresses
  import opened Discovery

  class WorkQueue {
    var discovered: set<SegOff>
    var queued: set<SegOff>

    ghost predicate Valid()
      reads this
    {
      queued <= discovered
    }

    constructor ()
      ensures Valid() && discovered == {} && queued == {}
    {
      discovered, queued := {}, {};
    }

    /** Each address is queued once, when it is first discovered. */
    method Insert(addr: SegOff)
      requires Valid()
      modifies this
      ensures Valid() && discovered == old(discovered) + {addr}
      ensures queued == old(queued) + if addr in old(discovered) then {} else {addr}
    {
      if addr !in discovered {
        discovered := discovered + {addr};
        queued := queued + {addr};
      }
    }

    method InsertAll(addrs: seq<SegOff>)
      requires Valid()
      modifies this
      ensures Valid() && discovered == old(discovered) + (set a | a in addrs)
      ensures queued == old(queued) + (set a | a in addrs && a !in old(discovered))
    {
      for n := 0 to |addrs|
        invariant Valid() && discovered == old(discovered) + (set a | a in addrs[..n])
        invariant queued == old(queued) + (set a | a in addrs[..n] && a !in old(discovered))
      {
        Insert(addrs[n]);
        assert addrs[..n + 1] == addrs[..n] + [addrs[n]];
      }
      assert addrs[..|addrs|] == addrs;
    }

    /** The lowest queued address. */
    method Pop() returns (r: Option<SegOff>)
      requires Valid()
      modifies this`queued
      ensures Valid()
      ensures r.None? <==> old(queued) == {}
      ensures r.None? ==> queued == {}
      ensures r.Some? ==> r.value in old(queued) && queued == old(queued) - {r.value}
      ensures r.Some? ==> forall a :: a in queued ==> r.value.Less(a)
    {
      if queued == {} { return None; }
      var m :| m in queued;
      var left := queued - {m};
      while left != {}
        invariant left <= queued && m in queued && m !in left
        invariant forall a :: a in queued && a !in left && a != m ==> m.Less(a)
        decreases left
      {
        var x :| x in left;
        left := left - {x};
        if x.Less(m) { m := x; }
      }
      queued := queued - {m};
      r := Some(m);
    }
  }

  // ------------------------------------------------------------------------
  // There are finitely many addresses to find.

  ghost function Universe(c: Input): set<SegOff> {
    (set o: u16 | 0 <= o < 0x1_0000 :: SegOff(c.segment.seg, o)) + {c.start}
  }

  lemma StaysInUniverse(c: Input, before: set<SegOff>, after: set<SegOff>)
    requires before <= Universe(c) && forall a :: a in after && a !in before ==> a.seg == c.segment.seg
    ensures after <= Universe(c)
  {
    forall a | a in after
      ensures a in Universe(c)
    {
      if a !in before {
        assert a == SegOff(c.segment.seg, a.off);
      }
    }
  }

  /** Whatever is found from an instruction lies in the analyzed segment, which is the instruction's. */
  lemma FoundInSegment(c: Input, a: SegOff)
    requires Decodes(c, a)
    ensures a.seg == c.segment.seg && 0 < c.code(a).value.len && After(c, a).off == a.off + c.code(a).value.len < 0x1_0000
    ensures forall t :: Branches(c, a, t) ==> t.seg == c.segment.seg
  {
  }

  // ------------------------------------------------------------------------
  // The state of the search.

  ghost predicate StartsFound(c: Input, v: set<Point>, found: set<SegOff>) {
    forall a {:trigger StartsBlock(c, v, a)} :: a in found <==> StartsBlock(c, v, a)
  }

  lemma StartsOfMore(c: Input, v: set<Point>, found: set<SegOff>, p: Point, starts: set<SegOff>)
    requires StartsFound(c, v, found) && forall a :: a in starts <==> Branches(c, p.addr, a)
    ensures StartsFound(c, v + {p}, found + starts)
  {
    forall a
      ensures StartsBlock(c, v + {p}, a) <==> StartsBlock(c, v, a) || Branches(c, p.addr, a)
    {
      if q :| q in v && Branches(c, q.addr, a) {
        assert q in v + {p};
      }
      assert p in v + {p};
    }
  }

  /** Points walked so far are reachable and without error, and what follows them was walked too, or
      was discovered as the start of a block, or is `next`. */
  ghost predicate Walked(c: Input, v: set<Point>, found: set<SegOff>, next: Option<Point>) {
    && (forall p :: p in v ==> Reachable(c, p) && Decodes(c, p.addr))
    && (forall a :: a in found ==> Reachable(c, Point(a, false)))
    && (next.Some? ==> Reachable(c, next.value))
    && (forall p, q :: p in v && Follows(c, p, q) ==> q in v || (q.addr in found && !q.pushedCs) || next == Some(q))
  }

  lemma WalkOn(c: Input, v: set<Point>, found: set<SegOff>, p: Point, starts: set<SegOff>, next: Option<Point>)
    requires Walked(c, v, found, Some(p)) && Decodes(c, p.addr)
    requires forall a :: a in starts <==> Branches(c, p.addr, a)
    requires forall q :: next == Some(q) <==> GoesOn(c, p.addr, q)
    ensures Walked(c, v + {p}, found + starts, next)
  {
    forall a | a in starts
      ensures Reachable(c, Point(a, false))
    {
      ReachableStep(c, p, Point(a, false));
    }
    if next.Some? {
      ReachableStep(c, p, next.value);
    }
  }

  /** What the search saw at `p` is what is there. */
  ghost predicate SawRight(c: Input, p: Point, s: Seen) {
    Decodes(c, p.addr) && s.ins == c.code(p.addr).value && forall k :: s.ends == Some(k) <==> ReturnsAt(c, p, k)
  }

  lemma PointsOfMore(walk: seq<Point>, p: Point)
    ensures Points(walk + [p]) == Points(walk) + {p}
  {
  }

  /** What the report says of the points walked so far. */
  lemma ReportOneMore(c: Input, walk: seq<Point>, d: FuncDetails, p: Point, s: Seen)
    requires (forall q :: q in Points(walk) ==> Decodes(c, q.addr)) && Reports(c, walk, d) && SawRight(c, p, s)
    ensures (forall q :: q in Points(walk + [p]) ==> Decodes(c, q.addr)) && Reports(c, walk + [p], Updated(d, s, p))
  {
    PointsOfMore(walk, p);
    CallsStayReported(c, Points(walk), d, p);
    ReportEnd(c, Points(walk), d.endAddrInferred, p);
    ReportKinds(c, walk, d, p, s.ends);
    ReportIndirect(c, walk, p);
    UpdatedParts(c, d, p, s);
  }

  lemma UpdatedParts(c: Input, d: FuncDetails, p: Point, s: Seen)
    requires SawRight(c, p, s)
    ensures var d' := Updated(d, s, p);
      && d'.startAddr == d.startAddr
      && d'.endAddrInferred == Max(d.endAddrInferred, After(c, p.addr))
      && d'.directCalls == WithCall(d, s.ins.op, p.pushedCs).directCalls
      && d'.directCallKinds == WithCall(d, s.ins.op, p.pushedCs).directCallKinds
      && d'.indirectCalls == (if IndirectAt(c, p) then d.indirectCalls + 1 else d.indirectCalls)
      && d'.returnKind == WithReturn(d, s.ends).returnKind
      && d'.ignoredReturnKinds == WithReturn(d, s.ends).ignoredReturnKinds
  {
  }

  lemma CallsStayReported(c: Input, v: set<Point>, d: FuncDetails, p: Point)
    requires CallsReported(c, v, d.directCalls, d.directCallKinds) && Decodes(c, p.addr)
    ensures var d' := WithCall(d, c.code(p.addr).value.op, p.pushedCs);
      CallsReported(c, v + {p}, d'.directCalls, d'.directCallKinds)
  {
    var op := c.code(p.addr).value.op;
    if op.Call? && op.target.Direct? {
      ReportCalls(c, v, d.directCalls, d.directCallKinds, p, op.target.addr);
    } else {
      ReportNoCalls(c, v, d.directCalls, d.directCallKinds, p);
    }
  }

  lemma ReportIndirect(c: Input, walk: seq<Point>, p: Point)
    ensures |IndirectCalls(c, walk + [p])| == |IndirectCalls(c, walk)| + if IndirectAt(c, p) then 1 else 0
  {
    var more := walk + [p];
    assert IndirectCalls(c, more) == IndirectCalls(c, walk) + if IndirectAt(c, p) then {|walk|} else {};
  }

  function WithCall(d: FuncDetails, op: Operation, pushedCs: bool): FuncDetails {
    if !op.Call? then d
    else if op.target.Indirect? then d.(indirectCalls := d.indirectCalls + 1)
    else d.(directCalls := d.directCalls + {op.target.addr},
            directCallKinds := d.directCallKinds + {(op.target.addr, ModeOf(op, pushedCs))})
  }

  /** The first kind of return seen is the function's; others are kept once each. */
  function WithReturn(d: FuncDetails, kind: Option<ReturnKind>): FuncDetails {
    if kind.None? then d
    else if d.returnKind.None? then d.(returnKind := kind)
    else if d.returnKind != kind && kind.value !in d.ignoredReturnKinds then
      d.(ignoredReturnKinds := d.ignoredReturnKinds + [kind.value])
    else d
  }

  function Updated(d: FuncDetails, s: Seen, p: Point): FuncDetails {
    var seen := WithReturn(WithCall(d, s.ins.op, p.pushedCs), s.ends);
    seen.(endAddrInferred := Max(d.endAddrInferred, p.addr.AddOffset(s.ins.len)))
  }

  lemma ReportCalls(c: Input, v: set<Point>, calls: set<SegOff>, kinds: set<(SegOff, CallMode)>, p: Point, t: SegOff)
    requires CallsReported(c, v, calls, kinds) && Decodes(c, p.addr)
    requires var op := c.code(p.addr).value.op; op.Call? && op.target == Direct(t)
    ensures CallsReported(c, v + {p}, calls + {t}, kinds + {(t, ModeOf(c.code(p.addr).value.op, p.pushedCs))})
  {
    var mode := ModeOf(c.code(p.addr).value.op, p.pushedCs);
    var more := kinds + {(t, mode)};
    assert CallsAt(c, p, t, mode) && p in v + {p};
    forall t0, m0
      ensures (t0, m0) in more <==> exists q :: q in v + {p} && CallsAt(c, q, t0, m0)
    {
      CallsOfMore(c, v, p, t0, m0);
    }
    assert (t, mode) in more;
  }

  lemma CallsOfMore(c: Input, v: set<Point>, p: Point, t: SegOff, mode: CallMode)
    ensures (exists q :: q in v + {p} && CallsAt(c, q, t, mode)) <==> (exists q :: q in v && CallsAt(c, q, t, mode)) || CallsAt(c, p, t, mode)
  {
    if q :| q in v && CallsAt(c, q, t, mode) {
      assert q in v + {p};
    }
    assert p in v + {p};
  }

  lemma ReportNoCalls(c: Input, v: set<Point>, calls: set<SegOff>, kinds: set<(SegOff, CallMode)>, p: Point)
    requires CallsReported(c, v, calls, kinds) && forall t, mode :: !CallsAt(c, p, t, mode)
    ensures CallsReported(c, v + {p}, calls, kinds)
  {
    forall t0, m0
      ensures (t0, m0) in kinds <==> exists q :: q in v + {p} && CallsAt(c, q, t0, m0)
    {
      CallsOfMore(c, v, p, t0, m0);
    }
  }

  function KindsOf(d: FuncDetails): seq<ReturnKind> {
    (if d.returnKind.Some? then [d.returnKind.value] else []) + d.ignoredReturnKinds
  }

  lemma ReportKinds(c: Input, walk: seq<Point>, d: FuncDetails, p: Point, ends: Option<ReturnKind>)
    requires KindsReported(c, walk, KindsOf(d)) && (d.returnKind.None? ==> d.ignoredReturnKinds == [])
    requires forall k :: ends == Some(k) <==> ReturnsAt(c, p, k)
    ensures var d' := WithReturn(d, ends); KindsReported(c, walk + [p], KindsOf(d')) && (d'.returnKind.None? ==> d'.ignoredReturnKinds == [])
  {
    var kinds := KindsOf(d);
    var d' := WithReturn(d, ends);
    if ends.Some? && ends.value !in kinds {
      assert KindsOf(d') == kinds + [ends.value];
      NewKind(c, walk, kinds, p, ends.value);
    } else {
      assert d' == d;
      SameKinds(c, walk, kinds, p);
    }
  }

  lemma SeenBeforeStays(c: Input, walk: seq<Point>, p: Point, k: ReturnKind, j: ReturnKind)
    requires SeenBefore(c, walk, k, j)
    ensures SeenBefore(c, walk + [p], k, j)
  {
    var n: nat :| n < |walk| && ReturnsAt(c, walk[n], k) && forall m: nat :: m <= n ==> !ReturnsAt(c, walk[m], j);
    var more := walk + [p];
    assert more[n] == walk[n];
    assert forall m: nat {:trigger more[m]} :: m <= n ==> more[m] == walk[m];
  }

  lemma SameKinds(c: Input, walk: seq<Point>, kinds: seq<ReturnKind>, p: Point)
    requires KindsReported(c, walk, kinds) && forall k :: ReturnsAt(c, p, k) ==> k in kinds
    ensures KindsReported(c, walk + [p], kinds)
  {
    forall i, j | 0 <= i < j < |kinds|
      ensures SeenBefore(c, walk + [p], kinds[i], kinds[j])
    {
      SeenBeforeStays(c, walk, p, kinds[i], kinds[j]);
    }
  }

  lemma NewKind(c: Input, walk: seq<Point>, kinds: seq<ReturnKind>, p: Point, k: ReturnKind)
    requires KindsReported(c, walk, kinds) && k !in kinds && ReturnsAt(c, p, k)
    ensures KindsReported(c, walk + [p], kinds + [k])
  {
    var more, kinds' := walk + [p], kinds + [k];
    forall i, j | 0 <= i < j < |kinds'|
      ensures SeenBefore(c, more, kinds'[i], kinds'[j])
    {
      if j < |kinds| {
        SeenBeforeStays(c, walk, p, kinds[i], kinds[j]);
      } else {
        assert kinds[i] in kinds;
        var n: nat :| n < |walk| && ReturnsAt(c, walk[n], kinds[i]);
        assert more[n] == walk[n];
        assert forall m: nat {:trigger more[m]} :: m <= n ==> more[m] == walk[m] && walk[m] in walk;
      }
    }
    assert p in more;
  }

  lemma ReportEnd(c: Input, v: set<Point>, e: SegOff, p: Point)
    requires (forall q :: q in v ==> Decodes(c, q.addr)) && EndReported(c, v, e) && Decodes(c, p.addr)
    ensures EndReported(c, v + {p}, Max(e, After(c, p.addr)))
  {
    var e' := Max(e, After(c, p.addr));
    if e' == After(c, p.addr) {
      assert p in v + {p};
    } else if e != c.start {
      var q :| q in v && After(c, q.addr) == e;
      assert q in v + {p};
    }
  }

  lemma NothingReported(c: Input)
    ensures Reports(c, [], FuncDetails(c.start, c.start, {}, {}, 0, None, []))
  {
  }

  function NextPoint(s: Seen): Option<Point> {
    if s.goOn.Some? then Some(Point(s.goOn.value, PushesCs(s.ins.op))) else None
  }

  /** What one instruction adds. */
  lemma SeeOneMore(c: Input, walk: seq<Point>, found: set<SegOff>, d: FuncDetails, p: Point, s: Seen)
    requires Walked(c, Points(walk), found, Some(p)) && Reports(c, walk, d) && StartsFound(c, Points(walk), found)
    requires See(c, p.addr) == Some(s) && NotBefore(c, p.addr)
    ensures var found', more := found + (set a | a in s.starts), walk + [p];
      Walked(c, Points(more), found', NextPoint(s)) && Reports(c, more, Updated(d, s, p)) && StartsFound(c, Points(more), found')
    ensures forall t :: t in s.starts ==> t.seg == c.segment.seg
    ensures s.goOn.Some? ==> s.goOn.value.seg == c.segment.seg && p.addr.off < s.goOn.value.off
  {
    SeeIff(c, p.addr);
    FoundInSegment(c, p.addr);
    ReportOneMore(c, walk, d, p, s);
    SeesWhatFollows(c, p.addr);
    PointsOfMore(walk, p);
    var starts := set a | a in s.starts;
    if s.goOn.Some? {
      assert GoesOn(c, p.addr, NextPoint(s).value);
    }
    WalkOn(c, Points(walk), found, p, starts, NextPoint(s));
    StartsOfMore(c, Points(walk), found, p, starts);
  }

  /** A block at `loc` was begun since `was`, and no other. */
  ghost predicate OneMoreBegun(c: Input, was: seq<Point>, walk: seq<Point>, loc: SegOff) {
    forall a {:trigger Begun(c, walk, a)} :: Begun(c, walk, a) <==> Begun(c, was, a) || a == loc
  }

  /** The walk is about to begin the block at `loc`, or within it. */
  ghost predicate InBlock(c: Input, was: seq<Point>, walk: seq<Point>, loc: SegOff) {
    if walk == was then Idle(c, walk) else !Idle(c, walk) && OneMoreBegun(c, was, walk, loc)
  }

  lemma WalkInOrder(c: Input, was: seq<Point>, walk: seq<Point>, loc: SegOff, p: Point, s: Seen)
    requires InOrder(c, walk) && NextInOrder(c, walk, p) && InBlock(c, was, walk, loc) && (walk == was ==> p == Point(loc, false))
    requires See(c, p.addr) == Some(s) && NotBefore(c, p.addr)
    ensures InOrder(c, walk + [p]) && OneMoreBegun(c, was, walk + [p], loc)
    ensures if s.goOn.None? then Idle(c, walk + [p]) else !Idle(c, walk + [p]) && NextInOrder(c, walk + [p], NextPoint(s).value)
  {
    OneMoreInOrder(c, walk, p);
    forall a
      ensures Begun(c, walk + [p], a) <==> Begun(c, was, a) || a == loc
    {
      BegunOneMore(c, walk, p, a);
    }
    SeeIff(c, p.addr);
    SeesWhatFollows(c, p.addr);
    if s.goOn.Some? {
      assert GoesOn(c, p.addr, NextPoint(s).value);
    }
  }

  /** What walking one block does: the walk is in order up to its end, and what it branches to is found, and queued if new. */
  ghost predicate BlockWalked(c: Input, walk: seq<Point>, found: set<SegOff>, queued: set<SegOff>, loc: SegOff,
                              walk': seq<Point>, found': set<SegOff>, queued': set<SegOff>) {
    && Walked(c, Points(walk'), found', None)
    && Points(walk) + {Point(loc, false)} <= Points(walk') && StartsFound(c, Points(walk'), found')
    && InOrder(c, walk') && Idle(c, walk') && OneMoreBegun(c, walk, walk', loc)
    && QueueGrown(c, found, queued, found', queued')
  }

  ghost predicate QueueGrown(c: Input, found: set<SegOff>, queued: set<SegOff>, found': set<SegOff>, queued': set<SegOff>) {
    && found <= found' && queued <= queued' && found' - queued' <= found - queued
    && (forall a :: a in found' && a !in found ==> a.seg == c.segment.seg)
    && (forall a :: a in queued' && a !in queued ==> a !in found)
  }

  /** One block, from `loc` to its terminator: every point of it is walked, reported, and what it jumps to is queued. */
  method WalkBlock(c: Input, loc: SegOff, queue: WorkQueue, d: FuncDetails, ghost walk: seq<Point>)
    returns (r: Option<FuncDetails>, ghost walk': seq<Point>)
    requires queue.Valid() && Walked(c, Points(walk), queue.discovered, None) && Reports(c, walk, d)
    requires loc in queue.discovered && NotBefore(c, loc)
    requires StartsFound(c, Points(walk), queue.discovered) && InOrder(c, walk) && Idle(c, walk) && NextInOrder(c, walk, Point(loc, false))
    modifies queue
    ensures r.None? ==> exists p :: Reachable(c, p) && !Decodes(c, p.addr)
    ensures r.Some? ==> queue.Valid() && BlockWalked(c, walk, old(queue.discovered), old(queue.queued), loc, walk', queue.discovered, queue.queued)
    ensures r.Some? ==> Reports(c, walk', r.value)
  {
    var details := d;
    var at, pushed := loc, false;
    walk' := walk;
    while true
      invariant queue.Valid() && Walked(c, Points(walk'), queue.discovered, Some(Point(at, pushed))) && Reports(c, walk', details)
      invariant NotBefore(c, at) && StartsFound(c, Points(walk'), queue.discovered)
      invariant InOrder(c, walk') && NextInOrder(c, walk', Point(at, pushed)) && InBlock(c, walk, walk', loc)
      invariant walk' == walk ==> Point(at, pushed) == Point(loc, false)
      invariant Points(walk) <= Points(walk') && (walk' == walk || Point(loc, false) in Points(walk'))
      invariant QueueGrown(c, old(queue.discovered), old(queue.queued), queue.discovered, queue.queued)
      modifies queue
      decreases 0x1_0000 - at.off
    {
      var p := Point(at, pushed);
      var seen := See(c, at);
      SeeIff(c, at);
      if seen.None? {
        assert Reachable(c, p);
        return None, walk';
      }
      var s := seen.value;
      SeeOneMore(c, walk', queue.discovered, details, p, s);
      WalkInOrder(c, walk, walk', loc, p, s);
      PointsOfMore(walk', p);
      details := Updated(details, s, p);
      queue.InsertAll(s.starts);
      walk' := walk' + [p];
      if s.goOn.None? { return Some(details), walk'; }
      at, pushed := s.goOn.value, PushesCs(s.ins.op);
    }
  }

  /** The start of the function must itself be acceptable: no lower than the segment, in a region if there are any, and
      outside declared data. */
  ghost predicate StartOk(c: Input) {
    && !c.start.Less(SegOff(c.segment.seg, c.segment.start))
    && (c.regions != [] ==> InSome(c.regions, c.start))
    && !InSome(c.data, c.start)
  }

  /** With every discovered address walked, everything is. */
  lemma AllWalked(c: Input, v: set<Point>, found: set<SegOff>, popped: set<SegOff>)
    requires Walked(c, v, found, None) && found <= popped && c.start in found
    requires forall a :: a in popped ==> Point(a, false) in v
    ensures Discovered(c, v)
  {
    forall p, q | p in v && Follows(c, p, q)
      ensures q in v
    {
      assert q.addr in found && !q.pushedCs ==> q == Point(q.addr, false);
    }
    ClosedIsDiscovered(c, v);
  }

  /** How far the whole search has come: what was popped was walked, and the rest is still queued. */
  ghost predicate Progress(c: Input, v: set<Point>, found: set<SegOff>, queued: set<SegOff>, popped: set<SegOff>) {
    && c.start in found && found <= Universe(c) && (forall a :: a in found ==> NotBefore(c, a))
    && popped <= found && queued == found - popped
    && (forall a :: a in popped ==> Point(a, false) in v)
  }

  ghost predicate PoppedBegun(c: Input, walk: seq<Point>, popped: set<SegOff>) {
    forall a {:trigger Begun(c, walk, a)} :: a in popped <==> Begun(c, walk, a)
  }

  /** The state of the search between two blocks. */
  ghost predicate BetweenBlocks(c: Input, walk: seq<Point>, found: set<SegOff>, queued: set<SegOff>, popped: set<SegOff>) {
    && Walked(c, Points(walk), found, None) && StartsFound(c, Points(walk), found) && InOrder(c, walk) && Idle(c, walk)
    && Progress(c, Points(walk), found, queued, popped) && PoppedBegun(c, walk, popped)
  }

  lemma ProgressStep(c: Input, v: set<Point>, found: set<SegOff>, queued: set<SegOff>, popped: set<SegOff>, loc: SegOff,
                     v': set<Point>, found': set<SegOff>, queued': set<SegOff>)
    requires Progress(c, v, found, queued, popped) && loc in queued && v + {Point(loc, false)} <= v'
    requires found <= found' && queued - {loc} <= queued' && found' - queued' <= found - (queued - {loc}) && queued' <= found'
    requires queued' !! popped + {loc}
    requires forall a :: a in found' && a !in found ==> a.seg == c.segment.seg
    ensures Progress(c, v', found', queued', popped + {loc})
  {
    StaysInUniverse(c, found, found');
    assert found - (queued - {loc}) == popped + {loc};
  }

  /** After the block at `loc`. */
  lemma BlockDone(c: Input, walk: seq<Point>, found: set<SegOff>, queued: set<SegOff>, popped: set<SegOff>, loc: SegOff,
                  walk': seq<Point>, found': set<SegOff>, queued': set<SegOff>)
    requires BetweenBlocks(c, walk, found, queued, popped) && loc in queued && queued' <= found'
    requires BlockWalked(c, walk, found, queued - {loc}, loc, walk', found', queued')
    ensures BetweenBlocks(c, walk', found', queued', popped + {loc})
  {
    assert queued' !! popped + {loc} by {
      assert forall a :: a in queued' && a !in queued - {loc} ==> a !in found;
    }
    ProgressStep(c, Points(walk), found, queued, popped, loc, Points(walk'), found', queued');
  }

  /** Exactly the block starts found but not yet begun are queued. */
  lemma QueuedWait(c: Input, walk: seq<Point>, found: set<SegOff>, queued: set<SegOff>, popped: set<SegOff>, a: SegOff)
    requires BetweenBlocks(c, walk, found, queued, popped)
    ensures a in queued <==> Waits(c, walk, a)
  {
  }

  lemma LowestIsNext(c: Input, walk: seq<Point>, found: set<SegOff>, queued: set<SegOff>, popped: set<SegOff>, loc: SegOff)
    requires BetweenBlocks(c, walk, found, queued, popped)
    requires loc in queued && forall a :: a in queued ==> NoLater(loc, a)
    ensures NextInOrder(c, walk, Point(loc, false))
  {
    forall a
      ensures a in queued <==> Waits(c, walk, a)
    {
      QueuedWait(c, walk, found, queued, popped, a);
    }
  }

  /** With nothing queued the walk is whole. */
  lemma NothingQueued(c: Input, walk: seq<Point>, found: set<SegOff>, popped: set<SegOff>)
    requires BetweenBlocks(c, walk, found, {}, popped)
    ensures WholeWalk(c, walk) && Discovered(c, Points(walk))
  {
    forall a
      ensures !Waits(c, walk, a)
    {
      QueuedWait(c, walk, found, {}, popped, a);
    }
    forall a | a in found
      ensures a in popped
    {
      assert a !in found - popped;
    }
    AllWalked(c, Points(walk), found, popped);
  }

  /** `walk` is the walk: all points in the order in which they are looked at. */
  method Build(c: Input) returns (r: Option<FuncDetails>, ghost walk: seq<Point>)
    ensures r.Some? ==> StartOk(c) && Discovered(c, Points(walk)) && WholeWalk(c, walk) && Reports(c, walk, r.value)
    ensures r.None? ==> !StartOk(c) || exists p :: Reachable(c, p) && !Decodes(c, p.addr)
  {
    walk := [];
    FindIs(c.regions, c.start);
    FindIs(c.data, c.start);
    if c.start.Less(SegOff(c.segment.seg, c.segment.start)) { return None, walk; }
    if c.regions != [] && Find(c.regions, c.start).None? { return None, walk; }
    if Find(c.data, c.start).Some? { return None, walk; }
    var queue := new WorkQueue();
    queue.Insert(c.start);
    var d := FuncDetails(c.start, c.start, {}, {}, 0, None, []);
    StartIsReachable(c);
    NothingReported(c);
    r, walk := WalkQueue(c, queue, d);
  }

  method WalkQueue(c: Input, queue: WorkQueue, first: FuncDetails) returns (r: Option<FuncDetails>, ghost walk: seq<Point>)
    requires queue.Valid() && queue.discovered == {c.start} && queue.queued == {c.start} && NotBefore(c, c.start)
    requires Reports(c, [], first) && Reachable(c, Point(c.start, false))
    modifies queue
    ensures r.Some? ==> Discovered(c, Points(walk)) && WholeWalk(c, walk) && Reports(c, walk, r.value)
    ensures r.None? ==> exists p :: Reachable(c, p) && !Decodes(c, p.addr)
  {
    walk := [];
    var d := first;
    ghost var popped := {};
    assert BetweenBlocks(c, walk, queue.discovered, queue.queued, popped);
    while true
      invariant queue.Valid() && BetweenBlocks(c, walk, queue.discovered, queue.queued, popped) && Reports(c, walk, d)
      modifies queue
      decreases Universe(c) - popped
    {
      ghost var found, queued, was := queue.discovered, queue.queued, walk;
      var loc := queue.Pop();
      if loc.None? { break; }
      LowestIsNext(c, walk, found, queued, popped, loc.value);
      var more;
      more, walk := WalkBlock(c, loc.value, queue, d, walk);
      if more.None? { return None, walk; }
      d := more.value;
      BlockDone(c, was, found, queued, popped, loc.value, walk, queue.discovered, queue.queued);
      popped := popped + {loc.value};
    }
    NothingQueued(c, walk, queue.discovered, popped);
    r := Some(d);
  }

  /** However it was reached, no byte of a discovered instruction lies in declared data, or outside the
      first region that holds its first byte. */
  lemma DiscoveredBytesAreCode(c: Input, v: set<Point>, p: Point, b: u16)
    requires Discovered(c, v) && p in v
    requires p.addr.off <= b < p.addr.off + c.code(p.addr).value.len
    requires forall r :: r in c.data || r in c.regions ==> r.OneSegment()
    ensures forall r :: r in c.data ==> !Holds(r, SegOff(p.addr.seg, b))
    ensures c.regions != [] ==> exists i: nat :: FirstHolds(c.regions, i, p.addr) && Holds(c.regions[i], SegOff(p.addr.seg, b))
  {
    BytesAreCode(c, p.addr, b);
  }
}
