/** Discovering the instructions of a function (dis86/src/analyze/func_details.rs, instr_details.rs,
    dis86/src/asm/branch.rs): what follows what, independently of the order of the search. */
module Discovery {
  import opened Wrappers
  import opened Addresses

  datatype ReturnKind = NearReturn | FarReturn | Interrupt

  datatype CallTarget = Direct(addr: SegOff) | Indirect

  /** A decoded instruction, as far as the analysis tells instructions apart. */
  datatype Operation =
    | Plain(pushesCs: bool)
    | Call(target: CallTarget, far: bool)
    | Return(kind: ReturnKind)
    | Relative(rel: u16, conditional: bool)
    | FarJump(seg: u16, off: u16)
    | IndirectJump
    | Unsupported

  datatype Ins = Ins(len: nat, op: Operation)

  datatype Segment = Segment(seg: Seg, start: u16, end: u16) {
    predicate Contains(a: SegOff) {
      a.seg == seg && start <= a.off < end
    }
  }

  /** `code` is the decoder: the instruction whose bytes start at an address, if they form one. */
  datatype Input = Input(code: SegOff -> Option<Ins>, start: SegOff, end: Option<SegOff>, regions: seq<Region>,
                         segment: Segment, data: seq<Region>)

  function Find(rs: seq<Region>, a: SegOff): Option<Region> {
    if rs == [] then None else if rs[0].Contains(a) then Some(rs[0]) else Find(rs[1..], a)
  }

  /** The start of the next data region after `a` in its segment. */
  function NextDataStart(data: seq<Region>, a: SegOff): Option<SegOff> {
    if data == [] then None
    else
      var rest := NextDataStart(data[1..], a);
      var r := data[0];
      if r.start.seg == a.seg && a.Less(r.start) && a.Less(r.end) && (rest.None? || r.start.Less(rest.value)) then Some(r.start)
      else rest
  }

  /** Decoding stops at the end of the region, of the segment, or at the next data. */
  function DecodeEnd(c: Input, region: Option<Region>, a: SegOff): SegOff {
    var segEnd := SegOff(c.segment.seg, c.segment.end);
    var e := if region.Some? && region.value.end.seg == segEnd.seg && region.value.end.Less(segEnd) then region.value.end else segEnd;
    var d := NextDataStart(c.data, a);
    if d.Some? && d.value.Less(e) then d.value else e
  }

  /** The instruction at `a`, if all its bytes lie before `e` in the same segment. */
  function DecodeOne(code: SegOff -> Option<Ins>, a: SegOff, e: SegOff): (r: Option<Ins>)
    ensures r.Some? ==> a.seg == e.seg && 0 < r.value.len && a.off + r.value.len <= e.off
  {
    if a.seg != e.seg || code(a).None? then None
    else if 0 < code(a).value.len && a.off + code(a).value.len <= e.off then code(a)
    else None
  }

  /** What comes after an instruction; `transfer` leaves the function. */
  datatype Next = Fallthrough(to: SegOff) | Returns(kind: ReturnKind) | Jump(targets: seq<SegOff>, fallthrough: Option<SegOff>) | Transfer

  function NextOf(ins: Ins, a: SegOff, analyzed: Seg): Option<Next> {
    var e := a.AddOffset(ins.len);
    match ins.op
    case Plain(_) => Some(Fallthrough(e))
    case Call(_, _) => Some(Fallthrough(e))
    case Return(kind) => Some(Returns(kind))
    case Relative(rel, conditional) => Some(Jump([e.AddOffset(rel)], if conditional then Some(e) else None))
    case FarJump(seg, off) =>
      if analyzed.Normal? && analyzed.n == seg then Some(Jump([SegOff(analyzed, off)], None)) else Some(Transfer)
    case IndirectJump => Some(Transfer)
    case Unsupported => None
  }

  /** A point of the walk: an address, and whether the instruction just before it pushed CS. */
  datatype Point = Point(addr: SegOff, pushedCs: bool)

  /** What the walk sees at an address: the instruction, and where it goes on in the same block or starts others. */
  datatype Seen = Seen(ins: Ins, goOn: Option<SegOff>, starts: seq<SegOff>, ends: Option<ReturnKind>)

  predicate FollowTarget(c: Input, t: SegOff) {
    Find(c.data, t).None? && c.segment.Contains(t) && (c.regions != [] ==> Find(c.regions, t).Some?)
  }

  predicate FollowBranchFallthrough(c: Input, t: SegOff) {
    Find(c.data, t).None? && if c.regions == [] then c.segment.Contains(t) else Find(c.regions, t).Some?
  }

  predicate GoOn(c: Input, region: Option<Region>, t: SegOff) {
    && Find(c.data, t).None?
    && if region.Some? then region.value.Contains(t)
       else !(c.end.Some? && !t.Less(c.end.value)) && c.segment.Contains(t)
  }

  function Filter(c: Input, ts: seq<SegOff>): seq<SegOff> {
    if ts == [] then [] else (if FollowTarget(c, ts[0]) then [ts[0]] else []) + Filter(c, ts[1..])
  }

  /** One instruction of the walk; `None` where the source reports an error. */
  function See(c: Input, a: SegOff): Option<Seen> {
    var region := Find(c.regions, a);
    if (c.regions != [] && region.None?) || Find(c.data, a).Some? then None
    else
      var ins := DecodeOne(c.code, a, DecodeEnd(c, region, a));
      if ins.None? then None
      else
        var next := NextOf(ins.value, a, c.segment.seg);
        if next.None? then None
        else match next.value
          case Fallthrough(t) => Some(Seen(ins.value, if GoOn(c, region, t) then Some(t) else None, [], None))
          case Returns(kind) => Some(Seen(ins.value, None, [], Some(kind)))
          case Jump(ts, f) =>
            var more := if f.Some? && FollowBranchFallthrough(c, f.value) then [f.value] else [];
            Some(Seen(ins.value, None, Filter(c, ts) + more, None))
          case Transfer => Some(Seen(ins.value, None, [], None))
  }

  function PushesCs(op: Operation): bool {
    op.Plain? && op.pushesCs
  }

  // ------------------------------------------------------------------------
  // What follows what, said of the bytes, the segment, the regions and the data.

  ghost predicate Holds(r: Region, a: SegOff) {
    r.start.seg == a.seg && r.start.off <= a.off < r.end.off
  }

  ghost predicate InSome(rs: seq<Region>, a: SegOff) {
    exists i: nat :: i < |rs| && Holds(rs[i], a)
  }

  /** Region `i` is the first that holds the address. */
  ghost predicate FirstHolds(rs: seq<Region>, i: nat, a: SegOff) {
    i < |rs| && Holds(rs[i], a) && forall j :: 0 <= j < i ==> !Holds(rs[j], a)
  }

  ghost predicate InSegment(c: Input, a: SegOff) {
    a.seg == c.segment.seg && c.segment.start <= a.off < c.segment.end
  }

  /** The first region that holds `a`, if it ends in the same segment, ends no earlier than `n`. */
  ghost predicate RegionReaches(rs: seq<Region>, a: SegOff, n: nat) {
    forall i: nat {:trigger FirstHolds(rs, i, a)} :: FirstHolds(rs, i, a) && rs[i].end.seg == a.seg ==> n <= rs[i].end.off
  }

  /** Every data region that starts after `a` in its segment, and ends after it, starts no earlier than `n`. */
  ghost predicate NoDataBefore(data: seq<Region>, a: SegOff, n: nat) {
    forall i: nat {:trigger data[i]} :: i < |data| && data[i].start.seg == a.seg && a.off < data[i].start.off && a.Less(data[i].end) ==>
      n <= data[i].start.off
  }

  /** All `len` bytes from `a` lie before the end of the segment, of the region that holds `a`, and before the next data. */
  ghost predicate BytesFit(c: Input, a: SegOff, len: nat) {
    && a.seg == c.segment.seg && 0 < len && a.off + len <= c.segment.end
    && RegionReaches(c.regions, a, a.off + len) && NoDataBefore(c.data, a, a.off + len)
  }

  /** An instruction is read at `a`: outside declared data, in a region if there are any, and of a kind that is known. */
  ghost predicate Decodes(c: Input, a: SegOff) {
    && !InSome(c.data, a) && (c.regions != [] ==> InSome(c.regions, a))
    && c.code(a).Some? && BytesFit(c, a, c.code(a).value.len) && !c.code(a).value.op.Unsupported?
  }

  ghost predicate IsCode(c: Input, a: SegOff) {
    InSegment(c, a) && !InSome(c.data, a) && (c.regions != [] ==> InSome(c.regions, a))
  }

  /** A plain instruction or a call goes on at its end, in the same region if there are any, and otherwise within the
      segment and before the annotated end of the function. */
  ghost predicate GoesOnTo(c: Input, a: SegOff, e: SegOff) {
    && !InSome(c.data, e)
    && if c.regions != [] then forall i: nat {:trigger FirstHolds(c.regions, i, a)} :: FirstHolds(c.regions, i, a) ==> Holds(c.regions[i], e)
       else InSegment(c, e) && (c.end.Some? ==> e.Less(c.end.value))
  }

  /** Where the instruction at `a` ends. */
  ghost function After(c: Input, a: SegOff): SegOff
    requires Decodes(c, a)
  {
    SegOff(a.seg, a.off + c.code(a).value.len)
  }

  /** `p` branches to `t`: to its target if that is code, and with a condition also to what comes after it, which with
      regions need not lie in the segment. A far jump leads on only within the segment. */
  ghost predicate Branches(c: Input, p: SegOff, t: SegOff) {
    && Decodes(c, p)
    && var e := After(c, p);
    match c.code(p).value.op
    case Relative(rel, conditional) =>
      || (t.seg == e.seg && (t.off == e.off + rel || t.off + 0x1_0000 == e.off + rel) && IsCode(c, t))
      || (conditional && t == e && !InSome(c.data, e) && if c.regions == [] then InSegment(c, e) else InSome(c.regions, e))
    case FarJump(seg, off) => c.segment.seg == Normal(seg) && t == SegOff(Normal(seg), off) && IsCode(c, t)
    case _ => false
  }

  /** `q` follows `p` in the same block: a plain instruction may have pushed CS. */
  ghost predicate GoesOn(c: Input, p: SegOff, q: Point) {
    && Decodes(c, p) && q.addr == After(c, p) && GoesOnTo(c, p, q.addr)
    && match c.code(p).value.op
       case Plain(pushesCs) => q.pushedCs == pushesCs
       case Call(_, _) => !q.pushedCs
       case _ => false
  }

  ghost predicate Follows(c: Input, p: Point, q: Point) {
    GoesOn(c, p.addr, q) || (Branches(c, p.addr, q.addr) && !q.pushedCs)
  }

  // ------------------------------------------------------------------------
  // The search sees just that.

  lemma {:induction false} FindIs(rs: seq<Region>, a: SegOff)
    ensures Find(rs, a).Some? <==> InSome(rs, a)
    ensures forall i: nat {:trigger FirstHolds(rs, i, a)} :: FirstHolds(rs, i, a) ==> Find(rs, a) == Some(rs[i])
    ensures Find(rs, a).Some? ==> exists i: nat :: FirstHolds(rs, i, a)
  {
    if rs != [] {
      FindIs(rs[1..], a);
      if rs[0].Contains(a) {
        assert FirstHolds(rs, 0, a);
      } else {
        FindInRest(rs, a);
      }
    }
  }

  lemma FindInRest(rs: seq<Region>, a: SegOff)
    requires rs != [] && !Holds(rs[0], a)
    ensures InSome(rs, a) <==> InSome(rs[1..], a)
    ensures forall i: nat {:trigger FirstHolds(rs, i, a)} :: FirstHolds(rs, i, a) ==> 0 < i && FirstHolds(rs[1..], i - 1, a)
    ensures forall i: nat {:trigger FirstHolds(rs[1..], i, a)} :: FirstHolds(rs[1..], i, a) ==> FirstHolds(rs, i + 1, a)
  {
    var rest := rs[1..];
    assert forall i: nat {:trigger rest[i]} :: i < |rest| ==> rest[i] == rs[i + 1];
    assert forall i: nat {:trigger rs[i]} :: 0 < i < |rs| ==> rs[i] == rest[i - 1];
    if i: nat :| i < |rest| && Holds(rest[i], a) {
      assert Holds(rs[i + 1], a);
    }
    if i: nat :| i < |rs| && Holds(rs[i], a) {
      assert Holds(rest[i - 1], a);
    }
    forall i: nat | FirstHolds(rs, i, a)
      ensures 0 < i && FirstHolds(rest, i - 1, a)
    {
    }
    forall i: nat | FirstHolds(rest, i, a)
      ensures FirstHolds(rs, i + 1, a)
    {
      forall j | 0 <= j < i + 1
        ensures !Holds(rs[j], a)
      {
        if j > 0 {
          assert !Holds(rest[j - 1], a);
        }
      }
    }
  }

  /** The start of the next data bounds what is decoded just as all data do. */
  lemma {:induction false} NextDataBounds(data: seq<Region>, a: SegOff, n: nat)
    ensures var d := NextDataStart(data, a);
      (d.Some? ==> d.value.seg == a.seg && a.off < d.value.off) && ((d.Some? ==> n <= d.value.off) <==> NoDataBefore(data, a, n))
  {
    if data != [] {
      var rest := data[1..];
      NextDataBounds(rest, a, n);
      assert forall i: nat {:trigger rest[i]} :: i < |rest| ==> rest[i] == data[i + 1];
      assert NoDataBefore(data, a, n) ==> NoDataBefore(rest, a, n);
      assert forall i: nat {:trigger data[i]} :: 0 < i < |data| ==> data[i] == rest[i - 1];
    }
  }

  /** Not in a segment that sorts before the analyzed one. */
  predicate NotBefore(c: Input, a: SegOff) {
    a.seg == c.segment.seg || !a.Less(SegOff(c.segment.seg, c.segment.start))
  }

  /** `See` reads an instruction exactly where one is, and the right one. */
  lemma SeeIff(c: Input, a: SegOff)
    requires NotBefore(c, a)
    ensures See(c, a).Some? <==> Decodes(c, a)
    ensures See(c, a).Some? ==> See(c, a).value.ins == c.code(a).value
    ensures See(c, a).Some? ==> forall k :: See(c, a).value.ends == Some(k) <==> c.code(a).value.op == Return(k)
  {
    FindIs(c.data, a);
    FindIs(c.regions, a);
    if c.code(a).Some? && 0 < c.code(a).value.len {
      EndBounds(c, a, c.code(a).value.len);
    }
  }

  /** The bytes lie before the end the decoder is given exactly when they fit. */
  lemma EndBounds(c: Input, a: SegOff, len: nat)
    requires NotBefore(c, a) && 0 < len
    ensures var e := DecodeEnd(c, Find(c.regions, a), a); a.seg == e.seg && a.off + len <= e.off <==> BytesFit(c, a, len)
  {
    FindIs(c.regions, a);
    NextDataBounds(c.data, a, a.off + len);
  }

  /** What it says follows is what does. */
  lemma SeesWhatFollows(c: Input, a: SegOff)
    requires Decodes(c, a)
    ensures See(c, a).Some? && var s := See(c, a).value;
      && (forall t :: t in s.starts <==> Branches(c, a, t))
      && (forall q: Point :: (s.goOn == Some(q.addr) && q.pushedCs == PushesCs(s.ins.op)) <==> GoesOn(c, a, q))
  {
    SeeIff(c, a);
    FindIs(c.regions, a);
    forall t
      ensures FollowTarget(c, t) <==> IsCode(c, t)
      ensures t in See(c, a).value.starts <==> Branches(c, a, t)
    {
      TargetIsCode(c, t);
      StartsAre(c, a, t);
    }
    FindIs(c.data, After(c, a));
  }

  lemma TargetIsCode(c: Input, t: SegOff)
    ensures FollowTarget(c, t) <==> IsCode(c, t)
  {
    FindIs(c.data, t);
    FindIs(c.regions, t);
  }

  lemma StartsAre(c: Input, a: SegOff, t: SegOff)
    requires Decodes(c, a)
    ensures See(c, a).Some? && (t in See(c, a).value.starts <==> Branches(c, a, t))
  {
    SeeIff(c, a);
    TargetIsCode(c, t);
    var ins := c.code(a).value;
    match ins.op
    case Relative(rel, conditional) => RelativeStarts(c, a, rel, conditional, t);
    case FarJump(seg, off) => FilterKeeps(c, [SegOff(c.segment.seg, off)]);
    case _ =>
  }

  lemma RelativeStarts(c: Input, a: SegOff, rel: u16, conditional: bool, t: SegOff)
    requires Decodes(c, a) && See(c, a).Some? && See(c, a).value.ins == c.code(a).value
    requires c.code(a).value.op == Relative(rel, conditional)
    ensures t in See(c, a).value.starts <==> Branches(c, a, t)
  {
    var e := After(c, a);
    FilterKeeps(c, [e.AddOffset(rel)]);
    TargetIsCode(c, t);
    MayFallThrough(c, e);
  }

  lemma MayFallThrough(c: Input, e: SegOff)
    ensures FollowBranchFallthrough(c, e) <==> !InSome(c.data, e) && if c.regions == [] then InSegment(c, e) else InSome(c.regions, e)
  {
    FindIs(c.data, e);
    FindIs(c.regions, e);
  }

  lemma {:induction false} FilterKeeps(c: Input, ts: seq<SegOff>)
    ensures forall t :: t in Filter(c, ts) <==> t in ts && FollowTarget(c, t)
  {
    if ts != [] {
      FilterKeeps(c, ts[1..]);
    }
  }

  // ------------------------------------------------------------------------
  // Reachability.

  ghost predicate Walk(c: Input, w: seq<Point>) {
    && w != [] && w[0] == Point(c.start, false)
    && forall k :: 0 <= k < |w| - 1 ==> Follows(c, w[k], w[k + 1])
  }

  ghost predicate Reachable(c: Input, p: Point) {
    exists w :: Walk(c, w) && w[|w| - 1] == p
  }

  ghost predicate Closed(c: Input, v: set<Point>) {
    Point(c.start, false) in v && forall p, q :: p in v && Follows(c, p, q) ==> q in v
  }

  lemma StartIsReachable(c: Input)
    ensures Reachable(c, Point(c.start, false))
  {
    assert Walk(c, [Point(c.start, false)]);
  }

  lemma ReachableStep(c: Input, p: Point, q: Point)
    requires Reachable(c, p) && Follows(c, p, q)
    ensures Reachable(c, q)
  {
    var w :| Walk(c, w) && w[|w| - 1] == p;
    assert Walk(c, w + [q]);
  }

  /** A closed set holds every reachable point. */
  lemma {:induction false} ClosedHoldsWalk(c: Input, v: set<Point>, w: seq<Point>)
    requires Closed(c, v) && Walk(c, w)
    ensures w[|w| - 1] in v
    decreases |w|
  {
    if |w| > 1 {
      var init := w[..|w| - 1];
      assert Walk(c, init);
      ClosedHoldsWalk(c, v, init);
      assert Follows(c, w[|w| - 2], w[|w| - 2 + 1]);
    }
  }

  /** Exactly the reachable points, all of them without an error: the least closed set. */
  ghost predicate Discovered(c: Input, v: set<Point>) {
    && (forall p :: p in v <==> Reachable(c, p))
    && (forall p :: p in v ==> Decodes(c, p.addr))
  }

  lemma ClosedIsDiscovered(c: Input, v: set<Point>)
    requires Closed(c, v) && forall p :: p in v ==> Reachable(c, p) && Decodes(c, p.addr)
    ensures Discovered(c, v)
  {
    forall p | Reachable(c, p)
      ensures p in v
    {
      var w :| Walk(c, w) && w[|w| - 1] == p;
      ClosedHoldsWalk(c, v, w);
    }
  }

  // ------------------------------------------------------------------------
  // The order of the walk.

  ghost predicate NoLater(e: SegOff, a: SegOff) {
    e == a || e.Less(a)
  }

  ghost function Points(walk: seq<Point>): set<Point> {
    set p | p in walk
  }

  /** A block starts where the function does, and where an instruction of the walk branches. */
  ghost predicate StartsBlock(c: Input, v: set<Point>, a: SegOff) {
    a == c.start || exists p :: p in v && Branches(c, p.addr, a)
  }

  ghost predicate Stops(c: Input, a: SegOff) {
    forall q {:trigger GoesOn(c, a, q)} :: !GoesOn(c, a, q)
  }

  /** Nothing goes on from where the walk is: a block is to begin. */
  ghost predicate Idle(c: Input, walk: seq<Point>) {
    walk == [] || Stops(c, walk[|walk| - 1].addr)
  }

  /** A block of the walk begins at `a`. */
  ghost predicate Begun(c: Input, walk: seq<Point>, a: SegOff) {
    exists n: nat {:trigger walk[n]} :: n < |walk| && walk[n].addr == a && Idle(c, walk[..n])
  }

  ghost predicate Waits(c: Input, walk: seq<Point>, a: SegOff) {
    StartsBlock(c, Points(walk), a) && !Begun(c, walk, a)
  }

  /** The walk goes on within its block, and then at the lowest block start found so far that is still waiting. */
  ghost predicate NextInOrder(c: Input, walk: seq<Point>, p: Point) {
    if Idle(c, walk) then
      !p.pushedCs && Waits(c, walk, p.addr) && forall a {:trigger Waits(c, walk, a)} :: Waits(c, walk, a) ==> NoLater(p.addr, a)
    else GoesOn(c, walk[|walk| - 1].addr, p)
  }

  ghost predicate InOrder(c: Input, walk: seq<Point>) {
    forall n: nat :: n < |walk| ==> NextInOrder(c, walk[..n], walk[n])
  }

  /** The whole walk: nothing goes on, and nothing waits. */
  ghost predicate WholeWalk(c: Input, walk: seq<Point>) {
    InOrder(c, walk) && Idle(c, walk) && forall a {:trigger Waits(c, walk, a)} :: !Waits(c, walk, a)
  }

  lemma OneMoreInOrder(c: Input, walk: seq<Point>, p: Point)
    requires InOrder(c, walk) && NextInOrder(c, walk, p)
    ensures InOrder(c, walk + [p])
  {
    var more := walk + [p];
    forall n: nat | n < |more|
      ensures NextInOrder(c, more[..n], more[n])
    {
      assert more[..n] == walk[..n];
      assert walk[..|walk|] == walk;
    }
  }

  lemma BegunOneMore(c: Input, walk: seq<Point>, p: Point, a: SegOff)
    ensures Begun(c, walk + [p], a) <==> Begun(c, walk, a) || (Idle(c, walk) && p.addr == a)
  {
    var more := walk + [p];
    assert forall n: nat {:trigger more[..n]} :: n <= |walk| ==> more[..n] == walk[..n];
    assert more[|walk|] == p && walk[..|walk|] == walk;
    if n: nat :| n < |walk| && walk[n].addr == a && Idle(c, walk[..n]) {
      assert more[n].addr == a && more[..n] == walk[..n];
    }
    if n: nat :| n < |more| && more[n].addr == a && Idle(c, more[..n]) {
      assert more[..n] == walk[..n];
      assert n < |walk| ==> walk[n].addr == a;
    }
  }

  /** There is one whole walk. */
  lemma WholeWalkIsUnique(c: Input, a: seq<Point>, b: seq<Point>)
    requires WholeWalk(c, a) && WholeWalk(c, b)
    ensures a == b
  {
    NoLonger(c, a, b);
    NoLonger(c, b, a);
    SameUpTo(c, a, b, |a|);
    assert a[..|a|] == a && b[..|a|] == b;
  }

  lemma NoLonger(c: Input, a: seq<Point>, b: seq<Point>)
    requires WholeWalk(c, a) && InOrder(c, b)
    ensures |b| <= |a|
  {
    if |a| < |b| {
      assert a[..|a|] == a;
      NextAt(c, b, |a|);
      SameUpTo(c, a, b, |a|);
      WholeEnds(c, a, b[|a|]);
    }
  }

  lemma WholeEnds(c: Input, a: seq<Point>, p: Point)
    requires WholeWalk(c, a)
    ensures !NextInOrder(c, a, p)
  {
  }

  lemma {:induction false} SameUpTo(c: Input, a: seq<Point>, b: seq<Point>, n: nat)
    requires InOrder(c, a) && InOrder(c, b) && n <= |a| && n <= |b|
    ensures a[..n] == b[..n]
  {
    if n > 0 {
      SameUpTo(c, a, b, n - 1);
      SameNext(c, a, b, n - 1);
      assert a[..n] == a[..n - 1] + [a[n - 1]];
    }
  }

  lemma SameNext(c: Input, a: seq<Point>, b: seq<Point>, n: nat)
    requires InOrder(c, a) && InOrder(c, b) && n < |a| && n < |b| && a[..n] == b[..n]
    ensures a[n] == b[n]
  {
    NextAt(c, a, n);
    NextAt(c, b, n);
    NextIsOne(c, a[..n], a[n], b[n]);
  }

  lemma NextAt(c: Input, walk: seq<Point>, n: nat)
    requires InOrder(c, walk) && n < |walk|
    ensures NextInOrder(c, walk[..n], walk[n])
  {
  }

  lemma NextIsOne(c: Input, walk: seq<Point>, p: Point, q: Point)
    requires NextInOrder(c, walk, p) && NextInOrder(c, walk, q)
    ensures p == q
  {
    if Idle(c, walk) {
      assert NoLater(p.addr, q.addr) && NoLater(q.addr, p.addr);
      LessIsTotal(p.addr, q.addr, q.addr);
    }
  }

  // ------------------------------------------------------------------------
  // What is reported.

  datatype CallMode = NearCall | FarCall

  function ModeOf(op: Operation, pushedCs: bool): CallMode
    requires op.Call?
  {
    if op.far || pushedCs then FarCall else NearCall
  }

  datatype FuncDetails = FuncDetails(startAddr: SegOff, endAddrInferred: SegOff, directCalls: set<SegOff>,
                                     directCallKinds: set<(SegOff, CallMode)>, indirectCalls: nat,
                                     returnKind: Option<ReturnKind>, ignoredReturnKinds: seq<ReturnKind>)

  /** A call is far if its instruction is, or if CS was pushed just before it. */
  ghost predicate CallsAt(c: Input, p: Point, t: SegOff, mode: CallMode) {
    && Decodes(c, p.addr) && var op := c.code(p.addr).value.op;
    op.Call? && op.target == Direct(t) && (mode.FarCall? <==> op.far || p.pushedCs)
  }

  ghost predicate IndirectAt(c: Input, p: Point) {
    Decodes(c, p.addr) && var op := c.code(p.addr).value.op; op.Call? && op.target.Indirect?
  }

  ghost predicate ReturnsAt(c: Input, p: Point, kind: ReturnKind) {
    Decodes(c, p.addr) && c.code(p.addr).value.op == Return(kind)
  }

  ghost function IndirectCalls(c: Input, walk: seq<Point>): set<nat> {
    set n: nat | n < |walk| && IndirectAt(c, walk[n])
  }

  /** The report tells exactly what the points of the walk show. */
  ghost predicate Reports(c: Input, walk: seq<Point>, d: FuncDetails)
    requires forall p :: p in Points(walk) ==> Decodes(c, p.addr)
  {
    && d.startAddr == c.start
    && CallsReported(c, Points(walk), d.directCalls, d.directCallKinds)
    && d.indirectCalls == |IndirectCalls(c, walk)|
    && EndReported(c, Points(walk), d.endAddrInferred)
    && KindsReported(c, walk, (if d.returnKind.Some? then [d.returnKind.value] else []) + d.ignoredReturnKinds)
    && (d.returnKind.None? ==> d.ignoredReturnKinds == [])
  }

  /** Exactly the direct calls seen, each with every mode it was seen in. */
  ghost predicate CallsReported(c: Input, v: set<Point>, calls: set<SegOff>, kinds: set<(SegOff, CallMode)>) {
    && (forall t, mode :: (t, mode) in kinds <==> exists p :: p in v && CallsAt(c, p, t, mode))
    && (forall t :: t in calls <==> exists mode :: (t, mode) in kinds)
  }

  /** The latest end of an instruction seen, or the start if that is later. */
  ghost predicate EndReported(c: Input, v: set<Point>, e: SegOff)
    requires forall p :: p in v ==> Decodes(c, p.addr)
  {
    && (forall p :: p in v ==> NoLater(After(c, p.addr), e))
    && NoLater(c.start, e)
    && (e == c.start || exists p :: p in v && After(c, p.addr) == e)
  }

  /** A return of kind `k` is seen, and before any of kind `j`. */
  ghost predicate SeenBefore(c: Input, walk: seq<Point>, k: ReturnKind, j: ReturnKind) {
    exists n: nat {:trigger walk[n]} :: n < |walk| && ReturnsAt(c, walk[n], k) && forall m: nat :: m <= n ==> !ReturnsAt(c, walk[m], j)
  }

  /** Every kind of return seen is reported once, and no other, in the order in which they are first seen. */
  ghost predicate KindsReported(c: Input, walk: seq<Point>, kinds: seq<ReturnKind>) {
    && (forall k :: k in kinds <==> exists p :: p in walk && ReturnsAt(c, p, k))
    && (forall i, j :: 0 <= i < j < |kinds| ==> SeenBefore(c, walk, kinds[i], kinds[j]))
  }

  // ------------------------------------------------------------------------
  // Nothing that is not code is decoded.

  lemma BytesAreCode(c: Input, a: SegOff, b: u16)
    requires Decodes(c, a) && a.off <= b < a.off + c.code(a).value.len
    requires forall r :: r in c.data || r in c.regions ==> r.OneSegment()
    ensures forall r :: r in c.data ==> !Holds(r, SegOff(a.seg, b))
    ensures c.regions != [] ==> exists i: nat :: FirstHolds(c.regions, i, a) && Holds(c.regions[i], SegOff(a.seg, b))
  {
    forall r | r in c.data
      ensures !Holds(r, SegOff(a.seg, b))
    {
      var i: nat :| i < |c.data| && c.data[i] == r;
      assert !Holds(c.data[i], a);
    }
    FindIs(c.regions, a);
    if i: nat :| FirstHolds(c.regions, i, a) {
      assert c.regions[i] in c.regions;
    }
  }
}
