/** The search for the guest pointer an address expression is built from
    (dis86/src/decompile/ast.rs, guest_pointer_origin): depth-bounded, with a memo of the
    depth at which each reference was last explored. */
module PointerSearch {
  import opened Wrappers

  type Ref = nat

  const MAX_DEPTH: nat := 24

  datatype PtrKind = Near | NearSs | NearEs | FarKind

  /** `pointerValue` is the instruction that read the pointer, if it was read. */
  datatype Origin = Origin(symbol: nat, kind: PtrKind, pointerValue: Option<Ref>)

  /** What a reference is, as far as the search cares. `kind` is that of the symbol's type or annotation. */
  datatype Node =
    | Symbol(symbol: nat, kind: Option<PtrKind>)
    | ReadVar(read: Option<nat>, kind: Option<PtrKind>)
    | Half(operands: seq<Ref>)       // Ref, Lower16, Upper16: only the first operand counts
    | Instr(operands: seq<Ref>)
    | Other                          // constants, initial registers, blocks

  /** Any operand graph: shared, cyclic, with dangling references. */
  type Ir = map<Ref, Node>

  function Own(ir: Ir, r: Ref): set<Origin> {
    if r !in ir then {}
    else match ir[r]
      case Symbol(s, kind) => if kind.Some? then {Origin(s, kind.value, None)} else {}
      case ReadVar(s, kind) => if s.Some? && kind.Some? then {Origin(s.value, kind.value, Some(r))} else {}
      case _ => {}
  }

  function Operands(ir: Ir, r: Ref): seq<Ref> {
    if r !in ir then []
    else match ir[r]
      case Half(ops) => if ops == [] then [] else [ops[0]]
      case Instr(ops) => ops
      case _ => []
  }

  /** The search without a memo. */
  ghost function Plain(ir: Ir, r: Ref, depth: nat): set<Origin>
    decreases MAX_DEPTH + 1 - depth, 1, 0
  {
    if depth > MAX_DEPTH then {} else Own(ir, r) + PlainAll(ir, Operands(ir, r), depth + 1)
  }

  ghost function PlainAll(ir: Ir, rs: seq<Ref>, depth: nat): set<Origin>
    decreases MAX_DEPTH + 1 - depth, 2, |rs|
  {
    if rs == [] then {} else Plain(ir, rs[0], depth) + PlainAll(ir, rs[1..], depth)
  }

  // ------------------------------------------------------------------------
  // What the plain search finds: the origins at the ends of short enough paths.

  /** `x` is computed from `y`: an operand of an instruction, or the first one of an instruction that takes a half. */
  ghost predicate StepsTo(ir: Ir, x: Ref, y: Ref) {
    && x in ir
    && ((ir[x].Instr? && y in ir[x].operands)
        || (ir[x].Half? && ir[x].operands != [] && ir[x].operands[0] == y))
  }

  /** A symbol of pointer kind is the origin of a pointer, and so is what a read of one reads. */
  ghost predicate EndsAt(ir: Ir, x: Ref, o: Origin) {
    && x in ir
    && ((ir[x].Symbol? && ir[x].kind.Some? && o == Origin(ir[x].symbol, ir[x].kind.value, None))
        || (ir[x].ReadVar? && ir[x].read.Some? && ir[x].kind.Some? && o == Origin(ir[x].read.value, ir[x].kind.value, Some(x))))
  }

  ghost predicate Path(ir: Ir, p: seq<Ref>) {
    p != [] && forall i :: 0 <= i < |p| - 1 ==> StepsTo(ir, p[i], p[i + 1])
  }

  /** A path from `r` to an origin, of at most 25 references from depth 0 on. */
  ghost predicate OriginAt(ir: Ir, r: Ref, depth: nat, o: Origin, p: seq<Ref>) {
    Path(ir, p) && p[0] == r && depth + |p| <= 25 && EndsAt(ir, p[|p| - 1], o)
  }

  ghost predicate Found(ir: Ir, r: Ref, depth: nat, o: Origin) {
    exists p :: OriginAt(ir, r, depth, o, p)
  }

  lemma StepsAreOperands(ir: Ir, x: Ref)
    ensures forall y :: StepsTo(ir, x, y) <==> y in Operands(ir, x)
  {
  }

  lemma EndsAreOwn(ir: Ir, x: Ref)
    ensures forall o :: EndsAt(ir, x, o) <==> o in Own(ir, x)
  {
  }

  lemma {:induction false} PlainAllMember(ir: Ir, rs: seq<Ref>, depth: nat, o: Origin)
    ensures o in PlainAll(ir, rs, depth) <==> exists r :: r in rs && o in Plain(ir, r, depth)
    decreases |rs|
  {
    if rs != [] {
      PlainAllMember(ir, rs[1..], depth, o);
      if r :| r in rs && o in Plain(ir, r, depth) {
        assert r == rs[0] || r in rs[1..];
      }
      if r :| r in rs[1..] && o in Plain(ir, r, depth) {
        assert r in rs;
      }
      assert rs[0] in rs;
    }
  }

  lemma PathStarts(ir: Ir, r: Ref, k: Ref, depth: nat, o: Origin, p: seq<Ref>)
    requires StepsTo(ir, r, k) && OriginAt(ir, k, depth + 1, o, p)
    ensures OriginAt(ir, r, depth, o, [r] + p)
  {
    var w := [r] + p;
    forall i | 0 <= i < |w| - 1
      ensures StepsTo(ir, w[i], w[i + 1])
    {
      assert i > 0 ==> StepsTo(ir, p[i - 1], p[(i - 1) + 1]);
    }
  }

  lemma PathGoesOn(ir: Ir, r: Ref, depth: nat, o: Origin, p: seq<Ref>)
    requires OriginAt(ir, r, depth, o, p) && |p| > 1
    ensures StepsTo(ir, r, p[1]) && OriginAt(ir, p[1], depth + 1, o, p[1..])
  {
    assert StepsTo(ir, p[0], p[0 + 1]);
    forall i | 0 <= i < |p[1..]| - 1
      ensures StepsTo(ir, p[1..][i], p[1..][i + 1])
    {
      assert StepsTo(ir, p[i + 1], p[(i + 1) + 1]);
    }
  }

  lemma {:induction false} PlainFindsPathEnds(ir: Ir, r: Ref, depth: nat, o: Origin)
    ensures o in Plain(ir, r, depth) <==> Found(ir, r, depth, o)
    decreases MAX_DEPTH + 1 - depth
  {
    StepsAreOperands(ir, r);
    EndsAreOwn(ir, r);
    if o in Plain(ir, r, depth) {
      if EndsAt(ir, r, o) {
        assert OriginAt(ir, r, depth, o, [r]);
      } else {
        PlainAllMember(ir, Operands(ir, r), depth + 1, o);
        var k :| k in Operands(ir, r) && o in Plain(ir, k, depth + 1);
        PlainFindsPathEnds(ir, k, depth + 1, o);
        var p :| OriginAt(ir, k, depth + 1, o, p);
        PathStarts(ir, r, k, depth, o, p);
      }
    }
    if p :| OriginAt(ir, r, depth, o, p) {
      if |p| > 1 {
        PathGoesOn(ir, r, depth, o, p);
        PlainFindsPathEnds(ir, p[1], depth + 1, o);
        PlainAllMember(ir, Operands(ir, r), depth + 1, o);
      }
    }
  }

  /** `o` is the origin of all paths from `r` that are short enough, and there is one. */
  ghost predicate OnlyOrigin(ir: Ir, r: Ref, depth: nat, o: Origin) {
    && Found(ir, r, depth, o)
    && forall o', p :: OriginAt(ir, r, depth, o', p) ==> o' == o
  }

  lemma OnlyOneFound(ir: Ir, r: Ref, depth: nat, o: Origin)
    ensures Plain(ir, r, depth) == {o} <==> OnlyOrigin(ir, r, depth, o)
  {
    forall o'
      ensures o' in Plain(ir, r, depth) <==> Found(ir, r, depth, o')
    {
      PlainFindsPathEnds(ir, r, depth, o');
    }
    if Plain(ir, r, depth) == {o} {
      forall o', p | OriginAt(ir, r, depth, o', p)
        ensures o' == o
      {
        assert Found(ir, r, depth, o');
      }
      assert Found(ir, r, depth, o);
    }
    if OnlyOrigin(ir, r, depth, o) {
      assert Found(ir, r, depth, o);
      forall o' | o' in Plain(ir, r, depth)
        ensures o' == o
      {
        assert Found(ir, r, depth, o');
      }
    }
  }

  // ------------------------------------------------------------------------
  // The memoised search.

  /** `r` has been explored from its recorded depth: its own origins are found, and its operands were
      looked at no deeper than one below it. */
  ghost predicate Explored(ir: Ir, found: set<Origin>, visited: map<Ref, nat>, r: Ref)
    requires r in visited
  {
    && Own(ir, r) <= found
    && (visited[r] < MAX_DEPTH ==> forall k :: k in Operands(ir, r) ==> k in visited && visited[k] <= visited[r] + 1)
  }

  /** Whatever was visited and is not being explored right now has been explored. */
  ghost predicate AllExplored(ir: Ir, found: set<Origin>, visited: map<Ref, nat>, open: set<Ref>) {
    forall r {:trigger Explored(ir, found, visited, r)} :: r in visited && r !in open ==> Explored(ir, found, visited, r)
  }

  /** How often each reference was explored: at a smaller depth each time. */
  ghost predicate Counted(visited: map<Ref, nat>, count: map<Ref, nat>) {
    && (forall r :: r in count ==> r in visited)
    && (forall r :: r in visited ==> r in count && visited[r] <= MAX_DEPTH && count[r] + visited[r] <= MAX_DEPTH + 1)
  }

  /** The memo only ever improves, and leaves what is being explored alone. */
  ghost predicate Improves(before: map<Ref, nat>, after: map<Ref, nat>, open: set<Ref>) {
    && (forall r :: r in before ==> r in after && after[r] <= before[r])
    && (forall r :: r in open && r in before ==> after[r] == before[r])
  }

  /** With nothing left open, the plain search from any visited reference finds nothing new. */
  lemma {:induction false} ExploredIsComplete(ir: Ir, found: set<Origin>, visited: map<Ref, nat>, r: Ref, depth: nat)
    requires AllExplored(ir, found, visited, {}) && r in visited && visited[r] <= depth
    ensures Plain(ir, r, depth) <= found
    decreases MAX_DEPTH + 1 - depth
  {
    assert Explored(ir, found, visited, r);
    forall o | o in Plain(ir, r, depth)
      ensures o in found
    {
      if o !in Own(ir, r) {
        PlainAllMember(ir, Operands(ir, r), depth + 1, o);
        var k :| k in Operands(ir, r) && o in Plain(ir, k, depth + 1);
        if depth < MAX_DEPTH {
          ExploredIsComplete(ir, found, visited, k, depth + 1);
        }
      }
    }
  }

  /** Opening a reference, for the first time or at a smaller depth, leaves the others explored. */
  lemma OpenKeepsExplored(ir: Ir, found: set<Origin>, visited: map<Ref, nat>, open: set<Ref>, r: Ref, depth: nat)
    requires AllExplored(ir, found, visited, open) && (r in visited ==> depth < visited[r])
    ensures AllExplored(ir, found + Own(ir, r), visited[r := depth], open + {r})
  {
    forall x | x in visited[r := depth] && x !in open + {r}
      ensures Explored(ir, found + Own(ir, r), visited[r := depth], x)
    {
      assert Explored(ir, found, visited, x);
    }
  }

  lemma OpenCounts(visited: map<Ref, nat>, count: map<Ref, nat>, r: Ref, depth: nat)
    requires Counted(visited, count) && depth <= MAX_DEPTH && (r in visited ==> depth < visited[r])
    ensures Counted(visited[r := depth], count[r := if r in count then count[r] + 1 else 1])
  {
  }

  lemma OpenImproves(before: map<Ref, nat>, after: map<Ref, nat>, open: set<Ref>, r: Ref, depth: nat)
    requires (r in before ==> depth < before[r]) && r !in open
    requires Improves(before[r := depth], after, open + {r})
    ensures Improves(before, after, open) && r in after && after[r] == depth
  {
    assert r in before[r := depth];
    forall x | x in before
      ensures x in after && after[x] <= before[x] && (x in open ==> after[x] == before[x])
    {
      assert x in before[r := depth];
    }
  }

  ghost predicate Looked(visited: map<Ref, nat>, ops: seq<Ref>, n: nat, depth: nat)
    requires n <= |ops|
  {
    depth <= MAX_DEPTH ==> forall j :: 0 <= j < n ==> ops[j] in visited && visited[ops[j]] <= depth
  }

  /** Once all its operands were looked at, a reference is explored. */
  lemma CloseExplores(ir: Ir, found: set<Origin>, visited: map<Ref, nat>, open: set<Ref>, r: Ref, depth: nat)
    requires AllExplored(ir, found, visited, open + {r}) && r in visited && visited[r] == depth && Own(ir, r) <= found
    requires Looked(visited, Operands(ir, r), |Operands(ir, r)|, depth + 1)
    ensures AllExplored(ir, found, visited, open)
  {
    assert Explored(ir, found, visited, r);
  }

  class Search {
    const ir: Ir
    var found: set<Origin>
    var visited: map<Ref, nat>
    ghost var count: map<Ref, nat>

    constructor (ir: Ir)
      ensures this.ir == ir && found == {} && visited == map[] && count == map[]
    {
      this.ir, found, visited, count := ir, {}, map[], map[];
    }

    /** Explore `r`, unless it was explored from this depth or a smaller one. */
    method Collect(r: Ref, depth: nat, ghost open: set<Ref>)
      requires Counted(visited, count) && AllExplored(ir, found, visited, open)
      requires forall x :: x in open ==> x in visited && visited[x] < depth
      modifies this
      ensures Counted(visited, count) && AllExplored(ir, found, visited, open)
      ensures Improves(old(visited), visited, open)
      ensures depth <= MAX_DEPTH ==> r in visited && visited[r] <= depth
      ensures old(found) <= found <= old(found) + Plain(ir, r, depth)
      decreases MAX_DEPTH + 1 - depth, 0
    {
      if depth > MAX_DEPTH { return; }
      if r in visited && visited[r] <= depth { return; }
      ghost var before := visited;
      OpenRef(r, depth, open);
      CollectAll(Operands(ir, r), depth + 1, open + {r});
      OpenImproves(before, visited, open, r, depth);
      CloseExplores(ir, found, visited, open, r, depth);
    }

    /** Note the depth, and take the reference's own origin. */
    method OpenRef(r: Ref, depth: nat, ghost open: set<Ref>)
      requires Counted(visited, count) && AllExplored(ir, found, visited, open)
      requires depth <= MAX_DEPTH && (r in visited ==> depth < visited[r])
      modifies this
      ensures Counted(visited, count) && AllExplored(ir, found, visited, open + {r})
      ensures visited == old(visited)[r := depth] && found == old(found) + Own(ir, r)
    {
      OpenKeepsExplored(ir, found, visited, open, r, depth);
      OpenCounts(visited, count, r, depth);
      visited := visited[r := depth];
      count := count[r := if r in count then count[r] + 1 else 1];
      found := found + Own(ir, r);
    }

    method CollectAll(ops: seq<Ref>, depth: nat, ghost open: set<Ref>)
      requires Counted(visited, count) && AllExplored(ir, found, visited, open)
      requires forall x :: x in open ==> x in visited && visited[x] < depth
      modifies this
      ensures Counted(visited, count) && AllExplored(ir, found, visited, open)
      ensures Improves(old(visited), visited, open)
      ensures Looked(visited, ops, |ops|, depth)
      ensures old(found) <= found <= old(found) + PlainAll(ir, ops, depth)
      decreases MAX_DEPTH + 1 - depth, 1
    {
      for n := 0 to |ops|
        invariant Counted(visited, count) && AllExplored(ir, found, visited, open)
        invariant Improves(old(visited), visited, open)
        invariant Looked(visited, ops, n, depth)
        invariant old(found) <= found <= old(found) + PlainAll(ir, ops, depth)
      {
        PlainAllMembers(ir, ops, n, depth);
        Collect(ops[n], depth, open);
      }
    }

    /** The one guest pointer behind `r`, if there is exactly one. */
    method GuestPointerOrigin(r: Ref, depth: nat) returns (origin: Option<Origin>)
      requires found == {} && visited == map[] && count == map[]
      modifies this
      ensures found == Plain(ir, r, depth)
      ensures forall o :: origin == Some(o) <==> OnlyOrigin(ir, r, depth, o)
      ensures forall x :: x in count ==> count[x] <= 25
    {
      Collect(r, depth, {});
      if depth <= MAX_DEPTH {
        ExploredIsComplete(ir, found, visited, r, depth);
      }
      origin := None;
      if |found| == 1 {
        var o :| o in found;
        OnlyMember(found, o);
        origin := Some(o);
      }
      forall o
        ensures origin == Some(o) <==> OnlyOrigin(ir, r, depth, o)
      {
        OnlyOneFound(ir, r, depth, o);
        SingleMeans(found, origin, o);
      }
    }
  }

  lemma PlainAllMembers(ir: Ir, rs: seq<Ref>, n: nat, depth: nat)
    requires n < |rs|
    ensures Plain(ir, rs[n], depth) <= PlainAll(ir, rs, depth)
  {
    forall o | o in Plain(ir, rs[n], depth)
      ensures o in PlainAll(ir, rs, depth)
    {
      assert rs[n] in rs;
      PlainAllMember(ir, rs, depth, o);
    }
  }

  lemma SingleMeans(found: set<Origin>, origin: Option<Origin>, o: Origin)
    requires if origin.Some? then found == {origin.value} else |found| != 1
    ensures origin == Some(o) <==> found == {o}
  {
    if origin.Some? && found == {o} {
      assert origin.value in {o};
    }
  }

  lemma OnlyMember(s: set<Origin>, o: Origin)
    requires |s| == 1 && o in s
    ensures s == {o}
  {
    assert |s - {o}| == 0;
  }
}
