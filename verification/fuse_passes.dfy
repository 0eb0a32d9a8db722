/** The three fusing passes over a block (dis86/src/decompile/fuse.rs). */
module FusePasses {
  import opened Wrappers
  import opened BlockIr
  import opened Fuse
  import opened FuseSites

  /** The closest earlier instruction that is not skipped. */
  method InstrPrev(b: Block, p: nat) returns (q: Option<nat>)
    requires WellFormed(b) && p < |b.order|
    ensures q.Some? ==> q.value < p && !b.instrs[b.order[q.value]].op.Nop? && NopsBetween(b, q.value, p)
    ensures q.None? ==> forall k :: 0 <= k < p ==> b.instrs[b.order[k]].op.Nop?
    ensures forall k :: 0 <= k < p && NopsBetween(b, k, p) && !b.instrs[b.order[k]].op.Nop? ==> q == Some(k)
  {
    var k: int := p - 1;
    while k >= 0 && b.instrs[b.order[k]].op.Nop?
      invariant -1 <= k < p
      invariant forall j :: k < j < p ==> b.instrs[b.order[j]].op.Nop?
    {
      k := k - 1;
    }
    q := if k >= 0 then Some(k) else None;
  }

  /** Where an instruction stands. */
  method PositionOf(order: seq<Id>, r: Id) returns (p: nat)
    requires r in order
    ensures p < |order| && order[p] == r
  {
    p := 0;
    while order[p] != r
      invariant p < |order| && r in order[p..]
      decreases |order| - p
    {
      p := p + 1;
    }
  }

  /** No memory operation other than the two loads from the one with the smaller number to `p`. */
  method Scan(b: Block, qh: nat, ql: nat, p: nat) returns (allowed: bool)
    requires WellFormed(b) && qh < p && ql < p && p < |b.order|
    ensures allowed <==> Scanned(b, qh, ql, p)
  {
    var start := if b.order[qh] < b.order[ql] then qh else ql;
    for k := start + 1 to p
      invariant forall j :: start < j < k && j != qh && j != ql ==> !b.instrs[b.order[j]].op.IsMemOp()
    {
      if k == qh || k == ql { continue; }
      if b.instrs[b.order[k]].op.IsMemOp() { return false; }
    }
    allowed := true;
  }

  /** The write next to the one at `p` when the two can be fused: where it is, the two halves, and the whole. */
  method FindWritePair(b: Block, fits: (SymRef, SymRef) -> bool, p: nat) returns (r: Option<(nat, Ref, Ref, SymRef)>)
    requires WellFormed(b) && p < |b.order|
    ensures r.Some? ==> r.value.0 < p && WritesHalves(b, r.value.0, p, r.value.1, r.value.2, r.value.3) && WriteSite(b, fits, r.value.0, p) && r.value.3.sz == 4
    ensures r.Some? <==> exists q :: 0 <= q < p && WriteSite(b, fits, q, p)
  {
    var i1 := b.instrs[b.order[p]];
    if !(i1.op.WriteVar16? && |i1.operands| == 2 && i1.operands[0].Sym?) { return None; }
    var prev := InstrPrev(b, p);
    if prev.None? { return None; }
    var i2 := b.instrs[b.order[prev.value]];
    if !(i2.op.WriteVar16? && |i2.operands| == 2 && i2.operands[0].Sym?) { return None; }
    var s1, s2 := i1.operands[0].s, i2.operands[0].s;
    if s1.sym != s2.sym || !fits(s1, s2) || s1.sz != 2 || s2.sz != 2 { return None; }
    if s1.off + 2 == s2.off {
      r := Some((prev.value, i1.operands[1], i2.operands[1], JoinAdjacent(s1, s2).value));
    } else if s2.off + 2 == s1.off {
      r := Some((prev.value, i2.operands[1], i1.operands[1], JoinAdjacent(s2, s1).value));
    } else {
      return None;
    }
    assert WriteSite(b, fits, prev.value, p);
  }

  /** The read of the low half next to the read of the high half at `p`, and the whole. */
  method FindReadPair(b: Block, size: nat -> int, p: nat) returns (r: Option<(nat, SymRef)>)
    requires WellFormed(b) && p < |b.order|
    ensures r.Some? ==> r.value.0 < p && ReadsHalves(b, r.value.0, p, r.value.1) && ReadSite(b, size, r.value.0, p) && r.value.1.sz == 4
    ensures r.Some? <==> exists q :: 0 <= q < p && ReadSite(b, size, q, p)
  {
    var ih := b.instrs[b.order[p]];
    if !(ih.op.ReadVar16? && |ih.operands| == 1 && ih.operands[0].Sym?) { return None; }
    var sh := ih.operands[0].s;
    if sh.off != 2 || sh.sz != 2 || size(sh.sym) != 4 { return None; }
    var prev := InstrPrev(b, p);
    if prev.None? { return None; }
    var il := b.instrs[b.order[prev.value]];
    if !(il.op.ReadVar16? && |il.operands| == 1 && il.operands[0].Sym?) { return None; }
    var sl := il.operands[0].s;
    if sl.off != 0 || sl.sz != 2 || sl.sym != sh.sym { return None; }
    assert ReadSite(b, size, prev.value, p);
    r := Some((prev.value, JoinAdjacent(sl, sh).value));
  }

  /** The positions of the two loads that the join at `p` is made of, when the pass accepts it. */
  method FindLoadPair(b: Block, p: nat) returns (r: Option<(nat, nat)>)
    requires WellFormed(b) && p < |b.order|
    ensures r.Some? ==> r.value.0 < p && r.value.1 < p && LoadSite(b, r.value.0, r.value.1, p)
    ensures r.None? ==> forall qh, ql :: 0 <= qh < p && 0 <= ql < p ==> !LoadSite(b, qh, ql, p)
  {
    var i := b.instrs[b.order[p]];
    if !(i.op.Make32? && |i.operands| == 2 && i.operands[0].Def? && i.operands[1].Def?) { return None; }
    var h, l := i.operands[0].id, i.operands[1].id;
    UsedEarlier(b, p, h);
    UsedEarlier(b, p, l);
    if !TwoApart(b, b.instrs[h], b.instrs[l]) { return None; }
    var qh := PositionOf(b.order, h);
    var ql := PositionOf(b.order, l);
    assert i == Instr(Make32, [Def(h), Def(l)]);
    var allowed := Scan(b, qh, ql, p);
    r := if allowed then Some((qh, ql)) else None;
  }

  ghost function StillToSee(refs: seq<Id>, n: nat): set<Id> {
    set k | n <= k < |refs| :: refs[k]
  }

  lemma ReadsStart(b: Block, size: nat -> int)
    requires WellFormed(b)
    ensures ReadsFused(b, b, size, b.order) && ReadsDone(b, size, StillToSee(b.order, 0))
  {
    PreservesSelf(b);
    forall q: nat, p: nat | q < p < |b.order| && ReadSite(b, size, q, p)
      ensures ReadSiteAt(b, size, b.order[q], b.order[p]) && b.order[p] in StillToSee(b.order, 0)
    {
    }
  }

  lemma ReadsEnd(b0: Block, b: Block, size: nat -> int, refs: seq<Id>)
    requires ReadsFused(b0, b, size, refs) && ReadsDone(b, size, StillToSee(refs, |refs|))
    ensures Preserves(b0, b) && OnlySplitReadsFused(b0, b, size) && NoSplitReads(b, size)
  {
    assert StillToSee(refs, |refs|) == {};
    NoReadsLeft(b, size);
  }

  /** The second pass at one instruction. */
  method FuseReadAt(ghost b0: Block, b: Block, size: nat -> int, refs: seq<Id>, n: nat) returns (b': Block)
    requires n < |refs| && ReadsFused(b0, b, size, refs) && ReadsDone(b, size, StillToSee(refs, n))
    ensures ReadsFused(b0, b', size, refs) && ReadsDone(b', size, StillToSee(refs, n + 1))
  {
    assert StillToSee(refs, n) == StillToSee(refs, n + 1) + {refs[n]};
    var p := PositionOf(b.order, refs[n]);
    var found := FindReadPair(b, size, p);
    if found.None? {
      ReadPassed(b, size, p, StillToSee(refs, n + 1));
      return b;
    }
    var (q, s) := found.value;
    b' := ReadPair(b, q, b.order[q], b.order[p], s);
    ReadsFusedMore(b0, b, b', size, q, p, s, StillToSee(refs, n + 1), refs);
  }

  class IrBlock {
    var b: Block

    /** `fits` is whether both symbols are halves of one annotated 32-bit value. */
    method FuseAdjacentWriteVars(fits: (SymRef, SymRef) -> bool)
      requires WellFormed(b)
      modifies this
      ensures Preserves(old(b), b)
      ensures OnlySplitWritesFused(old(b), b, fits) && NoSplitWrites(b, fits)
    {
      PreservesSelf(b);
      for p := 0 to |b.order|
        invariant WritesFused(old(b), b, fits) && WritesDone(b, fits, p)
      {
        var found := FindWritePair(b, fits, p);
        if found.None? {
          WritePassed(b, fits, p);
          continue;
        }
        var (q, low, high, s) := found.value;
        var fused := WritePair(b, b.order[q], b.order[p], low, high, s);
        WritesFusedMore(old(b), b, fused, fits, q, p, low, high, s);
        b := fused;
      }
      NoWritesLeft(b, fits);
    }

    /** `size` is the size of a symbol. */
    method FuseAdjacentReadVars(size: nat -> int)
      requires WellFormed(b)
      modifies this
      ensures Preserves(old(b), b)
      ensures OnlySplitReadsFused(old(b), b, size) && NoSplitReads(b, size)
    {
      var refs := b.order;
      ReadsStart(b, size);
      for n := 0 to |refs|
        invariant ReadsFused(old(b), b, size, refs) && ReadsDone(b, size, StillToSee(refs, n))
      {
        b := FuseReadAt(old(b), b, size, refs, n);
      }
      ReadsEnd(old(b), b, size, refs);
    }

    /** Right in exactly the worlds and memories in which, at every join that was replaced, the words still stood. */
    method FuseMake32Loads()
      requires WellFormed(b)
      modifies this
      ensures WellFormed(b) && OnlySplitLoadsFused(old(b), b) && NoSplitLoads(b)
      ensures forall w, m :: Honest(w, old(b)) ==> (SameOutcome(w, m, old(b), b) <==> RightBefore(w, m, old(b), b, |b.order|))
    {
      for p := 0 to |b.order|
        invariant LoadsFused(old(b), b)
        invariant LoadsDone(b, p)
      {
        var found := FindLoadPair(b, p);
        if found.None? { continue; }
        var (qh, ql) := found.value;
        FuseOneMore(old(b), b, qh, ql, p);
        LoadPairSites(b, qh, ql, p);
        b := LoadPair(b, b.order[p], b.instrs[b.order[ql]]);
      }
      NoLoadsLeft(b);
      LoadsFusedMeans(old(b), b);
      forall w, m | Honest(w, old(b))
        ensures SameOutcome(w, m, old(b), b) <==> RightBefore(w, m, old(b), b, |b.order|)
      {
        FusedRightIff(w, m, old(b), b);
      }
    }
  }
}
