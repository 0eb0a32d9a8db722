/** Where the fusing passes (dis86/src/decompile/fuse.rs) find something to fuse, and that fusing makes no new such place. */
module FuseSites {
  import opened BlockIr
  import opened Fuse

  // ------------------------------------------------------------------------
  // Pass 1.

  /** Two neighbouring 16-bit writes to the halves of one 32-bit value. */
  ghost predicate WriteSite(b: Block, fits: (SymRef, SymRef) -> bool, q: nat, p: nat)
    requires WellFormed(b) && q < p < |b.order|
  {
    var i2, i1 := b.instrs[b.order[q]], b.instrs[b.order[p]];
    && NopsBetween(b, q, p) && IsWrite16(i1) && IsWrite16(i2)
    && var s1, s2 := i1.operands[0].s, i2.operands[0].s;
    s1.sym == s2.sym && fits(s1, s2) && s1.sz == 2 && s2.sz == 2 && (s1.off + 2 == s2.off || s2.off + 2 == s1.off)
  }

  /** No such pair ends before position `n`. */
  ghost predicate WritesDone(b: Block, fits: (SymRef, SymRef) -> bool, n: nat)
    requires WellFormed(b)
  {
    forall q, p :: 0 <= q < p < |b.order| && WriteSite(b, fits, q, p) ==> n <= p
  }

  /** A pair up to the fused one was there before. */
  lemma WriteSiteWasThere(b: Block, b': Block, fits: (SymRef, SymRef) -> bool, q: nat, p: nat, low: Ref, high: Ref, s: SymRef, j: nat, k: nat)
    requires WellFormed(b) && q < p < |b.order| && WritesHalves(b, q, p, low, high, s)
    requires b' == WritePair(b, b.order[q], b.order[p], low, high, s) && WellFormed(b')
    requires j < k < |b.order| && WriteSite(b', fits, j, k)
    ensures k != p && (k < p ==> WriteSite(b, fits, j, k))
  {
    if k < p {
      forall i | j < i < k
        ensures b.instrs[b.order[i]].op.Nop?
      {
        assert b'.instrs[b'.order[i]].op.Nop?;
      }
    }
  }

  lemma WritePairSites(b: Block, fits: (SymRef, SymRef) -> bool, q: nat, p: nat, low: Ref, high: Ref, s: SymRef)
    requires WellFormed(b) && q < p < |b.order| && WritesHalves(b, q, p, low, high, s)
    requires WellFormed(WritePair(b, b.order[q], b.order[p], low, high, s)) && WritesDone(b, fits, p)
    ensures WritesDone(WritePair(b, b.order[q], b.order[p], low, high, s), fits, p + 1)
  {
    var b' := WritePair(b, b.order[q], b.order[p], low, high, s);
    forall j, k | 0 <= j < k < |b'.order| && WriteSite(b', fits, j, k)
      ensures p + 1 <= k
    {
      WriteSiteWasThere(b, b', fits, q, p, low, high, s, j, k);
    }
  }

  lemma FuseWrites(b0: Block, b: Block, b': Block, fits: (SymRef, SymRef) -> bool, q: nat, p: nat, low: Ref, high: Ref, s: SymRef)
    requires Preserves(b0, b) && WritesDone(b, fits, p) && q < p < |b.order| && WritesHalves(b, q, p, low, high, s)
    requires b' == WritePair(b, b.order[q], b.order[p], low, high, s)
    ensures Preserves(b0, b') && WritesDone(b', fits, p + 1) && |b'.order| == |b.order|
  {
    WritePairPreserves(b, q, p, low, high, s);
    PreservesTrans(b0, b, b');
    WritePairSites(b, fits, q, p, low, high, s);
  }

  /** What is no pair needs no fusing. */
  lemma WritePassed(b: Block, fits: (SymRef, SymRef) -> bool, p: nat)
    requires WellFormed(b) && p < |b.order| && WritesDone(b, fits, p) && forall q :: 0 <= q < p ==> !WriteSite(b, fits, q, p)
    ensures WritesDone(b, fits, p + 1)
  {
  }

  // ------------------------------------------------------------------------
  // Pass 2.

  /** Two neighbouring 16-bit reads of a 32-bit symbol, low half first. */
  ghost predicate ReadSite(b: Block, size: nat -> int, q: nat, p: nat)
    requires WellFormed(b) && q < p < |b.order|
  {
    var l, h := b.instrs[b.order[q]], b.instrs[b.order[p]];
    && NopsBetween(b, q, p) && IsRead16(l) && IsRead16(h)
    && var sl, sh := l.operands[0].s, h.operands[0].s;
    sl.sym == sh.sym && sl.off == 0 && sh.off == 2 && sl.sz == 2 && sh.sz == 2 && size(sh.sym) == 4
  }

  /** Such pairs are left only at the instructions `left`. */
  ghost predicate ReadsDone(b: Block, size: nat -> int, left: set<Id>)
    requires WellFormed(b)
  {
    forall q, p :: 0 <= q < p < |b.order| && ReadSite(b, size, q, p) ==> b.order[p] in left
  }

  function Before(q: nat, k: nat): nat
    requires k != q
  {
    if k < q then k else k - 1
  }

  /** What lies between two positions after the fusing lay there before. */
  lemma NopsWereThere(b: Block, b': Block, q: nat, p: nat, s: SymRef, j: nat, k: nat)
    requires WellFormed(b) && q < p < |b.order| && ReadsHalves(b, q, p, s)
    requires b' == ReadPair(b, q, b.order[q], b.order[p], s) && WellFormed(b')
    requires j < k < |b'.order| && j != q && k != q && NopsBetween(b', j, k)
    ensures Before(q, j) < Before(q, k) && NopsBetween(b, Before(q, j), Before(q, k))
  {
    forall i | Before(q, j) < i < Before(q, k)
      ensures b.instrs[b.order[i]].op.Nop?
    {
      ReadPairAt(b, q, p, s, i);
      var i' := if i < q then i else i + 1;
      assert j < i' < k && b'.instrs[b'.order[i']].op.Nop?;
    }
  }

  lemma ReadSiteWasThere(b: Block, b': Block, size: nat -> int, q: nat, p: nat, s: SymRef, j: nat, k: nat)
    requires WellFormed(b) && q < p < |b.order| && ReadsHalves(b, q, p, s)
    requires b' == ReadPair(b, q, b.order[q], b.order[p], s) && WellFormed(b')
    requires j < k < |b'.order| && ReadSite(b', size, j, k)
    ensures j != q && k != q && Before(q, j) < Before(q, k) && Before(q, k) != p
    ensures ReadSite(b, size, Before(q, j), Before(q, k)) && b'.order[k] == b.order[Before(q, k)]
  {
    assert b'.order[q] == |b.instrs|;
    ReadPairAt(b, q, p, s, Before(q, j));
    ReadPairAt(b, q, p, s, Before(q, k));
    NopsWereThere(b, b', q, p, s, j, k);
  }

  lemma ReadPairSites(b: Block, size: nat -> int, q: nat, p: nat, s: SymRef, left: set<Id>)
    requires WellFormed(b) && q < p < |b.order| && ReadsHalves(b, q, p, s)
    requires WellFormed(ReadPair(b, q, b.order[q], b.order[p], s)) && ReadsDone(b, size, left + {b.order[p]})
    ensures ReadsDone(ReadPair(b, q, b.order[q], b.order[p], s), size, left)
  {
    var b' := ReadPair(b, q, b.order[q], b.order[p], s);
    forall j, k | 0 <= j < k < |b'.order| && ReadSite(b', size, j, k)
      ensures b'.order[k] in left
    {
      ReadSiteWasThere(b, b', size, q, p, s, j, k);
    }
  }

  lemma ReadPassed(b: Block, size: nat -> int, p: nat, left: set<Id>)
    requires WellFormed(b) && p < |b.order| && ReadsDone(b, size, left + {b.order[p]})
    requires forall q :: 0 <= q < p ==> !ReadSite(b, size, q, p)
    ensures ReadsDone(b, size, left)
  {
  }

  lemma StillThere(b: Block, q: nat, p: nat, s: SymRef, refs: seq<Id>)
    requires WellFormed(b) && q < p < |b.order| && ReadsHalves(b, q, p, s)
    requires forall k :: 0 <= k < |refs| ==> refs[k] in b.order
    ensures forall k :: 0 <= k < |refs| ==> refs[k] in ReadPair(b, q, b.order[q], b.order[p], s).order
  {
    var b' := ReadPair(b, q, b.order[q], b.order[p], s);
    forall k | 0 <= k < |refs|
      ensures refs[k] in b'.order
    {
      var j :| 0 <= j < |b.order| && b.order[j] == refs[k];
      ReadPairAt(b, q, p, s, j);
    }
  }

  lemma FuseReads(b0: Block, b: Block, b': Block, size: nat -> int, q: nat, p: nat, s: SymRef, left: set<Id>, refs: seq<Id>)
    requires Preserves(b0, b) && q < p < |b.order| && ReadsHalves(b, q, p, s) && ReadsDone(b, size, left + {b.order[p]})
    requires b' == ReadPair(b, q, b.order[q], b.order[p], s) && forall k :: 0 <= k < |refs| ==> refs[k] in b.order
    ensures Preserves(b0, b') && ReadsDone(b', size, left) && forall k :: 0 <= k < |refs| ==> refs[k] in b'.order
  {
    ReadPairPreserves(b, q, p, s);
    PreservesTrans(b0, b, b');
    StillThere(b, q, p, s, refs);
    ReadPairSites(b, size, q, p, s, left);
  }

  // ------------------------------------------------------------------------
  // Pass 3.

  /** A join of two loads that the pass accepts. */
  ghost predicate LoadSite(b: Block, qh: nat, ql: nat, p: nat)
    requires WellFormed(b) && qh < p && ql < p && p < |b.order|
  {
    LoadPairAt(b, qh, ql, p) && Scanned(b, qh, ql, p)
  }

  /** No such join stands before position `n`. */
  ghost predicate LoadsDone(b: Block, n: nat)
    requires WellFormed(b)
  {
    forall qh, ql, p :: 0 <= qh < p && 0 <= ql < p && p < |b.order| && LoadSite(b, qh, ql, p) ==> n <= p
  }

  lemma LoadSiteWasThere(b: Block, b': Block, qh: nat, ql: nat, p: nat, h: nat, l: nat, k: nat)
    requires WellFormed(b) && qh < p && ql < p && p < |b.order| && LoadPairAt(b, qh, ql, p)
    requires b' == LoadPair(b, b.order[p], b.instrs[b.order[ql]]) && WellFormed(b')
    requires h < k && l < k && k < |b.order| && LoadSite(b', h, l, k)
    ensures k != p && (k < p ==> LoadSite(b, h, l, k))
  {
    assert forall i :: 0 <= i < p ==> b'.instrs[b'.order[i]] == b.instrs[b.order[i]];
  }

  lemma LoadPairSites(b: Block, qh: nat, ql: nat, p: nat)
    requires WellFormed(b) && qh < p && ql < p && p < |b.order| && LoadPairAt(b, qh, ql, p)
    requires WellFormed(LoadPair(b, b.order[p], b.instrs[b.order[ql]])) && LoadsDone(b, p)
    ensures LoadsDone(LoadPair(b, b.order[p], b.instrs[b.order[ql]]), p + 1)
  {
    var b' := LoadPair(b, b.order[p], b.instrs[b.order[ql]]);
    forall h, l, k | 0 <= h < k && 0 <= l < k && k < |b'.order| && LoadSite(b', h, l, k)
      ensures p + 1 <= k
    {
      LoadSiteWasThere(b, b', qh, ql, p, h, l, k);
    }
  }

  // ------------------------------------------------------------------------
  // What is fused, and what is not left, said of the instructions themselves.

  ghost predicate Stands(b: Block, p: nat, i: Instr) {
    p < |b.order| && b.order[p] < |b.instrs| && b.instrs[b.order[p]] == i
  }

  ghost predicate OnlyNops(b: Block, q: nat, p: nat) {
    forall k: nat {:trigger b.order[k]} :: q < k < p && k < |b.order| && b.order[k] < |b.instrs| ==> b.instrs[b.order[k]].op == Nop
  }

  /** Two neighbouring writes, in either order, to the lower and the upper two bytes of one 32-bit value. */
  ghost predicate SplitWrites(b: Block, fits: (SymRef, SymRef) -> bool, q: nat, p: nat) {
    exists s, t, u, v ::
      && q < p && Stands(b, q, Instr(WriteVar16, [Sym(s), u])) && Stands(b, p, Instr(WriteVar16, [Sym(t), v])) && OnlyNops(b, q, p)
      && s.sz == 2 && t.sz == 2 && s.sym == t.sym && fits(t, s) && (t.off == s.off + 2 || s.off == t.off + 2)
  }

  lemma SplitWritesIff(b: Block, fits: (SymRef, SymRef) -> bool, q: nat, p: nat)
    requires WellFormed(b) && q < p < |b.order|
    ensures SplitWrites(b, fits, q, p) <==> WriteSite(b, fits, q, p)
  {
    if WriteSite(b, fits, q, p) {
      var i, j := b.instrs[b.order[q]], b.instrs[b.order[p]];
      assert i == Instr(WriteVar16, [Sym(i.operands[0].s), i.operands[1]]) && j == Instr(WriteVar16, [Sym(j.operands[0].s), j.operands[1]]);
    }
  }

  /** Two neighbouring reads of a 32-bit symbol, the low two bytes first. */
  ghost predicate SplitReads(b: Block, size: nat -> int, q: nat, p: nat) {
    exists sym ::
      && q < p && Stands(b, q, Instr(ReadVar16, [Sym(SymRef(sym, 0, 2))])) && Stands(b, p, Instr(ReadVar16, [Sym(SymRef(sym, 2, 2))]))
      && OnlyNops(b, q, p) && size(sym) == 4
  }

  lemma SplitReadsIff(b: Block, size: nat -> int, q: nat, p: nat)
    requires WellFormed(b) && q < p < |b.order|
    ensures SplitReads(b, size, q, p) <==> ReadSite(b, size, q, p)
  {
    if ReadSite(b, size, q, p) {
      var i, j := b.instrs[b.order[q]], b.instrs[b.order[p]];
      var sym := i.operands[0].s.sym;
      assert i == Instr(ReadVar16, [Sym(SymRef(sym, 0, 2))]) && j == Instr(ReadVar16, [Sym(SymRef(sym, 2, 2))]);
    }
  }

  /** `r` is the result of adding `k` to `x`, in this block or before it. */
  ghost predicate IsSum(b: Block, r: Ref, x: Ref, k: int) {
    || (r.Def? && r.id < |b.instrs| && b.instrs[r.id] == Instr(Add, [x, Const(k)]))
    || (r.Outer? && r.n < |b.outer| && b.outer[r.n] == Instr(Add, [x, Const(k)]))
  }

  /** `h` is two more than `l`: by adding two to it, or both add to the same. */
  ghost predicate TwoAbove(b: Block, h: Ref, l: Ref) {
    || (IsSum(b, h, l, 2) && ((l.Def? && l.id < |b.instrs|) || (l.Outer? && l.n < |b.outer|)))
    || (exists x, k :: x != l && IsSum(b, h, x, k + 2) && IsSum(b, l, x, k))
  }

  /** Nothing that accesses memory, calls and the like apart, stands after position `q` and before `p`, but for the two loads. */
  ghost predicate Unseen(b: Block, q: nat, p: nat, qh: nat, ql: nat) {
    forall k: nat {:trigger b.order[k]} :: q < k < p && k != qh && k != ql && k < |b.order| && b.order[k] < |b.instrs| ==>
      var op := b.instrs[b.order[k]].op;
      op != Load16 && op != Load32 && op != ReadVar16 && op != ReadVar32 && op != WriteVar16 && op != WriteVar32 && !op.Access?
  }

  /** At `p` two loads of neighbouring words are joined, and no access stands between the one with the smaller number
      and the join. */
  ghost predicate SplitLoads(b: Block, qh: nat, ql: nat, p: nat) {
    && qh < p && ql < p && p < |b.order| && Stands(b, p, Instr(Make32, [Def(b.order[qh]), Def(b.order[ql])]))
    && Unseen(b, if b.order[qh] < b.order[ql] then qh else ql, p, qh, ql)
    && exists seg, h, l :: Stands(b, qh, Instr(Load16, [seg, h])) && Stands(b, ql, Instr(Load16, [seg, l])) && TwoAbove(b, h, l)
  }

  lemma TwoAboveIff(b: Block, high: Instr, low: Instr, h: Ref, l: Ref)
    requires high.op.Load16? && low.op.Load16? && |high.operands| == |low.operands| == 2
    requires high.operands[0] == low.operands[0] && high.operands[1] == h && low.operands[1] == l
    ensures TwoAbove(b, h, l) <==> TwoApart(b, high, low)
  {
    if TwoApart(b, high, low) {
      var ho, lo := Source(b, h).value, Source(b, l).value;
      if ho.operands[0] == l && ho.operands[1].Const? {
        assert ho == Instr(Add, [l, Const(2)]);
      } else {
        var x, k := ho.operands[0], lo.operands[1].k;
        assert ho == Instr(Add, [x, Const(k + 2)]) && lo == Instr(Add, [x, Const(k)]);
        assert x != l && IsSum(b, h, x, k + 2) && IsSum(b, l, x, k);
      }
    }
  }

  ghost predicate TwoLoads(high: Instr, low: Instr) {
    high.op.Load16? && low.op.Load16? && |high.operands| == |low.operands| == 2 && high.operands[0] == low.operands[0]
  }

  lemma TwoLoadsIff(b: Block, qh: nat, ql: nat)
    requires WellFormed(b) && qh < |b.order| && ql < |b.order|
    ensures (exists seg, h, l :: Stands(b, qh, Instr(Load16, [seg, h])) && Stands(b, ql, Instr(Load16, [seg, l])) && TwoAbove(b, h, l))
            <==> TwoApart(b, b.instrs[b.order[qh]], b.instrs[b.order[ql]])
  {
    var high, low := b.instrs[b.order[qh]], b.instrs[b.order[ql]];
    if TwoLoads(high, low) {
      TwoAboveIff(b, high, low, high.operands[1], low.operands[1]);
      assert high == Instr(Load16, [high.operands[0], high.operands[1]]) && low == Instr(Load16, [high.operands[0], low.operands[1]]);
    }
  }

  lemma SplitLoadsIff(b: Block, qh: nat, ql: nat, p: nat)
    requires WellFormed(b) && qh < p && ql < p && p < |b.order|
    ensures SplitLoads(b, qh, ql, p) <==> LoadSite(b, qh, ql, p)
  {
    UnseenIff(b, qh, ql, p);
    TwoLoadsIff(b, qh, ql);
  }

  lemma UnseenIff(b: Block, qh: nat, ql: nat, p: nat)
    requires WellFormed(b) && qh < p && ql < p && p < |b.order|
    ensures Unseen(b, if b.order[qh] < b.order[ql] then qh else ql, p, qh, ql) <==> Scanned(b, qh, ql, p)
  {
  }

  ghost predicate NoSplitWrites(b: Block, fits: (SymRef, SymRef) -> bool) {
    forall q: nat, p: nat :: !SplitWrites(b, fits, q, p)
  }

  ghost predicate NoSplitReads(b: Block, size: nat -> int) {
    forall q: nat, p: nat :: !SplitReads(b, size, q, p)
  }

  ghost predicate NoSplitLoads(b: Block) {
    forall qh: nat, ql: nat, p: nat :: !SplitLoads(b, qh, ql, p)
  }

  lemma NoWritesLeft(b: Block, fits: (SymRef, SymRef) -> bool)
    requires WellFormed(b) && WritesDone(b, fits, |b.order|)
    ensures NoSplitWrites(b, fits)
  {
    forall q: nat, p: nat
      ensures !SplitWrites(b, fits, q, p)
    {
      if q < p < |b.order| {
        SplitWritesIff(b, fits, q, p);
      }
    }
  }

  lemma NoReadsLeft(b: Block, size: nat -> int)
    requires WellFormed(b) && ReadsDone(b, size, {})
    ensures NoSplitReads(b, size)
  {
    forall q: nat, p: nat
      ensures !SplitReads(b, size, q, p)
    {
      if q < p < |b.order| {
        SplitReadsIff(b, size, q, p);
      }
    }
  }

  lemma NoLoadsLeft(b: Block)
    requires WellFormed(b) && LoadsDone(b, |b.order|)
    ensures NoSplitLoads(b)
  {
    forall qh: nat, ql: nat, p: nat
      ensures !SplitLoads(b, qh, ql, p)
    {
      if qh < p && ql < p && p < |b.order| {
        SplitLoadsIff(b, qh, ql, p);
      }
    }
  }

  // ------------------------------------------------------------------------
  // Nothing else is fused.

  /** If it accesses a variable of 32 bits, it says that these are four bytes. */
  ghost predicate FourBytes(i: Instr) {
    i.op == WriteVar32 || i.op == ReadVar32 ==> i.operands != [] && i.operands[0].Sym? && i.operands[0].s.sz == 4
  }

  /** Only instructions of pairs that were there to fuse have changed. */
  ghost predicate OnlySplitWritesFused(b: Block, b': Block, fits: (SymRef, SymRef) -> bool) {
    && b'.order == b.order && b'.outer == b.outer && |b'.instrs| == |b.instrs|
    && forall x: Id :: x < |b.instrs| && b'.instrs[x] != b.instrs[x] ==>
         FourBytes(b'.instrs[x]) && exists q: nat, p: nat :: q < p < |b.order| && SplitWrites(b, fits, q, p) && x in {b.order[q], b.order[p]}
  }

  /** Only instructions of pairs that were there to fuse have changed; new ones only read. */
  ghost predicate OnlySplitReadsFused(b: Block, b': Block, size: nat -> int) {
    && b'.outer == b.outer && |b'.instrs| >= |b.instrs|
    && (forall x: Id :: |b.instrs| <= x < |b'.instrs| ==> b'.instrs[x].op == ReadVar32 && FourBytes(b'.instrs[x]))
    && forall x: Id :: x < |b.instrs| && b'.instrs[x] != b.instrs[x] ==>
         FourBytes(b'.instrs[x]) && exists q: nat, p: nat :: q < p < |b.order| && SplitReads(b, size, q, p) && x in {b.order[q], b.order[p]}
  }

  /** Only joins that were there to fuse have changed, into a load of what the low load read. */
  ghost predicate OnlySplitLoadsFused(b: Block, b': Block) {
    && b'.order == b.order && b'.outer == b.outer && |b'.instrs| == |b.instrs|
    && forall p: nat {:trigger b.order[p]} :: p < |b.order| && b.order[p] < |b.instrs| && b'.instrs[b.order[p]] != b.instrs[b.order[p]] ==>
         exists qh: nat, ql: nat :: SplitLoads(b, qh, ql, p) && b'.instrs[b.order[p]].op == Load32
  }

  /** Every pair of writes there is now was there at first. */
  ghost predicate WriteSitesWereThere(b0: Block, b: Block, fits: (SymRef, SymRef) -> bool)
    requires WellFormed(b0) && WellFormed(b)
  {
    b.order == b0.order && forall q, p :: 0 <= q < p < |b.order| && WriteSite(b, fits, q, p) ==> WriteSite(b0, fits, q, p)
  }

  /** What the pass has done so far. */
  ghost predicate WritesFused(b0: Block, b: Block, fits: (SymRef, SymRef) -> bool) {
    Preserves(b0, b) && OnlySplitWritesFused(b0, b, fits) && WriteSitesWereThere(b0, b, fits)
  }

  lemma WritesFusedMore(b0: Block, b: Block, b': Block, fits: (SymRef, SymRef) -> bool, q: nat, p: nat, low: Ref, high: Ref, s: SymRef)
    requires WritesFused(b0, b, fits) && WritesDone(b, fits, p) && q < p < |b.order| && WritesHalves(b, q, p, low, high, s)
    requires WriteSite(b, fits, q, p) && b' == WritePair(b, b.order[q], b.order[p], low, high, s) && s.sz == 4
    ensures WritesFused(b0, b', fits) && WritesDone(b', fits, p + 1)
  {
    FuseWrites(b0, b, b', fits, q, p, low, high, s);
    OneMoreWriteFused(b0, b, b', fits, q, p, low, high, s);
  }

  lemma OneMoreWriteFused(b0: Block, b: Block, b': Block, fits: (SymRef, SymRef) -> bool, q: nat, p: nat, low: Ref, high: Ref, s: SymRef)
    requires WellFormed(b0) && WellFormed(b) && WellFormed(b') && q < p < |b.order| && WriteSite(b, fits, q, p)
    requires OnlySplitWritesFused(b0, b, fits) && WriteSitesWereThere(b0, b, fits) && s.sz == 4
    requires b' == WritePair(b, b.order[q], b.order[p], low, high, s)
    ensures OnlySplitWritesFused(b0, b', fits) && WriteSitesWereThere(b0, b', fits)
  {
    SplitWritesIff(b0, fits, q, p);
    forall x: Id | x < |b0.instrs| && b'.instrs[x] != b0.instrs[x]
      ensures FourBytes(b'.instrs[x]) && exists j: nat, k: nat :: j < k < |b0.order| && SplitWrites(b0, fits, j, k) && x in {b0.order[j], b0.order[k]}
    {
      if x in {b.order[q], b.order[p]} {
        assert SplitWrites(b0, fits, q, p);
      }
    }
    forall j, k | 0 <= j < k < |b'.order| && WriteSite(b', fits, j, k)
      ensures WriteSite(b0, fits, j, k)
    {
      WriteSiteWasHere(b, b', fits, q, p, low, high, s, j, k);
    }
  }

  lemma WriteSiteWasHere(b: Block, b': Block, fits: (SymRef, SymRef) -> bool, q: nat, p: nat, low: Ref, high: Ref, s: SymRef, j: nat, k: nat)
    requires WellFormed(b) && WellFormed(b') && q < p < |b.order| && j < k < |b'.order|
    requires b' == WritePair(b, b.order[q], b.order[p], low, high, s) && WriteSite(b', fits, j, k)
    ensures WriteSite(b, fits, j, k)
  {
    forall i | j < i < k
      ensures b.instrs[b.order[i]].op.Nop?
    {
      assert b'.instrs[b'.order[i]].op.Nop?;
    }
  }

  /** Every pair of reads there is now was there at first. */
  ghost predicate ReadSitesWereThere(b0: Block, b: Block, size: nat -> int)
    requires WellFormed(b0) && WellFormed(b)
  {
    forall q: nat, p: nat :: q < p < |b.order| && ReadSite(b, size, q, p) ==> ReadSiteAt(b0, size, b.order[q], b.order[p])
  }

  ghost predicate ReadSiteAt(b: Block, size: nat -> int, low: Id, high: Id)
    requires WellFormed(b)
  {
    exists q: nat, p: nat :: q < p < |b.order| && ReadSite(b, size, q, p) && b.order[q] == low && b.order[p] == high
  }

  /** What the pass has done so far. */
  ghost predicate ReadsFused(b0: Block, b: Block, size: nat -> int, refs: seq<Id>) {
    && Preserves(b0, b) && OnlySplitReadsFused(b0, b, size) && ReadSitesWereThere(b0, b, size)
    && forall k :: 0 <= k < |refs| ==> refs[k] in b.order
  }

  lemma ReadsFusedMore(b0: Block, b: Block, b': Block, size: nat -> int, q: nat, p: nat, s: SymRef, left: set<Id>, refs: seq<Id>)
    requires ReadsFused(b0, b, size, refs) && q < p < |b.order| && ReadsHalves(b, q, p, s) && ReadSite(b, size, q, p)
    requires ReadsDone(b, size, left + {b.order[p]}) && b' == ReadPair(b, q, b.order[q], b.order[p], s) && s.sz == 4
    ensures ReadsFused(b0, b', size, refs) && ReadsDone(b', size, left)
  {
    FuseReads(b0, b, b', size, q, p, s, left, refs);
    OneMoreReadFused(b0, b, b', size, q, p, s);
    OneMoreReadSite(b0, b, b', size, q, p, s);
  }

  lemma ReadPairChanges(b: Block, b': Block, q: nat, low: Id, high: Id, s: SymRef)
    requires q <= |b.order| && low < |b.instrs| && high < |b.instrs| && b' == ReadPair(b, q, low, high, s)
    ensures b'.outer == b.outer && |b'.instrs| == |b.instrs| + 1
    ensures b'.instrs[|b.instrs|] == Instr(ReadVar32, [Sym(s)])
    ensures b'.instrs[low].op in {Lower16, Upper16} && b'.instrs[high].op == Upper16
    ensures forall x: Id :: x < |b.instrs| && x !in {low, high} ==> b'.instrs[x] == b.instrs[x]
  {
  }

  lemma OneMoreReadFused(b0: Block, b: Block, b': Block, size: nat -> int, q: nat, p: nat, s: SymRef)
    requires WellFormed(b0) && WellFormed(b) && q < p < |b.order| && ReadSite(b, size, q, p)
    requires OnlySplitReadsFused(b0, b, size) && ReadSitesWereThere(b0, b, size) && s.sz == 4
    requires b' == ReadPair(b, q, b.order[q], b.order[p], s)
    ensures OnlySplitReadsFused(b0, b', size)
  {
    assert ReadSiteAt(b0, size, b.order[q], b.order[p]);
    var j: nat, k: nat :| j < k < |b0.order| && ReadSite(b0, size, j, k) && b0.order[j] == b.order[q] && b0.order[k] == b.order[p];
    SplitReadsIff(b0, size, j, k);
    ReadPairChanges(b, b', q, b.order[q], b.order[p], s);
    ChangedMore(b0, b, b', size, j, k);
  }

  lemma ChangedMore(b0: Block, b: Block, b': Block, size: nat -> int, j: nat, k: nat)
    requires OnlySplitReadsFused(b0, b, size) && j < k < |b0.order| && SplitReads(b0, size, j, k)
    requires b'.outer == b.outer && |b'.instrs| == |b.instrs| + 1 && b'.instrs[|b.instrs|].op == ReadVar32 && FourBytes(b'.instrs[|b.instrs|])
    requires b0.order[j] < |b.instrs| && b0.order[k] < |b.instrs|
    requires !b'.instrs[b0.order[j]].op.ReadVar32? && !b'.instrs[b0.order[j]].op.WriteVar32?
    requires !b'.instrs[b0.order[k]].op.ReadVar32? && !b'.instrs[b0.order[k]].op.WriteVar32?
    requires b0.order[j] < |b0.instrs| && b0.order[k] < |b0.instrs|
    requires forall x: Id :: x < |b.instrs| && x !in {b0.order[j], b0.order[k]} ==> b'.instrs[x] == b.instrs[x]
    ensures OnlySplitReadsFused(b0, b', size)
  {
  }

  lemma OneMoreReadSite(b0: Block, b: Block, b': Block, size: nat -> int, q: nat, p: nat, s: SymRef)
    requires WellFormed(b0) && WellFormed(b) && WellFormed(b') && q < p < |b.order| && ReadsHalves(b, q, p, s)
    requires ReadSitesWereThere(b0, b, size) && b' == ReadPair(b, q, b.order[q], b.order[p], s)
    ensures ReadSitesWereThere(b0, b', size)
  {
    forall i: nat, n: nat | i < n < |b'.order| && ReadSite(b', size, i, n)
      ensures ReadSiteAt(b0, size, b'.order[i], b'.order[n])
    {
      ReadSiteWasThere(b, b', size, q, p, s, i, n);
      ReadPairAt(b, q, p, s, Before(q, i));
    }
  }

  lemma LoadsFusedMeans(b: Block, b': Block)
    requires LoadsFused(b, b')
    ensures OnlySplitLoadsFused(b, b')
  {
    forall p: nat | p < |b.order| && b'.instrs[b.order[p]] != b.instrs[b.order[p]]
      ensures exists qh: nat, ql: nat :: SplitLoads(b, qh, ql, p) && b'.instrs[b.order[p]].op == Load32
    {
      assert SomeFusedAt(b, b', p);
      var qh, ql :| 0 <= qh < p && 0 <= ql < p && FusedAt(b, b', qh, ql, p);
      SplitLoadsIff(b, qh, ql, p);
    }
  }
}
