/** Fusing pairs of 16-bit accesses into 32-bit ones (dis86/src/decompile/fuse.rs). */
module Fuse {
  import opened Wrappers
  import opened BlockIr

  // ------------------------------------------------------------------------
  // Runs of two blocks side by side.

  /** The same memory, and the same results but for those of `except`. */
  ghost predicate Agree(s: State, s': State, except: set<Id>) {
    s.mem == s'.mem && forall x :: x !in except ==> (x in s.env <==> x in s'.env) && (x in s.env ==> s.env[x] == s'.env[x])
  }

  ghost predicate Unused(i: Instr, except: set<Id>) {
    forall x :: x in except ==> Def(x) !in i.operands
  }

  lemma SameVal(w: World, s: State, s': State, except: set<Id>, i: Instr, n: nat)
    requires Agree(s, s', except) && Unused(i, except) && n < |i.operands|
    ensures Val(w, s.env, i.operands[n]) == Val(w, s'.env, i.operands[n])
  {
    assert i.operands[n] in i.operands;
  }

  lemma StepAgrees(w: World, s: State, s': State, except: set<Id>, id: Id, i: Instr)
    requires Agree(s, s', except) && Unused(i, except)
    ensures Agree(Step(w, s, id, i), Step(w, s', id, i), except)
  {
    forall n | 0 <= n < |i.operands|
      ensures Val(w, s.env, i.operands[n]) == Val(w, s'.env, i.operands[n])
    {
      SameVal(w, s, s', except, i, n);
    }
    assert Vals(w, s.env, i.operands) == Vals(w, s'.env, i.operands);
    assert Arg(w, s.env, i, 0) == Arg(w, s'.env, i, 0) && Arg(w, s.env, i, 1) == Arg(w, s'.env, i, 1);
  }

  /** Position `k` of `b` and `k + d` of `b'` hold the same instruction, which does not use `except`. */
  ghost predicate SameAt(b: Block, k: nat, b': Block, d: nat, except: set<Id>)
    requires WellFormed(b) && WellFormed(b') && k < |b.order| && k + d < |b'.order|
  {
    var id := b.order[k];
    b'.order[k + d] == id && id < |b.instrs| && id < |b'.instrs| && b.instrs[id] == b'.instrs[id] && Unused(b.instrs[id], except)
  }

  ghost predicate SameTail(b: Block, n: nat, b': Block, d: nat, except: set<Id>)
    requires WellFormed(b) && WellFormed(b')
  {
    n <= |b.order| && |b'.order| == |b.order| + d && forall k :: n <= k < |b.order| ==> SameAt(b, k, b', d, except)
  }

  lemma {:induction false} TailAgrees(w: World, m: Mem, b: Block, n: nat, b': Block, d: nat, except: set<Id>, k: nat)
    requires WellFormed(b) && WellFormed(b') && SameTail(b, n, b', d, except)
    requires Agree(Run(w, b, State(map[], m), n), Run(w, b', State(map[], m), n + d), except)
    requires n <= k <= |b.order|
    ensures Agree(Run(w, b, State(map[], m), k), Run(w, b', State(map[], m), k + d), except)
    decreases k
  {
    if k > n {
      TailAgrees(w, m, b, n, b', d, except, k - 1);
      assert SameAt(b, k - 1, b', d, except);
      StepAgrees(w, Run(w, b, State(map[], m), k - 1), Run(w, b', State(map[], m), k - 1 + d), except, b.order[k - 1], b.instrs[b.order[k - 1]]);
    }
  }

  /** Prefixes with the same instructions run the same. */
  lemma {:induction false} PrefixAgrees(w: World, m: Mem, b: Block, b': Block, n: nat)
    requires WellFormed(b) && WellFormed(b') && n <= |b.order| && n <= |b'.order|
    requires forall k :: 0 <= k < n ==> b.order[k] == b'.order[k] && b.order[k] < |b.instrs| && b.order[k] < |b'.instrs| && b.instrs[b.order[k]] == b'.instrs[b.order[k]]
    ensures Run(w, b, State(map[], m), n) == Run(w, b', State(map[], m), n)
  {
    if n > 0 {
      PrefixAgrees(w, m, b, b', n - 1);
    }
  }

  lemma {:induction false} RunDefines(w: World, b: Block, m: Mem, n: nat, p: nat)
    requires WellFormed(b) && p < n <= |b.order| && DefinesAt(b, p)
    ensures b.order[p] in Run(w, b, State(map[], m), n).env
  {
    if p < n - 1 {
      RunDefines(w, b, m, n - 1, p);
    }
  }

  /** Agreement at the end, on results that `b` has, is the same outcome. */
  lemma AgreeingEnds(w: World, m: Mem, b: Block, b': Block, except: set<Id>)
    requires WellFormed(b) && WellFormed(b') && Agree(Final(w, m, b), Final(w, m, b'), except)
    requires forall p :: 0 <= p < |b.order| && DefinesAt(b, p) ==> b.order[p] !in except
    ensures SameOutcome(w, m, b, b')
  {
    forall p | 0 <= p < |b.order| && DefinesAt(b, p)
      ensures SameResult(Final(w, m, b), Final(w, m, b'), b.order[p])
    {
      RunDefines(w, b, m, |b.order|, p);
    }
  }

  lemma PreservesTrans(b: Block, b1: Block, b2: Block)
    requires Preserves(b, b1) && Preserves(b1, b2)
    ensures Preserves(b, b2)
  {
    forall p | 0 <= p < |b.order| && DefinesAt(b, p)
      ensures exists q :: 0 <= q < |b2.order| && b2.order[q] == b.order[p] && DefinesAt(b2, q)
    {
      var q :| 0 <= q < |b1.order| && b1.order[q] == b.order[p] && DefinesAt(b1, q);
      var q2 :| 0 <= q2 < |b2.order| && b2.order[q2] == b1.order[q] && DefinesAt(b2, q2);
    }
    forall w, m
      ensures SameOutcome(w, m, b, b2)
    {
      assert SameOutcome(w, m, b, b1) && SameOutcome(w, m, b1, b2);
      forall p | 0 <= p < |b.order| && DefinesAt(b, p)
        ensures SameResult(Final(w, m, b), Final(w, m, b2), b.order[p])
      {
        var q :| 0 <= q < |b1.order| && b1.order[q] == b.order[p] && DefinesAt(b1, q);
        assert SameResult(Final(w, m, b), Final(w, m, b1), b.order[p]);
        assert SameResult(Final(w, m, b1), Final(w, m, b2), b1.order[q]);
      }
    }
  }

  lemma PreservesSelf(b: Block)
    requires WellFormed(b)
    ensures Preserves(b, b)
  {
    forall w, m
      ensures SameOutcome(w, m, b, b)
    {
      AgreeingEnds(w, m, b, b, {});
    }
  }

  // ------------------------------------------------------------------------
  // Halves of 32-bit values.

  lemma JoinHalves(h: int, l: int)
    ensures Low(Join(h, l)) == Low(l) && High(Join(h, l)) == Low(h)
    ensures 0 <= Join(h, l) < 0x1_0000_0000
  {
    var v := Join(h, l);
    assert v / 0x1_0000 == Low(h) && v % 0x1_0000 == Low(l);
  }

  lemma WordIsSmall(m: Mem, a: int)
    ensures 0 <= Rd16(m, a) < 0x1_0000
  {
  }

  lemma WordsAreHalves(h: int, l: int)
    requires 0 <= h < 0x1_0000 && 0 <= l < 0x1_0000
    ensures var v := l + 0x1_0000 * h;
      Low(v) == l && High(v) == h && v == Join(h, l)
  {
    LowOfWord(h);
    LowOfWord(l);
    JoinHalves(h, l);
  }

  lemma ReadHalves(m: Mem, a: int)
    ensures Low(Rd32(m, a)) == Rd16(m, a) && High(Rd32(m, a)) == Rd16(m, a + 2)
    ensures Rd32(m, a) == Join(Rd16(m, a + 2), Rd16(m, a))
  {
    WordIsSmall(m, a);
    WordIsSmall(m, a + 2);
    WordsAreHalves(Rd16(m, a + 2), Rd16(m, a));
  }

  lemma WriteHalves(m: Mem, a: int, h: int, l: int)
    ensures Wr32(m, a, Join(h, l)) == Wr16(Wr16(m, a, l), a + 2, h) == Wr16(Wr16(m, a + 2, h), a, l)
  {
    JoinHalves(h, l);
    assert Low(Low(l)) == Low(l) && Low(Low(h)) == Low(h);
  }

  // ------------------------------------------------------------------------
  // Walking a block.

  /** Nothing but skipped instructions strictly between two positions. */
  ghost predicate NopsBetween(b: Block, q: nat, p: nat)
    requires WellFormed(b) && p <= |b.order|
  {
    forall k :: q < k < p ==> b.instrs[b.order[k]].op.Nop?
  }

  /** The state between two neighbouring instructions does not change. */
  lemma {:induction false} NopsRun(w: World, b: Block, m: Mem, q: nat, n: nat, p: nat)
    requires WellFormed(b) && q < n <= p <= |b.order| && NopsBetween(b, q, p)
    ensures Run(w, b, State(map[], m), n) == Run(w, b, State(map[], m), q + 1)
  {
    if n > q + 1 {
      NopsRun(w, b, m, q, n - 1, p);
    }
  }

  function Replace(b: Block, id: Id, i: Instr): Block
    requires id < |b.instrs|
  {
    b.(instrs := b.instrs[id := i])
  }

  // ------------------------------------------------------------------------
  // Pass 1: two 16-bit writes to the halves of one variable.

  function JoinAdjacent(low: SymRef, high: SymRef): Option<SymRef> {
    if low.sym != high.sym || high.off != low.off + low.sz then None else Some(SymRef(low.sym, low.off, low.sz + high.sz))
  }

  ghost predicate IsWrite16(i: Instr) {
    i.op.WriteVar16? && |i.operands| == 2 && i.operands[0].Sym?
  }

  function WritePair(b: Block, r2: Id, r1: Id, low: Ref, high: Ref, s: SymRef): Block
    requires r1 < |b.instrs| && r2 < |b.instrs|
  {
    Replace(Replace(b, r2, Instr(Make32, [high, low])), r1, Instr(WriteVar32, [Sym(s), Def(r2)]))
  }

  /** Two writes, in either order, to `low` and the half above it. */
  ghost predicate WritesHalves(b: Block, q: nat, p: nat, low: Ref, high: Ref, s: SymRef)
    requires WellFormed(b) && q < p < |b.order|
  {
    var i2, i1 := b.instrs[b.order[q]], b.instrs[b.order[p]];
    NopsBetween(b, q, p) && IsWrite16(i1) && IsWrite16(i2) && HalvesOf(i2, i1, low, high, s)
  }

  ghost predicate HalvesOf(i2: Instr, i1: Instr, low: Ref, high: Ref, s: SymRef)
    requires IsWrite16(i1) && IsWrite16(i2)
  {
    && i1.operands[0].s.sym == i2.operands[0].s.sym == s.sym
    && ((i1.operands[0].s.off == s.off && i2.operands[0].s.off == s.off + 2 && low == i1.operands[1] && high == i2.operands[1])
        || (i2.operands[0].s.off == s.off && i1.operands[0].s.off == s.off + 2 && low == i2.operands[1] && high == i1.operands[1]))
  }

  /** A write has no result, so nothing uses it. */
  lemma NobodyUsesWrites(b: Block, q: nat, k: nat)
    requires WellFormed(b) && q < |b.order| && k < |b.order| && !b.instrs[b.order[q]].op.Defines()
    ensures Def(b.order[q]) !in b.instrs[b.order[k]].operands
  {
    assert UsesDefined(b, k);
  }

  lemma WritePairWellFormed(b: Block, q: nat, p: nat, low: Ref, high: Ref, s: SymRef)
    requires WellFormed(b) && q < p < |b.order| && WritesHalves(b, q, p, low, high, s)
    ensures WellFormed(WritePair(b, b.order[q], b.order[p], low, high, s))
  {
    var b' := WritePair(b, b.order[q], b.order[p], low, high, s);
    forall k | 0 <= k < |b'.order|
      ensures UsesDefined(b', k)
    {
      assert UsesDefined(b, k) && UsesDefined(b, q) && UsesDefined(b, p);
      forall x: Id | Def(x) in b'.instrs[b'.order[k]].operands
        ensures exists j :: 0 <= j < k && b'.order[j] == x && x < |b'.instrs| && b'.instrs[x].op.Defines()
      {
        if k == p {
          assert b'.order[q] == x;
        } else {
          var from := if k != q then k else if Def(x) in b.instrs[b.order[q]].operands then q else p;
          assert Def(x) in b.instrs[b.order[from]].operands;
          var j :| 0 <= j < from && b.order[j] == x && x < |b.instrs| && b.instrs[x].op.Defines();
          assert j < k && b'.order[j] == x;
        }
      }
    }
  }

  lemma WriteStep(w: World, st: State, id: Id, i: Instr)
    requires IsWrite16(i)
    ensures Step(w, st, id, i) == State(st.env, Wr16(st.mem, w.base(i.operands[0].s.sym) + i.operands[0].s.off, Val(w, st.env, i.operands[1])))
  {
  }

  lemma TwoWriteSteps(w: World, st: State, r2: Id, i2: Instr, r1: Id, i1: Instr)
    requires IsWrite16(i1) && IsWrite16(i2)
    ensures Step(w, Step(w, st, r2, i2), r1, i1)
         == State(st.env, Wr16(Wr16(st.mem, w.base(i2.operands[0].s.sym) + i2.operands[0].s.off, Val(w, st.env, i2.operands[1])),
                               w.base(i1.operands[0].s.sym) + i1.operands[0].s.off, Val(w, st.env, i1.operands[1])))
  {
    WriteStep(w, st, r2, i2);
    WriteStep(w, Step(w, st, r2, i2), r1, i1);
  }

  lemma TwoWrites(w: World, st: State, r2: Id, i2: Instr, r1: Id, i1: Instr, low: Ref, high: Ref, s: SymRef)
    requires IsWrite16(i1) && IsWrite16(i2) && HalvesOf(i2, i1, low, high, s)
    ensures Step(w, Step(w, st, r2, i2), r1, i1)
         == State(st.env, Wr32(st.mem, w.base(s.sym) + s.off, Join(Val(w, st.env, high), Val(w, st.env, low))))
  {
    TwoWriteSteps(w, st, r2, i2, r1, i1);
    WriteHalves(st.mem, w.base(s.sym) + s.off, Val(w, st.env, high), Val(w, st.env, low));
  }

  lemma MakeState(w: World, st: State, r2: Id, low: Ref, high: Ref)
    ensures Step(w, st, r2, Instr(Make32, [high, low])) == State(st.env[r2 := Join(Val(w, st.env, high), Val(w, st.env, low))], st.mem)
  {
  }

  lemma WriteState(w: World, st: State, r1: Id, r2: Id, s: SymRef)
    requires r2 in st.env
    ensures Step(w, st, r1, Instr(WriteVar32, [Sym(s), Def(r2)])) == State(st.env, Wr32(st.mem, w.base(s.sym) + s.off, st.env[r2]))
  {
  }

  lemma OneWrite(w: World, st: State, r2: Id, r1: Id, low: Ref, high: Ref, s: SymRef)
    ensures var v := Join(Val(w, st.env, high), Val(w, st.env, low));
      Step(w, Step(w, st, r2, Instr(Make32, [high, low])), r1, Instr(WriteVar32, [Sym(s), Def(r2)]))
      == State(st.env[r2 := v], Wr32(st.mem, w.base(s.sym) + s.off, v))
  {
    var v := Join(Val(w, st.env, high), Val(w, st.env, low));
    MakeState(w, st, r2, low, high);
    WriteState(w, State(st.env[r2 := v], st.mem), r1, r2, s);
  }

  /** The state after the pair: one 32-bit write in place of two 16-bit ones. */
  lemma WritePairRun(w: World, m: Mem, b: Block, q: nat, p: nat, low: Ref, high: Ref, s: SymRef)
    requires WellFormed(b) && q < p < |b.order| && WritesHalves(b, q, p, low, high, s)
    requires WellFormed(WritePair(b, b.order[q], b.order[p], low, high, s))
    ensures var b' := WritePair(b, b.order[q], b.order[p], low, high, s);
      Agree(Run(w, b, State(map[], m), p + 1), Run(w, b', State(map[], m), p + 1), {b.order[q]})
  {
    var r2, r1 := b.order[q], b.order[p];
    var b' := WritePair(b, r2, r1, low, high, s);
    PrefixAgrees(w, m, b, b', q);
    NopsRun(w, b, m, q, p, p);
    NopsRun(w, b', m, q, p, p);
    TwoWrites(w, Run(w, b, State(map[], m), q), r2, b.instrs[r2], r1, b.instrs[r1], low, high, s);
    OneWrite(w, Run(w, b, State(map[], m), q), r2, r1, low, high, s);
  }

  lemma WritePairPreserves(b: Block, q: nat, p: nat, low: Ref, high: Ref, s: SymRef)
    requires WellFormed(b) && q < p < |b.order| && WritesHalves(b, q, p, low, high, s)
    ensures Preserves(b, WritePair(b, b.order[q], b.order[p], low, high, s))
  {
    var b' := WritePair(b, b.order[q], b.order[p], low, high, s);
    WritePairWellFormed(b, q, p, low, high, s);
    forall k | p < k < |b.order|
      ensures SameAt(b, k, b', 0, {b.order[q]})
    {
      NobodyUsesWrites(b, q, k);
    }
    forall w, m
      ensures SameOutcome(w, m, b, b')
    {
      WritePairRun(w, m, b, q, p, low, high, s);
      TailAgrees(w, m, b, p + 1, b', 0, {b.order[q]}, |b.order|);
      AgreeingEnds(w, m, b, b', {b.order[q]});
    }
    forall k | 0 <= k < |b.order| && DefinesAt(b, k)
      ensures exists j :: 0 <= j < |b'.order| && b'.order[j] == b.order[k] && DefinesAt(b', j)
    {
      assert b'.order[k] == b.order[k] && DefinesAt(b', k);
    }
  }

  // ------------------------------------------------------------------------
  // Pass 2: two 16-bit reads of the halves of one variable.

  ghost predicate IsRead16(i: Instr) {
    i.op.ReadVar16? && |i.operands| == 1 && i.operands[0].Sym?
  }

  function Insert(b: Block, q: nat, i: Instr): Block
    requires q <= |b.order|
  {
    Block(b.order[..q] + [|b.instrs|] + b.order[q..], b.instrs + [i], b.outer)
  }

  /** The new read goes in before the low half; both halves are then taken from it. */
  function ReadPair(b: Block, q: nat, low: Id, high: Id, s: SymRef): Block
    requires q <= |b.order| && low < |b.instrs| && high < |b.instrs|
  {
    var t := |b.instrs|;
    Replace(Replace(Insert(b, q, Instr(ReadVar32, [Sym(s)])), low, Instr(Lower16, [Def(t)])), high, Instr(Upper16, [Def(t)]))
  }

  ghost predicate ReadsHalves(b: Block, q: nat, p: nat, s: SymRef)
    requires WellFormed(b) && q < p < |b.order|
  {
    var l, h := b.instrs[b.order[q]], b.instrs[b.order[p]];
    && NopsBetween(b, q, p) && IsRead16(l) && IsRead16(h)
    && l.operands[0].s.sym == h.operands[0].s.sym == s.sym
    && l.operands[0].s.off == s.off && h.operands[0].s.off == s.off + 2
  }

  lemma ReadPairAt(b: Block, q: nat, p: nat, s: SymRef, k: nat)
    requires WellFormed(b) && q < p < |b.order| && ReadsHalves(b, q, p, s) && k < |b.order|
    ensures var b' := ReadPair(b, q, b.order[q], b.order[p], s);
      var k' := if k < q then k else k + 1;
      && |b'.order| == |b.order| + 1 && b'.order[k'] == b.order[k] && b'.order[q] == |b.instrs|
      && |b'.instrs| == |b.instrs| + 1
      && (k != q && k != p ==> b'.instrs[b.order[k]] == b.instrs[b.order[k]])
      && b'.instrs[b.order[k]].op.Defines() == b.instrs[b.order[k]].op.Defines()
  {
    var b' := ReadPair(b, q, b.order[q], b.order[p], s);
    assert b'.order == b.order[..q] + [|b.instrs|] + b.order[q..];
    assert k != q && k != p ==> b.order[k] != b.order[q] && b.order[k] != b.order[p];
  }

  lemma ReadPairInRange(b: Block, q: nat, p: nat, s: SymRef)
    requires WellFormed(b) && q < p < |b.order| && ReadsHalves(b, q, p, s)
    ensures var b' := ReadPair(b, q, b.order[q], b.order[p], s); InRange(b') && Distinct(b'.order)
  {
    var b' := ReadPair(b, q, b.order[q], b.order[p], s);
    forall k | 0 <= k < |b'.order|
      ensures b'.order[k] < |b'.instrs|
    {
      if k != q {
        ReadPairAt(b, q, p, s, if k < q then k else k - 1);
      }
    }
    forall i, j | 0 <= i < j < |b'.order|
      ensures b'.order[i] != b'.order[j]
    {
      if i != q {
        ReadPairAt(b, q, p, s, if i < q then i else i - 1);
      }
      if j != q {
        ReadPairAt(b, q, p, s, if j < q then j else j - 1);
      }
    }
  }

  lemma ReadPairUse(b: Block, q: nat, p: nat, s: SymRef, k: nat, x: Id)
    requires WellFormed(b) && q < p < |b.order| && ReadsHalves(b, q, p, s) && k < |b.order|
    requires k != q && k != p && Def(x) in b.instrs[b.order[k]].operands
    ensures var b' := ReadPair(b, q, b.order[q], b.order[p], s);
      exists j :: 0 <= j < (if k < q then k else k + 1) && b'.order[j] == x && x < |b'.instrs| && b'.instrs[x].op.Defines()
  {
    var b' := ReadPair(b, q, b.order[q], b.order[p], s);
    assert UsesDefined(b, k);
    var j :| 0 <= j < k && b.order[j] == x && x < |b.instrs| && b.instrs[x].op.Defines();
    ReadPairAt(b, q, p, s, j);
    assert b'.order[if j < q then j else j + 1] == x;
  }

  lemma ReadPairWellFormed(b: Block, q: nat, p: nat, s: SymRef)
    requires WellFormed(b) && q < p < |b.order| && ReadsHalves(b, q, p, s)
    ensures WellFormed(ReadPair(b, q, b.order[q], b.order[p], s))
  {
    var b' := ReadPair(b, q, b.order[q], b.order[p], s);
    ReadPairInRange(b, q, p, s);
    forall k | 0 <= k < |b'.order|
      ensures UsesDefined(b', k)
    {
      forall x: Id | Def(x) in b'.instrs[b'.order[k]].operands
        ensures exists j :: 0 <= j < k && b'.order[j] == x && x < |b'.instrs| && b'.instrs[x].op.Defines()
      {
        if k == q + 1 || k == p + 1 {
          assert b'.order[q] == x;
        } else if k != q {
          var k0 := if k < q then k else k - 1;
          ReadPairAt(b, q, p, s, k0);
          ReadPairUse(b, q, p, s, k0, x);
        }
      }
    }
  }

  lemma Read16Step(w: World, st: State, id: Id, i: Instr)
    requires IsRead16(i)
    ensures Step(w, st, id, i) == State(st.env[id := Rd16(st.mem, w.base(i.operands[0].s.sym) + i.operands[0].s.off)], st.mem)
  {
  }

  lemma TwoReads(w: World, st: State, l: Id, il: Instr, h: Id, ih: Instr, s: SymRef)
    requires IsRead16(il) && IsRead16(ih) && il.operands[0].s.sym == ih.operands[0].s.sym == s.sym
    requires il.operands[0].s.off == s.off && ih.operands[0].s.off == s.off + 2
    ensures var a := w.base(s.sym) + s.off;
      Step(w, Step(w, st, l, il), h, ih) == State(st.env[l := Rd16(st.mem, a)][h := Rd16(st.mem, a + 2)], st.mem)
  {
    Read16Step(w, st, l, il);
    Read16Step(w, Step(w, st, l, il), h, ih);
  }

  lemma TwoHalfReads(w: World, st: State, l: Id, il: Instr, h: Id, ih: Instr, s: SymRef)
    requires IsRead16(il) && IsRead16(ih) && il.operands[0].s.sym == ih.operands[0].s.sym == s.sym
    requires il.operands[0].s.off == s.off && ih.operands[0].s.off == s.off + 2
    ensures var v := Rd32(st.mem, w.base(s.sym) + s.off);
      Step(w, Step(w, st, l, il), h, ih) == State(st.env[l := Low(v)][h := High(v)], st.mem)
  {
    TwoReads(w, st, l, il, h, ih, s);
    TwoReadsAreHalves(st, l, h, w.base(s.sym) + s.off);
  }

  lemma TwoReadsAreHalves(st: State, l: Id, h: Id, a: int)
    ensures State(st.env[l := Rd16(st.mem, a)][h := Rd16(st.mem, a + 2)], st.mem)
         == State(st.env[l := Low(Rd32(st.mem, a))][h := High(Rd32(st.mem, a))], st.mem)
  {
    ReadHalves(st.mem, a);
  }

  lemma HalfSteps(w: World, st: State, id: Id, t: Id)
    requires t in st.env
    ensures Step(w, st, id, Instr(Lower16, [Def(t)])) == State(st.env[id := Low(st.env[t])], st.mem)
    ensures Step(w, st, id, Instr(Upper16, [Def(t)])) == State(st.env[id := High(st.env[t])], st.mem)
  {
  }

  lemma ReadStep(w: World, st: State, t: Id, s: SymRef)
    ensures Step(w, st, t, Instr(ReadVar32, [Sym(s)])) == State(st.env[t := Rd32(st.mem, w.base(s.sym) + s.off)], st.mem)
  {
  }

  lemma OneRead(w: World, st: State, s1: State, s2: State, l: Id, h: Id, t: Id, v: int)
    requires t != l && t != h
    requires s1 == State(st.env[t := v], st.mem)
    requires s2 == Step(w, s1, l, Instr(Lower16, [Def(t)]))
    ensures Step(w, s2, h, Instr(Upper16, [Def(t)])) == State(st.env[t := v][l := Low(v)][h := High(v)], st.mem)
  {
    HalfSteps(w, s1, l, t);
    HalfSteps(w, s2, h, t);
  }

  lemma ReadPairNops(b: Block, q: nat, p: nat, s: SymRef)
    requires WellFormed(b) && q < p < |b.order| && ReadsHalves(b, q, p, s)
    requires WellFormed(ReadPair(b, q, b.order[q], b.order[p], s))
    ensures var b' := ReadPair(b, q, b.order[q], b.order[p], s); |b'.order| == |b.order| + 1 && NopsBetween(b', q + 1, p + 1)
  {
    var b' := ReadPair(b, q, b.order[q], b.order[p], s);
    forall k | q + 1 < k < p + 1
      ensures b'.instrs[b'.order[k]].op.Nop?
    {
      ReadPairAt(b, q, p, s, k - 1);
    }
  }

  lemma ReadPairShape(b: Block, q: nat, p: nat, s: SymRef)
    requires WellFormed(b) && q < p < |b.order| && ReadsHalves(b, q, p, s)
    ensures var b', t := ReadPair(b, q, b.order[q], b.order[p], s), |b.instrs|;
      && |b'.order| == |b.order| + 1
      && b'.order[q] == t && b'.order[q + 1] == b.order[q] && b'.order[p + 1] == b.order[p]
      && b'.instrs[t] == Instr(ReadVar32, [Sym(s)])
      && b'.instrs[b.order[q]] == Instr(Lower16, [Def(t)])
      && b'.instrs[b.order[p]] == Instr(Upper16, [Def(t)])
  {
  }

  lemma ReadPairStart(w: World, m: Mem, b: Block, q: nat, p: nat, s: SymRef)
    requires WellFormed(b) && q < p < |b.order| && ReadsHalves(b, q, p, s)
    requires WellFormed(ReadPair(b, q, b.order[q], b.order[p], s))
    ensures var b', st := ReadPair(b, q, b.order[q], b.order[p], s), Run(w, b, State(map[], m), q);
      && |b'.order| == |b.order| + 1
      && Run(w, b', State(map[], m), q + 1) == State(st.env[|b.instrs| := Rd32(st.mem, w.base(s.sym) + s.off)], st.mem)
  {
    var b' := ReadPair(b, q, b.order[q], b.order[p], s);
    ReadPairShape(b, q, p, s);
    PrefixAgrees(w, m, b, b', q);
    ReadStep(w, Run(w, b, State(map[], m), q), |b.instrs|, s);
  }

  lemma ReadPairNewSteps(w: World, m: Mem, b: Block, q: nat, p: nat, s: SymRef)
    requires WellFormed(b) && q < p < |b.order| && ReadsHalves(b, q, p, s)
    requires WellFormed(ReadPair(b, q, b.order[q], b.order[p], s))
    ensures var b', t := ReadPair(b, q, b.order[q], b.order[p], s), |b.instrs|;
      && |b'.order| == |b.order| + 1
      && Run(w, b', State(map[], m), p + 2)
         == Step(w, Step(w, Run(w, b', State(map[], m), q + 1), b.order[q], Instr(Lower16, [Def(t)])), b.order[p], Instr(Upper16, [Def(t)]))
  {
    var b' := ReadPair(b, q, b.order[q], b.order[p], s);
    ReadPairShape(b, q, p, s);
    ReadPairNops(b, q, p, s);
    NopsRun(w, b', m, q + 1, p + 1, p + 1);
  }

  lemma ReadPairNewRun(w: World, m: Mem, b: Block, q: nat, p: nat, s: SymRef)
    requires WellFormed(b) && q < p < |b.order| && ReadsHalves(b, q, p, s)
    requires WellFormed(ReadPair(b, q, b.order[q], b.order[p], s))
    ensures var b', st, v := ReadPair(b, q, b.order[q], b.order[p], s), Run(w, b, State(map[], m), q), Rd32(Run(w, b, State(map[], m), q).mem, w.base(s.sym) + s.off);
      && |b'.order| == |b.order| + 1
      && Run(w, b', State(map[], m), p + 2)
         == State(st.env[|b.instrs| := v][b.order[q] := Low(v)][b.order[p] := High(v)], st.mem)
  {
    var l, h, t := b.order[q], b.order[p], |b.instrs|;
    ReadPairNewSteps(w, m, b, q, p, s);
    ReadPairStart(w, m, b, q, p, s);
    var st := Run(w, b, State(map[], m), q);
    var v := Rd32(st.mem, w.base(s.sym) + s.off);
    var s1 := State(st.env[t := v], st.mem);
    OneRead(w, st, s1, Step(w, s1, l, Instr(Lower16, [Def(t)])), l, h, t, v);
  }

  lemma ReadPairSteps(w: World, m: Mem, b: Block, q: nat, p: nat, s: SymRef)
    requires WellFormed(b) && q < p < |b.order| && ReadsHalves(b, q, p, s)
    ensures Run(w, b, State(map[], m), p + 1)
         == Step(w, Step(w, Run(w, b, State(map[], m), q), b.order[q], b.instrs[b.order[q]]), b.order[p], b.instrs[b.order[p]])
  {
    NopsRun(w, b, m, q, p, p);
  }

  lemma ReadPairOldRun(w: World, m: Mem, b: Block, q: nat, p: nat, s: SymRef)
    requires WellFormed(b) && q < p < |b.order| && ReadsHalves(b, q, p, s)
    ensures var st := Run(w, b, State(map[], m), q);
      var v := Rd32(st.mem, w.base(s.sym) + s.off);
      Run(w, b, State(map[], m), p + 1) == State(st.env[b.order[q] := Low(v)][b.order[p] := High(v)], st.mem)
  {
    var st := Run(w, b, State(map[], m), q);
    ReadPairSteps(w, m, b, q, p, s);
    TwoHalfReads(w, st, b.order[q], b.instrs[b.order[q]], b.order[p], b.instrs[b.order[p]], s);
  }

  lemma AgreeButOne(st: State, l: Id, h: Id, t: Id, x: int, y: int, v: int)
    requires t != l && t != h
    ensures Agree(State(st.env[l := x][h := y], st.mem), State(st.env[t := v][l := x][h := y], st.mem), {t})
  {
  }

  lemma ReadPairRun(w: World, m: Mem, b: Block, q: nat, p: nat, s: SymRef)
    requires WellFormed(b) && q < p < |b.order| && ReadsHalves(b, q, p, s)
    requires WellFormed(ReadPair(b, q, b.order[q], b.order[p], s))
    ensures var b' := ReadPair(b, q, b.order[q], b.order[p], s);
      |b'.order| == |b.order| + 1 && Agree(Run(w, b, State(map[], m), p + 1), Run(w, b', State(map[], m), p + 2), {|b.instrs|})
  {
    ReadPairShape(b, q, p, s);
    var st := Run(w, b, State(map[], m), q);
    var v := Rd32(st.mem, w.base(s.sym) + s.off);
    AgreeButOne(st, b.order[q], b.order[p], |b.instrs|, Low(v), High(v), v);
    ReadPairOldRun(w, m, b, q, p, s);
    ReadPairNewRun(w, m, b, q, p, s);
  }

  lemma ReadPairPreserves(b: Block, q: nat, p: nat, s: SymRef)
    requires WellFormed(b) && q < p < |b.order| && ReadsHalves(b, q, p, s)
    ensures Preserves(b, ReadPair(b, q, b.order[q], b.order[p], s))
  {
    var b', t := ReadPair(b, q, b.order[q], b.order[p], s), |b.instrs|;
    ReadPairWellFormed(b, q, p, s);
    forall k | p < k < |b.order|
      ensures SameAt(b, k, b', 1, {t})
    {
      ReadPairAt(b, q, p, s, k);
      assert UsesDefined(b, k);
    }
    forall w, m
      ensures SameOutcome(w, m, b, b')
    {
      ReadPairRun(w, m, b, q, p, s);
      TailAgrees(w, m, b, p + 1, b', 1, {t}, |b.order|);
      AgreeingEnds(w, m, b, b', {t});
    }
    forall k | 0 <= k < |b.order| && DefinesAt(b, k)
      ensures exists j :: 0 <= j < |b'.order| && b'.order[j] == b.order[k] && DefinesAt(b', j)
    {
      ReadPairAt(b, q, p, s, k);
      assert DefinesAt(b', if k < q then k else k + 1);
    }
  }

  // ------------------------------------------------------------------------
  // Pass 3: a 32-bit value made of two 16-bit loads.

  /** The instruction that computes a value, in this block or in an earlier one. */
  function Source(b: Block, r: Ref): Option<Instr> {
    match r
    case Def(id) => if id < |b.instrs| then Some(b.instrs[id]) else None
    case Outer(n) => if n < |b.outer| then Some(b.outer[n]) else None
    case _ => None
  }

  predicate IsAdd(i: Instr) {
    i.op.Add? && |i.operands| == 2
  }

  predicate IsLoad16(i: Instr) {
    i.op.Load16? && |i.operands| == 2
  }

  /** The loads `h` and `l` lie two bytes apart: one offset is the other plus two, or both are one base plus constants. */
  predicate TwoApart(b: Block, h: Instr, l: Instr) {
    && IsLoad16(h) && IsLoad16(l) && h.operands[0] == l.operands[0]
    && var ho, lo := Source(b, h.operands[1]), Source(b, l.operands[1]);
    && ho.Some? && lo.Some? && IsAdd(ho.value)
    && if ho.value.operands[0] == l.operands[1] && ho.value.operands[1].Const? then ho.value.operands[1].k == 2
       else IsAdd(lo.value) && ho.value.operands[0] == lo.value.operands[0]
            && ho.value.operands[1].Const? && lo.value.operands[1].Const? && ho.value.operands[1].k == lo.value.operands[1].k + 2
  }

  ghost predicate LoadPairAt(b: Block, qh: nat, ql: nat, p: nat)
    requires WellFormed(b) && qh < p && ql < p && p < |b.order|
  {
    && b.instrs[b.order[p]] == Instr(Make32, [Def(b.order[qh]), Def(b.order[ql])])
    && TwoApart(b, b.instrs[b.order[qh]], b.instrs[b.order[ql]])
  }

  /** A result stays what it is. */
  lemma {:induction false} ResultStays(w: World, b: Block, m: Mem, j: nat, n: nat)
    requires WellFormed(b) && j < n <= |b.order| && DefinesAt(b, j)
    ensures b.order[j] in Run(w, b, State(map[], m), n).env
    ensures Run(w, b, State(map[], m), n).env[b.order[j]] == Result(w, Run(w, b, State(map[], m), j), b.instrs[b.order[j]])
  {
    if n > j + 1 {
      ResultStays(w, b, m, j, n - 1);
    }
  }

  /** An operand has the same value wherever it can be used. */
  lemma OperandStays(w: World, b: Block, m: Mem, k: nat, n: nat, r: Ref)
    requires WellFormed(b) && k <= n <= |b.order| && k < |b.order| && r in b.instrs[b.order[k]].operands
    ensures Val(w, Run(w, b, State(map[], m), n).env, r) == Val(w, Run(w, b, State(map[], m), k).env, r)
  {
    if r.Def? {
      assert UsesDefined(b, k);
      var j :| 0 <= j < k && b.order[j] == r.id && r.id < |b.instrs| && b.instrs[r.id].op.Defines();
      ResultStays(w, b, m, j, k);
      ResultStays(w, b, m, j, n);
    }
  }

  lemma LowOfSum(x: int, k: int)
    ensures Low(x + k + 2) == Low(Low(x + k) + 2)
  {
  }

  /** The value of a sum that the load at `q` has as its offset, in terms of what was added. */
  lemma OffsetValue(w: World, m: Mem, b: Block, q: nat, p: nat)
    requires WellFormed(b) && Honest(w, b) && q < p < |b.order| && IsLoad16(b.instrs[b.order[q]])
    requires var o := Source(b, b.instrs[b.order[q]].operands[1]); o.Some? && IsAdd(o.value)
    ensures var r, env := b.instrs[b.order[q]].operands[1], Run(w, b, State(map[], m), p).env;
      var o := Source(b, r).value;
      Val(w, env, r) == Low(Val(w, env, o.operands[0]) + Val(w, env, o.operands[1]))
  {
    var r := b.instrs[b.order[q]].operands[1];
    var o := Source(b, r).value;
    assert r in b.instrs[b.order[q]].operands && o.operands[0] in o.operands && o.operands[1] in o.operands;
    if r.Def? {
      assert UsesDefined(b, q);
      var j :| 0 <= j < q && b.order[j] == r.id && r.id < |b.instrs| && b.instrs[r.id].op.Defines();
      ResultStays(w, b, m, j, p);
      OperandStays(w, b, m, j, p, o.operands[0]);
      OperandStays(w, b, m, j, p, o.operands[1]);
    } else {
      assert !o.operands[0].Def? && !o.operands[1].Def?;
    }
  }

  /** The high load's offset is the low load's plus two. */
  lemma OffsetsTwoApart(w: World, m: Mem, b: Block, qh: nat, ql: nat, p: nat)
    requires WellFormed(b) && Honest(w, b) && qh < p && ql < p && p < |b.order| && LoadPairAt(b, qh, ql, p)
    ensures var env := Run(w, b, State(map[], m), p).env;
      Val(w, env, b.instrs[b.order[qh]].operands[1]) == Low(Val(w, env, b.instrs[b.order[ql]].operands[1]) + 2)
  {
    var h, l := b.instrs[b.order[qh]], b.instrs[b.order[ql]];
    var ho, lo := Source(b, h.operands[1]).value, Source(b, l.operands[1]).value;
    OffsetValue(w, m, b, qh, p);
    if !(ho.operands[0] == l.operands[1] && ho.operands[1].Const?) {
      OffsetValue(w, m, b, ql, p);
      LowOfSum(Val(w, Run(w, b, State(map[], m), p).env, lo.operands[0]), lo.operands[1].k);
    }
  }

  lemma SameAddr(w: World, env: map<Id, int>, env': map<Id, int>, i: Instr)
    requires IsLoad16(i) && Val(w, env, i.operands[0]) == Val(w, env', i.operands[0]) && Val(w, env, i.operands[1]) == Val(w, env', i.operands[1])
    ensures LoadAddr(w, env, i) == LoadAddr(w, env', i)
  {
  }

  lemma AddrStays(w: World, m: Mem, b: Block, q: nat, p: nat)
    requires WellFormed(b) && q < p < |b.order| && IsLoad16(b.instrs[b.order[q]])
    ensures LoadAddr(w, Run(w, b, State(map[], m), q).env, b.instrs[b.order[q]]) == LoadAddr(w, Run(w, b, State(map[], m), p).env, b.instrs[b.order[q]])
  {
    var i := b.instrs[b.order[q]];
    assert i.operands[0] in i.operands && i.operands[1] in i.operands;
    OperandStays(w, b, m, q, p, i.operands[0]);
    OperandStays(w, b, m, q, p, i.operands[1]);
    SameAddr(w, Run(w, b, State(map[], m), q).env, Run(w, b, State(map[], m), p).env, i);
  }

  lemma LoadStep(w: World, st: State, i: Instr)
    requires IsLoad16(i)
    ensures Result(w, st, i) == Rd16(st.mem, LoadAddr(w, st.env, i))
  {
  }

  /** What a 16-bit load in the block gave, in terms of the values its operands still have at `p`. */
  lemma LoadedValue(w: World, m: Mem, b: Block, q: nat, p: nat)
    requires WellFormed(b) && q < p < |b.order| && IsLoad16(b.instrs[b.order[q]])
    ensures var st, now := Run(w, b, State(map[], m), q), Run(w, b, State(map[], m), p);
      Val(w, now.env, Def(b.order[q])) == Rd16(st.mem, LoadAddr(w, now.env, b.instrs[b.order[q]]))
  {
    ResultStays(w, b, m, q, p);
    AddrStays(w, m, b, q, p);
    LoadStep(w, Run(w, b, State(map[], m), q), b.instrs[b.order[q]]);
  }

  function LoadPair(b: Block, r: Id, low: Instr): Block
    requires r < |b.instrs| && |low.operands| == 2
  {
    Replace(b, r, Instr(Load32, low.operands))
  }

  /** Where the high load reads, when the low one reads at `off` in segment `seg`: the offset wraps, the 32-bit load's does not. */
  function HighAddress(seg: int, off: int): int {
    Low(seg) * 16 + Low(Low(off) + 2)
  }

  /** The words `h` and `l` stand at `a`, the low one first. */
  ghost predicate WordsAt(m: Mem, a: int, h: int, l: int) {
    l == Rd16(m, a) && h == Rd16(m, a + 2)
  }

  /** The words that a high load read in `mh` and the low load `l` in `ml` stand where a 32-bit load reads them now. */
  ghost predicate WordsFrom(w: World, st: State, mh: Mem, ml: Mem, l: Instr) {
    var a := LoadAddr(w, st.env, l);
    WordsAt(st.mem, a, Rd16(mh, HighAddress(Arg(w, st.env, l, 0), Arg(w, st.env, l, 1))), Rd16(ml, a))
  }

  /** The two words that were loaded still stand where a 32-bit load at `p` reads them. */
  ghost predicate SameWords(w: World, m: Mem, b: Block, qh: nat, ql: nat, p: nat)
    requires WellFormed(b) && qh < p && ql < p && p < |b.order|
  {
    WordsFrom(w, Run(w, b, State(map[], m), p), Run(w, b, State(map[], m), qh).mem, Run(w, b, State(map[], m), ql).mem,
              b.instrs[b.order[ql]])
  }

  lemma LowOfWord(x: int)
    requires 0 <= x < 0x1_0000
    ensures Low(x) == x
  {
  }

  lemma SameDigits(h: int, l: int, h': int, l': int)
    requires 0 <= l < 0x1_0000 && 0 <= l' < 0x1_0000
    ensures h * 0x1_0000 + l == h' * 0x1_0000 + l' <==> h == h' && l == l'
  {
  }

  lemma JoinedEqual(v: int, h: int, l: int, h': int, l': int)
    requires 0 <= h < 0x1_0000 && 0 <= l < 0x1_0000 && 0 <= h' < 0x1_0000 && 0 <= l' < 0x1_0000 && v == Join(h', l')
    ensures Join(h, l) == v <==> h == h' && l == l'
  {
    LowOfWord(h);
    LowOfWord(l);
    LowOfWord(h');
    LowOfWord(l');
    SameDigits(h, l, h', l');
  }

  lemma WordRange(m: Mem, a: int)
    ensures 0 <= Rd16(m, a) < 0x1_0000
  {
  }

  lemma WholeIsJoin(m: Mem, a: int)
    ensures Rd32(m, a) == Join(Rd16(m, a + 2), Rd16(m, a))
  {
    WordRange(m, a);
    WordRange(m, a + 2);
  }

  /** Two words joined are the 32-bit value at `a` exactly when they are the words there. */
  lemma JoinedWords(m: Mem, a: int, h: int, l: int)
    requires 0 <= h < 0x1_0000 && 0 <= l < 0x1_0000
    ensures Join(h, l) == Rd32(m, a) <==> WordsAt(m, a, h, l)
  {
    WordRange(m, a);
    WordRange(m, a + 2);
    WholeIsJoin(m, a);
    JoinedEqual(Rd32(m, a), h, l, Rd16(m, a + 2), Rd16(m, a));
  }

  lemma OwnWords(m: Mem, a: int, x: int)
    ensures WordsAt(m, a, Rd16(m, x), Rd16(m, a)) <==> Rd16(m, x) == Rd16(m, a + 2)
  {
  }

  lemma HighAddr(w: World, env: map<Id, int>, h: Instr, l: Instr)
    requires IsLoad16(h) && IsLoad16(l) && h.operands[0] == l.operands[0]
    requires Val(w, env, h.operands[1]) == Low(Val(w, env, l.operands[1]) + 2)
    ensures LoadAddr(w, env, h) == HighAddress(Arg(w, env, l, 0), Arg(w, env, l, 1))
  {
    LowOfSum(0, Val(w, env, l.operands[1]));
  }

  /** What the high load gave, in terms of where the low one reads. */
  lemma HighWord(w: World, m: Mem, b: Block, qh: nat, ql: nat, p: nat)
    requires WellFormed(b) && Honest(w, b) && qh < p && ql < p && p < |b.order| && LoadPairAt(b, qh, ql, p)
    ensures var env, l := Run(w, b, State(map[], m), p).env, b.instrs[b.order[ql]];
      var v := Val(w, env, Def(b.order[qh]));
      v == Rd16(Run(w, b, State(map[], m), qh).mem, HighAddress(Arg(w, env, l, 0), Arg(w, env, l, 1))) && 0 <= v < 0x1_0000
  {
    var env, l := Run(w, b, State(map[], m), p).env, b.instrs[b.order[ql]];
    LoadedValue(w, m, b, qh, p);
    OffsetsTwoApart(w, m, b, qh, ql, p);
    HighAddr(w, env, b.instrs[b.order[qh]], l);
    WordRange(Run(w, b, State(map[], m), qh).mem, HighAddress(Arg(w, env, l, 0), Arg(w, env, l, 1)));
  }

  lemma LowWord(w: World, m: Mem, b: Block, ql: nat, p: nat)
    requires WellFormed(b) && ql < p < |b.order| && IsLoad16(b.instrs[b.order[ql]])
    ensures var env, l := Run(w, b, State(map[], m), p).env, b.instrs[b.order[ql]];
      var v := Val(w, env, Def(b.order[ql]));
      v == Rd16(Run(w, b, State(map[], m), ql).mem, LoadAddr(w, env, l)) && 0 <= v < 0x1_0000
  {
    LoadedValue(w, m, b, ql, p);
    WordRange(Run(w, b, State(map[], m), ql).mem, LoadAddr(w, Run(w, b, State(map[], m), p).env, b.instrs[b.order[ql]]));
  }

  lemma MadeAndLoaded(w: World, st: State, h: Id, l: Id, low: Instr)
    requires |low.operands| == 2
    ensures Result(w, st, Instr(Make32, [Def(h), Def(l)])) == Join(Val(w, st.env, Def(h)), Val(w, st.env, Def(l)))
    ensures Result(w, st, Instr(Load32, low.operands)) == Rd32(st.mem, LoadAddr(w, st.env, low))
  {
  }

  /** The join of two loads gives what one load would. */
  ghost predicate LoadGives(w: World, st: State, join: Instr, low: Instr) {
    Result(w, st, join) == Result(w, st, Instr(Load32, low.operands))
  }

  /** The two words that were loaded are the ones that stand where `low` reads. */
  ghost predicate WordsStand(w: World, st: State, h: Id, l: Id, low: Instr) {
    WordsAt(st.mem, LoadAddr(w, st.env, low), Val(w, st.env, Def(h)), Val(w, st.env, Def(l)))
  }

  lemma LoadGivesIff(w: World, st: State, h: Id, l: Id, low: Instr)
    requires |low.operands| == 2 && 0 <= Val(w, st.env, Def(h)) < 0x1_0000 && 0 <= Val(w, st.env, Def(l)) < 0x1_0000
    ensures LoadGives(w, st, Instr(Make32, [Def(h), Def(l)]), low) <==> WordsStand(w, st, h, l, low)
  {
    MadeAndLoaded(w, st, h, l, low);
    JoinedWords(st.mem, LoadAddr(w, st.env, low), Val(w, st.env, Def(h)), Val(w, st.env, Def(l)));
  }

  lemma WordsStandIff(w: World, m: Mem, b: Block, qh: nat, ql: nat, p: nat)
    requires WellFormed(b) && Honest(w, b) && qh < p && ql < p && p < |b.order| && LoadPairAt(b, qh, ql, p)
    ensures WordsStand(w, Run(w, b, State(map[], m), p), b.order[qh], b.order[ql], b.instrs[b.order[ql]]) <==> SameWords(w, m, b, qh, ql, p)
  {
    HighWord(w, m, b, qh, ql, p);
    LowWord(w, m, b, ql, p);
  }

  /** The 32-bit load gives what the join of the two loads gives exactly when both words still stand where it reads. */
  lemma LoadPairResult(w: World, m: Mem, b: Block, qh: nat, ql: nat, p: nat)
    requires WellFormed(b) && Honest(w, b) && qh < p && ql < p && p < |b.order| && LoadPairAt(b, qh, ql, p)
    ensures LoadGives(w, Run(w, b, State(map[], m), p), b.instrs[b.order[p]], b.instrs[b.order[ql]]) <==> SameWords(w, m, b, qh, ql, p)
  {
    HighWord(w, m, b, qh, ql, p);
    LowWord(w, m, b, ql, p);
    WordsStandIff(w, m, b, qh, ql, p);
    LoadGivesIff(w, Run(w, b, State(map[], m), p), b.order[qh], b.order[ql], b.instrs[b.order[ql]]);
  }

  lemma LoadPairWellFormed(b: Block, qh: nat, ql: nat, p: nat)
    requires WellFormed(b) && qh < p && ql < p && p < |b.order| && LoadPairAt(b, qh, ql, p)
    ensures WellFormed(LoadPair(b, b.order[p], b.instrs[b.order[ql]]))
  {
    var b' := LoadPair(b, b.order[p], b.instrs[b.order[ql]]);
    forall k | 0 <= k < |b'.order|
      ensures UsesDefined(b', k)
    {
      assert UsesDefined(b, k) && UsesDefined(b, ql);
      forall x: Id | Def(x) in b'.instrs[b'.order[k]].operands
        ensures exists j :: 0 <= j < k && b'.order[j] == x && x < |b'.instrs| && b'.instrs[x].op.Defines()
      {
        var from := if k == p then ql else k;
        var j :| 0 <= j < from && b.order[j] == x && x < |b.instrs| && b.instrs[x].op.Defines();
        assert b'.order[j] == x;
      }
    }
  }

  // ------------------------------------------------------------------------
  // The third pass as a whole.

  /** What the pass checks: no memory operation but the two loads after the one with the smaller number. */
  ghost predicate Scanned(b: Block, qh: nat, ql: nat, p: nat)
    requires WellFormed(b) && qh < p && ql < p && p < |b.order|
  {
    forall k :: (if b.order[qh] < b.order[ql] then qh else ql) < k < p && k != qh && k != ql ==> !b.instrs[b.order[k]].op.IsMemOp()
  }

  /** At `p` a join of the loads at `qh` and `ql` was replaced by one load. */
  ghost predicate FusedAt(b: Block, b': Block, qh: nat, ql: nat, p: nat)
    requires WellFormed(b) && qh < p && ql < p && p < |b.order| && |b'.instrs| == |b.instrs|
  {
    LoadPairAt(b, qh, ql, p) && Scanned(b, qh, ql, p) && b'.instrs[b.order[p]] == Instr(Load32, b.instrs[b.order[ql]].operands)
  }

  ghost predicate SomeFusedAt(b: Block, b': Block, p: nat)
    requires WellFormed(b) && p < |b.order| && |b'.instrs| == |b.instrs|
  {
    exists qh, ql :: 0 <= qh < p && 0 <= ql < p && FusedAt(b, b', qh, ql, p)
  }

  /** Some accepted joins became loads, and nothing else changed. */
  ghost predicate LoadsFused(b: Block, b': Block) {
    && WellFormed(b) && WellFormed(b') && b'.order == b.order && b'.outer == b.outer && |b'.instrs| == |b.instrs|
    && forall p {:trigger b.order[p]} :: 0 <= p < |b.order| && b'.instrs[b.order[p]] != b.instrs[b.order[p]] ==> SomeFusedAt(b, b', p)
  }

  /** At every replaced join before `n` the two words still stood where the load reads them. */
  ghost predicate RightBefore(w: World, m: Mem, b: Block, b': Block, n: nat)
    requires WellFormed(b) && |b'.instrs| == |b.instrs|
  {
    forall qh, ql, p {:trigger FusedAt(b, b', qh, ql, p)} ::
      0 <= qh < p && 0 <= ql < p && p < n && p < |b.order| && FusedAt(b, b', qh, ql, p) ==> SameWords(w, m, b, qh, ql, p)
  }

  /** One more step of the two blocks, if it was replaced rightly. */
  lemma RightStepAlike(w: World, m: Mem, b: Block, b': Block, p: nat)
    requires LoadsFused(b, b') && Honest(w, b) && p < |b.order| && RightBefore(w, m, b, b', p + 1)
    ensures var st, x := Run(w, b, State(map[], m), p), b.order[p];
      Step(w, st, x, b.instrs[x]) == Step(w, st, x, b'.instrs[x])
  {
    if b'.instrs[b.order[p]] != b.instrs[b.order[p]] {
      var qh, ql :| 0 <= qh < p && 0 <= ql < p && FusedAt(b, b', qh, ql, p);
      LoadPairResult(w, m, b, qh, ql, p);
      SameStep(w, Run(w, b, State(map[], m), p), b.order[p], b.instrs[b.order[p]], b.instrs[b.order[ql]]);
    }
  }

  lemma SameStep(w: World, st: State, x: Id, join: Instr, low: Instr)
    requires LoadGives(w, st, join, low) && join.op.Make32?
    ensures Step(w, st, x, join) == Step(w, st, x, Instr(Load32, low.operands))
  {
  }

  /** The two blocks do the same at position `p`. */
  ghost predicate StepsAlike(w: World, st: State, b: Block, b': Block, p: nat)
    requires p < |b.order| && InRange(b) && |b'.instrs| == |b.instrs|
  {
    Step(w, st, b.order[p], b.instrs[b.order[p]]) == Step(w, st, b.order[p], b'.instrs[b.order[p]])
  }

  lemma {:induction false} StepsRunAlike(w: World, m: Mem, b: Block, b': Block, n: nat)
    requires InRange(b) && b'.order == b.order && |b'.instrs| == |b.instrs| && n <= |b.order|
    requires forall p: nat :: p < n ==> StepsAlike(w, Run(w, b, State(map[], m), p), b, b', p)
    ensures Run(w, b, State(map[], m), n) == Run(w, b', State(map[], m), n)
  {
    if n > 0 {
      StepsRunAlike(w, m, b, b', n - 1);
      assert StepsAlike(w, Run(w, b, State(map[], m), n - 1), b, b', n - 1);
    }
  }

  lemma RightRunsAlike(w: World, m: Mem, b: Block, b': Block, n: nat)
    requires LoadsFused(b, b') && Honest(w, b) && n <= |b.order| && RightBefore(w, m, b, b', n)
    ensures Run(w, b, State(map[], m), n) == Run(w, b', State(map[], m), n)
  {
    forall p: nat | p < n
      ensures StepsAlike(w, Run(w, b, State(map[], m), p), b, b', p)
    {
      RightStepAlike(w, m, b, b', p);
    }
    StepsRunAlike(w, m, b, b', n);
  }

  /** A join replaced wrongly changes a result, if all before it were replaced rightly. */
  lemma WrongShows(w: World, m: Mem, b: Block, b': Block, qh: nat, ql: nat, p: nat)
    requires LoadsFused(b, b') && Honest(w, b) && qh < p && ql < p && p < |b.order| && RightBefore(w, m, b, b', p)
    requires FusedAt(b, b', qh, ql, p) && !SameWords(w, m, b, qh, ql, p)
    ensures !SameOutcome(w, m, b, b')
  {
    RightRunsAlike(w, m, b, b', p);
    LoadPairResult(w, m, b, qh, ql, p);
    assert DefinesAt(b, p) && DefinesAt(b', p);
    ResultStays(w, b, m, p, |b.order|);
    ResultStays(w, b', m, p, |b.order|);
    assert !SameResult(Final(w, m, b), Final(w, m, b'), b.order[p]);
  }

  lemma {:induction false} RightOrFirstWrong(w: World, m: Mem, b: Block, b': Block, n: nat)
    requires LoadsFused(b, b') && Honest(w, b) && n <= |b.order|
    ensures RightBefore(w, m, b, b', n) || !SameOutcome(w, m, b, b')
  {
    if n > 0 {
      RightOrFirstWrong(w, m, b, b', n - 1);
      if RightBefore(w, m, b, b', n - 1) && !RightBefore(w, m, b, b', n) {
        var qh, ql, p :| 0 <= qh < p && 0 <= ql < p && p < n && p < |b.order| && FusedAt(b, b', qh, ql, p) && !SameWords(w, m, b, qh, ql, p);
        WrongShows(w, m, b, b', qh, ql, p);
      }
    }
  }

  /** The pass is right in a world and memory exactly when at every replaced join the words still stood. */
  lemma FusedRightIff(w: World, m: Mem, b: Block, b': Block)
    requires LoadsFused(b, b') && Honest(w, b)
    ensures SameOutcome(w, m, b, b') <==> RightBefore(w, m, b, b', |b.order|)
  {
    RightOrFirstWrong(w, m, b, b', |b.order|);
    if RightBefore(w, m, b, b', |b.order|) {
      RightRunsAlike(w, m, b, b', |b.order|);
      AgreeingEnds(w, m, b, b', {});
    }
  }

  lemma FuseOneMore(b: Block, b1: Block, qh: nat, ql: nat, p: nat)
    requires LoadsFused(b, b1) && qh < p && ql < p && p < |b.order|
    requires LoadPairAt(b1, qh, ql, p) && Scanned(b1, qh, ql, p)
    ensures LoadsFused(b, LoadPair(b1, b1.order[p], b1.instrs[b1.order[ql]]))
  {
    var b' := LoadPair(b1, b1.order[p], b1.instrs[b1.order[ql]]);
    LoadPairWellFormed(b1, qh, ql, p);
    PairWasThere(b, b1, qh, ql, p);
    forall k | 0 <= k < |b.order| && b'.instrs[b.order[k]] != b.instrs[b.order[k]]
      ensures SomeFusedAt(b, b', k)
    {
      if k == p {
        assert FusedAt(b, b', qh, ql, p);
      } else {
        assert b1.instrs[b.order[k]] != b.instrs[b.order[k]];
        var h, l :| 0 <= h < k && 0 <= l < k && FusedAt(b, b1, h, l, k);
        assert FusedAt(b, b', h, l, k);
      }
    }
  }

  lemma ChangedIsLoad(b: Block, b1: Block, k: nat)
    requires LoadsFused(b, b1) && k < |b.order| && b1.instrs[b.order[k]] != b.instrs[b.order[k]]
    ensures b1.instrs[b.order[k]].op.Load32?
  {
    var h, l :| 0 <= h < k && 0 <= l < k && FusedAt(b, b1, h, l, k);
  }

  lemma Unchanged(b: Block, b1: Block, k: nat)
    requires LoadsFused(b, b1) && k < |b.order| && !b1.instrs[b.order[k]].op.Load32?
    ensures b1.instrs[b.order[k]] == b.instrs[b.order[k]]
  {
    if b1.instrs[b.order[k]] != b.instrs[b.order[k]] {
      ChangedIsLoad(b, b1, k);
    }
  }

  /** A join that the pass accepts after some fusing it would have accepted before. */
  lemma PairWasThere(b: Block, b1: Block, qh: nat, ql: nat, p: nat)
    requires LoadsFused(b, b1) && qh < p && ql < p && p < |b.order| && LoadPairAt(b1, qh, ql, p) && Scanned(b1, qh, ql, p)
    ensures LoadPairAt(b, qh, ql, p) && Scanned(b, qh, ql, p)
  {
    Unchanged(b, b1, qh);
    Unchanged(b, b1, ql);
    Unchanged(b, b1, p);
    SourceUnchanged(b, b1, qh);
    SourceUnchanged(b, b1, ql);
    forall k | (if b.order[qh] < b.order[ql] then qh else ql) < k < p && k != qh && k != ql
      ensures !b.instrs[b.order[k]].op.IsMemOp()
    {
      assert !b1.instrs[b1.order[k]].op.IsMemOp();
      Unchanged(b, b1, k);
    }
  }

  /** A sum that gives a load its offset is what it was. */
  lemma SourceUnchanged(b: Block, b1: Block, q: nat)
    requires LoadsFused(b, b1) && q < |b.order| && IsLoad16(b1.instrs[b.order[q]])
    ensures var r := b1.instrs[b.order[q]].operands[1];
      && (Source(b1, r).Some? <==> Source(b, r).Some?)
      && (Source(b1, r).Some? && IsAdd(Source(b1, r).value) ==> Source(b, r) == Source(b1, r))
  {
    var r := b1.instrs[b.order[q]].operands[1];
    assert r in b1.instrs[b.order[q]].operands;
    if r.Def? {
      assert UsesDefined(b1, q);
      var j :| 0 <= j < q && b1.order[j] == r.id && r.id < |b1.instrs| && b1.instrs[r.id].op.Defines();
      if IsAdd(b1.instrs[r.id]) {
        Unchanged(b, b1, j);
      }
    }
  }

  // ------------------------------------------------------------------------
  // When the words still stand.

  ghost predicate NoWriteFrom(b: Block, q: nat, p: nat)
    requires WellFormed(b) && p <= |b.order|
  {
    forall k :: q <= k < p ==> !b.instrs[b.order[k]].op.MayWrite()
  }

  lemma {:induction false} MemStays(w: World, b: Block, m: Mem, q: nat, n: nat, p: nat)
    requires WellFormed(b) && q <= n <= p <= |b.order| && NoWriteFrom(b, q, p)
    ensures Run(w, b, State(map[], m), n).mem == Run(w, b, State(map[], m), q).mem
  {
    if n > q {
      MemStays(w, b, m, q, n - 1, p);
    }
  }

  ghost predicate Unwrapped(w: World, env: map<Id, int>, l: Instr) {
    Low(Arg(w, env, l, 1)) + 2 < 0x1_0000
  }

  /** The offset of the low load is not the last but one or the last of its segment. */
  ghost predicate NoWrap(w: World, m: Mem, b: Block, ql: nat, p: nat)
    requires WellFormed(b) && ql < |b.order| && p <= |b.order|
  {
    Unwrapped(w, Run(w, b, State(map[], m), p).env, b.instrs[b.order[ql]])
  }

  lemma WrapsBack(seg: int, off: int)
    ensures HighAddress(seg, off) == Low(seg) * 16 + Low(off) + 2 - if Low(off) + 2 < 0x1_0000 then 0 else 0x1_0000
  {
  }

  lemma WrapsBackAt(w: World, env: map<Id, int>, l: Instr)
    ensures HighAddress(Arg(w, env, l, 0), Arg(w, env, l, 1))
         == if Low(Arg(w, env, l, 1)) + 2 < 0x1_0000 then LoadAddr(w, env, l) + 2 else LoadAddr(w, env, l) + 2 - 0x1_0000
  {
    WrapsBack(Arg(w, env, l, 0), Arg(w, env, l, 1));
  }

  lemma UnwrittenMemory(w: World, m: Mem, b: Block, qh: nat, ql: nat, p: nat)
    requires WellFormed(b) && qh < p && ql < p && p < |b.order| && NoWriteFrom(b, if qh < ql then qh else ql, p)
    ensures Run(w, b, State(map[], m), qh).mem == Run(w, b, State(map[], m), p).mem == Run(w, b, State(map[], m), ql).mem
  {
    var q := if qh < ql then qh else ql;
    MemStays(w, b, m, q, qh, p);
    MemStays(w, b, m, q, ql, p);
    MemStays(w, b, m, q, p, p);
  }

  /** The words at the start of the segment and just beyond its end are the same. */
  ghost predicate WordsRepeat(w: World, st: State, l: Instr) {
    Rd16(st.mem, LoadAddr(w, st.env, l) + 2 - 0x1_0000) == Rd16(st.mem, LoadAddr(w, st.env, l) + 2)
  }

  lemma UnwrittenAt(w: World, st: State, mh: Mem, ml: Mem, l: Instr)
    requires mh == st.mem == ml
    ensures WordsFrom(w, st, mh, ml, l) <==> Unwrapped(w, st.env, l) || WordsRepeat(w, st, l)
  {
    var a, x := LoadAddr(w, st.env, l), HighAddress(Arg(w, st.env, l, 0), Arg(w, st.env, l, 1));
    OwnWords(st.mem, a, x);
    WrapsBackAt(w, st.env, l);
    WordsBack(st.mem, x, a + 2, Unwrapped(w, st.env, l));
  }

  /** With no write in between, the words still stand unless the offset wraps; and then only if the words at the
      start of the segment and beyond its end happen to be the same. */
  lemma UnwrittenIff(w: World, m: Mem, b: Block, qh: nat, ql: nat, p: nat)
    requires WellFormed(b) && qh < p && ql < p && p < |b.order| && NoWriteFrom(b, if qh < ql then qh else ql, p)
    ensures SameWords(w, m, b, qh, ql, p)
         <==> NoWrap(w, m, b, ql, p) || WordsRepeat(w, Run(w, b, State(map[], m), p), b.instrs[b.order[ql]])
  {
    UnwrittenMemory(w, m, b, qh, ql, p);
    UnwrittenAt(w, Run(w, b, State(map[], m), p), Run(w, b, State(map[], m), qh).mem, Run(w, b, State(map[], m), ql).mem,
                b.instrs[b.order[ql]]);
  }

  lemma WordsBack(m: Mem, x: int, a: int, noWrap: bool)
    requires x == if noWrap then a else a - 0x1_0000
    ensures Rd16(m, x) == Rd16(m, a) <==> noWrap || Rd16(m, a - 0x1_0000) == Rd16(m, a)
  {
  }

  lemma OneWordThere(a: int) returns (m: Mem)
    ensures Rd16(m, a) == 1 && Rd16(m, a - 0x1_0000) == 0
  {
    m := imap[a := 1];
  }

  ghost predicate ReadsWhole(m: Mem, x: int, a: int) {
    Join(Rd16(m, x), Rd16(m, a)) == Rd32(m, a)
  }

  lemma ReadsWholeIff(m: Mem, x: int, a: int)
    ensures ReadsWhole(m, x, a) <==> Rd16(m, x) == Rd16(m, a + 2)
  {
    OwnWords(m, a, x);
    WordRange(m, a);
    WordRange(m, x);
    JoinedWords(m, a, Rd16(m, x), Rd16(m, a));
  }

  /** Joining what two loads read at `off` and two above it is one 32-bit load in every memory exactly when the offset does not wrap. */
  lemma EveryMemoryIffNoWrap(seg: int, off: int, x: int, a: int)
    requires x == HighAddress(seg, off) && a == Low(seg) * 16 + Low(off)
    ensures (forall m :: ReadsWhole(m, x, a)) <==> Low(off) + 2 < 0x1_0000
  {
    WrapsBack(seg, off);
    if Low(off) + 2 < 0x1_0000 {
      forall m
        ensures ReadsWhole(m, x, a)
      {
        ReadsWholeIff(m, x, a);
      }
    } else {
      var m := OneWordThere(a + 2);
      ReadsWholeIff(m, x, a);
    }
  }

  /** A join the pass accepts is replaced rightly if the load that runs first was also made first, no call or
      other unknown instruction stands in between, and the offset does not wrap. */
  lemma SafeSite(w: World, m: Mem, b: Block, qh: nat, ql: nat, p: nat)
    requires WellFormed(b) && qh < p && ql < p && p < |b.order| && LoadPairAt(b, qh, ql, p) && Scanned(b, qh, ql, p)
    requires qh < ql <==> b.order[qh] < b.order[ql]
    requires forall k :: (if qh < ql then qh else ql) <= k < p ==> !b.instrs[b.order[k]].op.Effect?
    requires NoWrap(w, m, b, ql, p)
    ensures SameWords(w, m, b, qh, ql, p)
  {
    UnwrittenIff(w, m, b, qh, ql, p);
  }

  lemma UsedEarlier(b: Block, p: nat, x: Id)
    requires WellFormed(b) && p < |b.order| && Def(x) in b.instrs[b.order[p]].operands
    ensures x < |b.instrs| && x in b.order
    ensures forall q :: 0 <= q < |b.order| && b.order[q] == x ==> q < p
  {
    assert UsesDefined(b, p);
  }
}
