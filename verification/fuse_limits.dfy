/** Where joining two loads goes wrong: blocks the pass accepts although the words no longer stand, one for each
    condition of Fuse.SafeSite. */
module FuseCounterexamples {
  import opened BlockIr
  import opened Fuse
  import opened FuseSites

  /** Whatever the third pass makes of `b`, it does not do what `b` does. */
  ghost predicate Misfused(w: World, m: Mem, b: Block) {
    && WellFormed(b) && Honest(w, b)
    && forall b' {:trigger LoadsFused(b, b')} :: LoadsFused(b, b') && LoadsDone(b', |b.order|) ==> !SameOutcome(w, m, b, b')
  }

  /** The pass replaces the only join of a block if it accepts it. */
  lemma OnlyJoinIsFused(b: Block, b': Block, qh: nat, ql: nat, p: nat)
    requires LoadsFused(b, b') && LoadsDone(b', |b.order|) && qh < p && ql < p && p < |b.order| && LoadSite(b, qh, ql, p)
    requires forall k :: 0 <= k < |b.order| && k != p ==> !b.instrs[b.order[k]].op.Make32?
    ensures FusedAt(b, b', qh, ql, p)
  {
    forall k | 0 <= k < |b.order| && k != p
      ensures b'.instrs[b.order[k]] == b.instrs[b.order[k]]
    {
      assert forall h, l :: 0 <= h < k && 0 <= l < k ==> !FusedAt(b, b', h, l, k);
    }
    if b'.instrs[b.order[p]] == b.instrs[b.order[p]] {
      SiteStays(b, b', qh, ql, p);
    }
    var h, l :| 0 <= h < p && 0 <= l < p && FusedAt(b, b', h, l, p);
    assert h == qh && l == ql;
  }

  lemma SiteStays(b: Block, b': Block, qh: nat, ql: nat, p: nat)
    requires LoadsFused(b, b') && qh < p && ql < p && p < |b.order| && LoadSite(b, qh, ql, p)
    requires forall k :: 0 <= k < |b.order| ==> b'.instrs[b.order[k]] == b.instrs[b.order[k]]
    ensures LoadSite(b', qh, ql, p)
  {
    SourcesStay(b, b', qh, p);
    SourcesStay(b, b', ql, p);
  }

  lemma SourcesStay(b: Block, b': Block, q: nat, p: nat)
    requires LoadsFused(b, b') && q < p < |b.order| && IsLoad16(b.instrs[b.order[q]])
    requires forall k :: 0 <= k < p ==> b'.instrs[b.order[k]] == b.instrs[b.order[k]]
    ensures Source(b', b.instrs[b.order[q]].operands[1]) == Source(b, b.instrs[b.order[q]].operands[1])
  {
    var r := b.instrs[b.order[q]].operands[1];
    assert r in b.instrs[b.order[q]].operands && UsesDefined(b, q);
  }

  lemma MisfusedAt(w: World, m: Mem, b: Block, qh: nat, ql: nat, p: nat)
    requires WellFormed(b) && Honest(w, b) && qh < p && ql < p && p < |b.order| && LoadSite(b, qh, ql, p)
    requires forall k :: 0 <= k < |b.order| && k != p ==> !b.instrs[b.order[k]].op.Make32?
    requires !SameWords(w, m, b, qh, ql, p)
    ensures Misfused(w, m, b)
  {
    forall b' | LoadsFused(b, b') && LoadsDone(b', |b.order|)
      ensures !SameOutcome(w, m, b, b')
    {
      OnlyJoinIsFused(b, b', qh, ql, p);
      FusedRightIff(w, m, b, b');
    }
  }

  /** Loads from segment 0 at some offset and two above it, joined at the end; `between` runs after both, or, if they
      were made in the other order, between them. */
  function Sample(late: bool, between: Instr): Block {
    var low, high := Instr(Load16, [Const(0), Def(0)]), Instr(Load16, [Const(0), Def(1)]);
    var offset, sum := Instr(Pure(0), []), Instr(Add, [Def(0), Const(2)]);
    if late then Block([0, 1, 3, 4, 2, 5], [offset, sum, high, low, between, Instr(Make32, [Def(2), Def(3)])], [])
    else Block([0, 1, 2, 3, 4, 5], [offset, sum, low, high, between, Instr(Make32, [Def(3), Def(2)])], [])
  }

  lemma SampleUses(late: bool, between: Instr, p: nat, x: Id)
    requires p < 6 && (forall y: Id :: Def(y) !in between.operands)
    requires var b := Sample(late, between); Def(x) in b.instrs[b.order[p]].operands
    ensures var b := Sample(late, between); exists q :: 0 <= q < p && b.order[q] == x && x < 6 && b.instrs[x].op.Defines()
  {
    var b := Sample(late, between);
    var q := if x <= 1 then x else if late then (if x == 3 then 2 else 4) else x;
    assert b.order[q] == x && q < p;
  }

  lemma SampleWellFormed(late: bool, between: Instr)
    requires forall x: Id :: Def(x) !in between.operands
    ensures WellFormed(Sample(late, between))
  {
    var b := Sample(late, between);
    forall p | 0 <= p < 6
      ensures UsesDefined(b, p)
    {
      forall x: Id | Def(x) in b.instrs[b.order[p]].operands
        ensures exists q :: 0 <= q < p && b.order[q] == x && x < |b.instrs| && b.instrs[x].op.Defines()
      {
        SampleUses(late, between, p, x);
      }
    }
  }

  /** The pass accepts the sample: what stands in between is no memory operation to it, or not where it looks. */
  lemma SampleAccepted(late: bool, between: Instr)
    requires WellFormed(Sample(late, between)) && (late || !between.op.IsMemOp())
    ensures LoadSite(Sample(late, between), if late then 4 else 3, 2, 5)
  {
  }

  ghost predicate Loads(w: World, m: Mem, late: bool, between: Instr, off: int) {
    var b := Sample(late, between);
    && WellFormed(b) && Honest(w, b) && !between.op.Make32?
    && Run(w, b, State(map[], m), 2).mem == m && LoadAddr(w, Run(w, b, State(map[], m), 5).env, b.instrs[b.order[2]]) == off
    && Arg(w, Run(w, b, State(map[], m), 5).env, b.instrs[b.order[2]], 1) == off
  }

  /** Where the sample loads, in a world that starts it at `off`. */
  lemma SampleLoads(w: World, m: Mem, late: bool, between: Instr, off: int)
    requires (forall x: Id :: Def(x) !in between.operands) && !between.op.Make32? && w.pure(0, []) == off && 0 <= off < 0x1_0000
    ensures Loads(w, m, late, between, off)
  {
    var b := Sample(late, between);
    SampleWellFormed(late, between);
    assert Vals(w, map[], []) == [];
    ResultStays(w, b, m, 0, 5);
    MemStays(w, b, m, 0, 2, 2);
    OffsetIs(w, Run(w, b, State(map[], m), 5).env, b.instrs[b.order[2]], off);
  }

  lemma OffsetIs(w: World, env: map<Id, int>, i: Instr, off: int)
    requires i == Instr(Load16, [Const(0), Def(0)]) && 0 in env && env[0] == off && 0 <= off < 0x1_0000
    ensures LoadAddr(w, env, i) == off && Arg(w, env, i, 1) == off
  {
    LowOfWord(0);
    LowOfWord(off);
  }

  lemma SampleMisfused(w: World, m: Mem, late: bool, between: Instr, off: int)
    requires Loads(w, m, late, between, off) && (late || !between.op.IsMemOp())
    requires !SameWords(w, m, Sample(late, between), if late then 4 else 3, 2, 5)
    ensures Misfused(w, m, Sample(late, between))
  {
    SampleAccepted(late, between);
    MisfusedAt(w, m, Sample(late, between), if late then 4 else 3, 2, 5);
  }

  /** A world where the loads start at `off`, symbols live at `base`, and calls write one byte. */
  lemma AWorld(off: int, base: int) returns (w: World)
    ensures w.pure(0, []) == off && forall sym :: w.base(sym) == base
    ensures forall k, args, m :: w.effect(k, args, m).1 == m[0 := 1]
  {
    w := World(_ => 0, _ => base, (_, _) => off, (_, _, m: Mem) => (0, m[0 := 1]));
  }

  lemma OneByte() returns (m: Mem)
    ensures Rd16(m, 0) == 1 && Rd16(m, 0x1_0000) == 0
  {
    m := imap[0 := 1];
  }

  lemma WrappedWords(w: World, m: Mem, between: Instr)
    requires Loads(w, m, false, between, 0xfffe) && Rd16(m, 0) == 1 && Rd16(m, 0x1_0000) == 0 && !between.op.MayWrite()
    ensures !SameWords(w, m, Sample(false, between), 3, 2, 5)
  {
    var b := Sample(false, between);
    MemStays(w, b, m, 0, 5, 5);
    LowOfWord(0xfffe);
    UnwrittenIff(w, m, b, 3, 2, 5);
  }

  lemma WrapMisfuses(w: World, m: Mem, between: Instr)
    requires Loads(w, m, false, between, 0xfffe) && Rd16(m, 0) == 1 && Rd16(m, 0x1_0000) == 0
    requires !between.op.MayWrite() && !between.op.IsMemOp()
    ensures Misfused(w, m, Sample(false, between))
  {
    WrappedWords(w, m, between);
    SampleMisfused(w, m, false, between, 0xfffe);
  }

  /** At the end of a segment the high half comes from its start; the 32-bit load reads on beyond it. */
  lemma WrapBreaksFusion(between: Instr) returns (w: World, m: Mem)
    requires (forall x: Id :: Def(x) !in between.operands) && (between.op.Nop? || between.op.Pure?)
    ensures Misfused(w, m, Sample(false, between))
  {
    w := AWorld(0xfffe, 0);
    m := OneByte();
    SampleLoads(w, m, false, between, 0xfffe);
    WrapMisfuses(w, m, between);
  }

  /** `between` puts another word where the low load has read. */
  ghost predicate Overwrites(w: World, m: Mem, between: Instr) {
    Rd16(m, 0) == 0 && forall st: State {:trigger MemAfter(w, st, between)} :: st.mem == m ==> Rd16(MemAfter(w, st, between), 0) == 1
  }

  lemma OverwrittenWords(w: World, m: Mem, late: bool, between: Instr)
    requires Loads(w, m, late, between, 0) && Overwrites(w, m, between)
    ensures !SameWords(w, m, Sample(late, between), if late then 4 else 3, 2, 5)
  {
    var b, k := Sample(late, between), if late then 3 else 4;
    MemStays(w, b, m, 0, k, k);
    MemStays(w, b, m, k + 1, 5, 5);
    assert Run(w, b, State(map[], m), 5).mem == MemAfter(w, Run(w, b, State(map[], m), k), between);
  }

  lemma CallOverwrites(w: World, call: Instr) returns (m: Mem)
    requires call.op.Effect? && forall k, args, m :: w.effect(k, args, m).1 == m[0 := 1]
    ensures Overwrites(w, m, call)
  {
    m := imap[];
    var after := m[0 := 1];
    assert Rd16(after, 0) == 1;
    forall st: State | st.mem == m
      ensures MemAfter(w, st, call) == after
    {
    }
  }

  lemma OneIsWritten(m: Mem)
    ensures Rd16(Wr16(m, 0, 1), 0) == 1
  {
    LowOfWord(1);
  }

  lemma WrittenIs(w: World, st: State, write: Instr, s: SymRef)
    requires write == Instr(WriteVar16, [Sym(s), Const(1)]) && w.base(s.sym) + s.off == 0
    ensures MemAfter(w, st, write) == Wr16(st.mem, 0, 1)
  {
  }

  lemma NoBytes() returns (m: Mem)
    ensures Rd16(m, 0) == 0
  {
    m := imap[];
  }

  lemma WriteOverwrites(w: World, write: Instr, s: SymRef) returns (m: Mem)
    requires write == Instr(WriteVar16, [Sym(s), Const(1)]) && w.base(s.sym) + s.off == 0
    ensures Overwrites(w, m, write)
  {
    m := NoBytes();
    forall st: State | st.mem == m
      ensures Rd16(MemAfter(w, st, write), 0) == 1
    {
      WrittenIs(w, st, write, s);
      OneIsWritten(st.mem);
    }
  }

  /** A call after the loads can change what the 32-bit load reads: to the pass, calls are not memory operations. */
  lemma CallBreaksFusion(call: Instr) returns (w: World, m: Mem)
    requires call.op.Effect? && forall x: Id :: Def(x) !in call.operands
    ensures Misfused(w, m, Sample(false, call))
  {
    w := AWorld(0, 0);
    m := CallOverwrites(w, call);
    SampleLoads(w, m, false, call, 0);
    OverwrittenWords(w, m, false, call);
    SampleMisfused(w, m, false, call, 0);
  }

  /** When the load that runs first was made last, a write right after it is not noticed. */
  lemma LateLoadBreaksFusion(write: Instr, s: SymRef) returns (w: World, m: Mem)
    requires write == Instr(WriteVar16, [Sym(s), Const(1)])
    ensures Misfused(w, m, Sample(true, write))
  {
    w := AWorld(0, -s.off);
    m := WriteOverwrites(w, write, s);
    SampleLoads(w, m, true, write, 0);
    OverwrittenWords(w, m, true, write);
    SampleMisfused(w, m, true, write, 0);
  }
}
