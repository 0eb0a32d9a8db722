/** One block of the decompiler's SSA form (dis86/src/decompile/ir) and what running it does,
    as far as the fusing passes are concerned. */
module BlockIr {

  type Id = nat

  datatype SymRef = SymRef(sym: nat, off: int, sz: int)

  /** `Def` is the result of an instruction of this block, `Outer` a value from outside it. */
  datatype Ref = Const(k: int) | Def(id: Id) | Sym(s: SymRef) | Outer(n: nat)

  /** `Pure` are the instructions that neither read nor write memory; `Access` the other loads, stores and
      variable accesses; `Effect` everything else that may read or write memory: calls, interrupts, string
      instructions, array accesses. */
  datatype Opcode =
    | Nop | Add | Make32 | Lower16 | Upper16
    | Load16 | Load32 | ReadVar16 | ReadVar32 | WriteVar16 | WriteVar32
    | Pure(k: nat) | Access(k: nat) | Effect(k: nat)
  {
    /** The source's own notion of a memory operation. */
    predicate IsMemOp() {
      Load16? || Load32? || ReadVar16? || ReadVar32? || WriteVar16? || WriteVar32? || Access?
    }

    predicate MayWrite() {
      WriteVar16? || WriteVar32? || Access? || Effect?
    }

    /** Whether the instruction has a result. */
    predicate Defines() {
      !Nop? && !WriteVar16? && !WriteVar32?
    }
  }

  datatype Instr = Instr(op: Opcode, operands: seq<Ref>)

  /** `instrs` grows as instructions are inserted; `order` is the order in which they run. `Outer(n)` is the result
      of the instruction `outer[n]` of a block that runs before this one, if there is one. */
  datatype Block = Block(order: seq<Id>, instrs: seq<Instr>, outer: seq<Instr>)

  /** Memory by byte address; a byte that was never written is zero. */
  type Mem = imap<int, MemByte>

  type MemByte = x: int | 0 <= x < 0x100

  /** Everything a block depends on: outer values, where symbols live, and the unknown instructions. */
  datatype World = World(outer: nat -> int, base: nat -> int, pure: (nat, seq<int>) -> int,
                         effect: (nat, seq<int>, Mem) -> (int, Mem))

  datatype State = State(env: map<Id, int>, mem: Mem)

  function Low(v: int): int { v % 0x1_0000 }

  function High(v: int): int { (v / 0x1_0000) % 0x1_0000 }

  function Join(high: int, low: int): int { Low(high) * 0x1_0000 + Low(low) }

  ghost function Byte(m: Mem, a: int): MemByte { if a in m then m[a] else 0 }

  ghost function Rd16(m: Mem, a: int): int { Byte(m, a) + 0x100 * Byte(m, a + 1) }

  ghost function Rd32(m: Mem, a: int): int { Rd16(m, a) + 0x1_0000 * Rd16(m, a + 2) }

  ghost function Wr16(m: Mem, a: int, v: int): Mem {
    m[a := Low(v) % 0x100][a + 1 := Low(v) / 0x100]
  }

  ghost function Wr32(m: Mem, a: int, v: int): Mem {
    Wr16(Wr16(m, a, Low(v)), a + 2, High(v))
  }

  ghost function Val(w: World, env: map<Id, int>, r: Ref): int {
    match r
    case Const(k) => k
    case Def(id) => if id in env then env[id] else 0
    case Outer(n) => w.outer(n)
    case Sym(_) => 0
  }

  ghost function Vals(w: World, env: map<Id, int>, rs: seq<Ref>): seq<int> {
    seq(|rs|, i requires 0 <= i < |rs| => Val(w, env, rs[i]))
  }

  ghost function Arg(w: World, env: map<Id, int>, i: Instr, n: nat): int {
    if n < |i.operands| then Val(w, env, i.operands[n]) else 0
  }

  ghost function VarAddr(w: World, i: Instr): int {
    if i.operands != [] && i.operands[0].Sym? then w.base(i.operands[0].s.sym) + i.operands[0].s.off else 0
  }

  ghost function LoadAddr(w: World, env: map<Id, int>, i: Instr): int {
    Low(Arg(w, env, i, 0)) * 16 + Low(Arg(w, env, i, 1))
  }

  /** The world gives the sums of earlier blocks the values that they have. */
  ghost predicate Honest(w: World, b: Block) {
    forall n {:trigger b.outer[n]} :: 0 <= n < |b.outer| && b.outer[n].op.Add? && |b.outer[n].operands| == 2 ==>
      w.outer(n) == Low(Val(w, map[], b.outer[n].operands[0]) + Val(w, map[], b.outer[n].operands[1]))
  }

  /** The result of an instruction, when it has one. */
  ghost function Result(w: World, st: State, i: Instr): int {
    var a, b := Arg(w, st.env, i, 0), Arg(w, st.env, i, 1);
    match i.op
    case Add => Low(a + b)
    case Make32 => Join(a, b)
    case Lower16 => Low(a)
    case Upper16 => High(a)
    case Load16 => Rd16(st.mem, LoadAddr(w, st.env, i))
    case Load32 => Rd32(st.mem, LoadAddr(w, st.env, i))
    case ReadVar16 => Rd16(st.mem, VarAddr(w, i))
    case ReadVar32 => Rd32(st.mem, VarAddr(w, i))
    case Pure(k) => w.pure(k, Vals(w, st.env, i.operands))
    case Access(k) => w.effect(k, Vals(w, st.env, i.operands), st.mem).0
    case Effect(k) => w.effect(k, Vals(w, st.env, i.operands), st.mem).0
    case _ => 0
  }

  ghost function MemAfter(w: World, st: State, i: Instr): Mem {
    match i.op
    case WriteVar16 => Wr16(st.mem, VarAddr(w, i), Arg(w, st.env, i, 1))
    case WriteVar32 => Wr32(st.mem, VarAddr(w, i), Arg(w, st.env, i, 1))
    case Access(k) => w.effect(k, Vals(w, st.env, i.operands), st.mem).1
    case Effect(k) => w.effect(k, Vals(w, st.env, i.operands), st.mem).1
    case _ => st.mem
  }

  ghost function Step(w: World, st: State, id: Id, i: Instr): State {
    State(if i.op.Defines() then st.env[id := Result(w, st, i)] else st.env, MemAfter(w, st, i))
  }

  ghost predicate InRange(b: Block) {
    forall k :: 0 <= k < |b.order| ==> b.order[k] < |b.instrs|
  }

  /** The state after the first `n` instructions. */
  ghost function Run(w: World, b: Block, st: State, n: nat): State
    requires n <= |b.order| && InRange(b)
  {
    if n == 0 then st
    else Step(w, Run(w, b, st, n - 1), b.order[n - 1], b.instrs[b.order[n - 1]])
  }

  ghost predicate Distinct(s: seq<Id>) {
    forall i, j :: 0 <= i < j < |s| ==> s[i] != s[j]
  }

  /** A value used at position `p` was produced earlier in the block. */
  ghost predicate UsesDefined(b: Block, p: nat)
    requires p < |b.order| && InRange(b)
  {
    forall x: Id :: Def(x) in b.instrs[b.order[p]].operands ==>
      exists q :: 0 <= q < p && b.order[q] == x && x < |b.instrs| && b.instrs[x].op.Defines()
  }

  /** No block that runs before this one uses its results. */
  ghost predicate OuterFirst(b: Block) {
    forall n, x: Id :: 0 <= n < |b.outer| ==> Def(x) !in b.outer[n].operands
  }

  ghost predicate WellFormed(b: Block) {
    && InRange(b) && OuterFirst(b)
    && Distinct(b.order)
    && (forall p {:trigger UsesDefined(b, p)} :: 0 <= p < |b.order| ==> UsesDefined(b, p))
  }

  /** The instruction at position `p` has a result. */
  ghost predicate DefinesAt(b: Block, p: nat)
    requires p < |b.order|
  {
    b.order[p] < |b.instrs| && b.instrs[b.order[p]].op.Defines()
  }

  ghost predicate SameResult(s: State, s': State, x: Id) {
    x in s.env && x in s'.env && s.env[x] == s'.env[x]
  }

  ghost function Final(w: World, m: Mem, b: Block): State
    requires WellFormed(b)
  {
    Run(w, b, State(map[], m), |b.order|)
  }

  /** Both leave the same memory, and every result of `b` is the same in `b'`. */
  ghost predicate SameOutcome(w: World, m: Mem, b: Block, b': Block)
    requires WellFormed(b) && WellFormed(b')
  {
    && Final(w, m, b).mem == Final(w, m, b').mem
    && forall p :: 0 <= p < |b.order| && DefinesAt(b, p) ==> SameResult(Final(w, m, b), Final(w, m, b'), b.order[p])
  }

  /** A rewrite that keeps what the block does, whatever the world around it. */
  ghost predicate Preserves(b: Block, b': Block) {
    && WellFormed(b) && WellFormed(b')
    && (forall p :: 0 <= p < |b.order| && DefinesAt(b, p) ==> exists q :: 0 <= q < |b'.order| && b'.order[q] == b.order[p] && DefinesAt(b', q))
    && forall w, m :: SameOutcome(w, m, b, b')
  }
}
