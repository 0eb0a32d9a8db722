/** Native code calling the guest and getting control back (hydra/src/machine.c, hydra/src/exec.c).
    A call pushes a "magic" return address that names the calling context and suspends it;
    when the guest returns there, the context is resumed. One thread runs at a time. */
module HydraCalls {
  import opened Wrappers
  import opened GuestMachine
  import opened Contexts

  datatype Context = Context(state: ExecState, savedCs: u16, savedIp: u16, maybeReloc: bool)

  /** Everything the calls read and write. `active` is the context that runs or ran last. */
  datatype World = World(regs: Regs, mem: Mem, ctxs: seq<Context>, active: Option<nat>)

  // ------------------------------------------------------------------------
  // The magic addresses.

  /** The far writer wraps each offset at 16 bits. */
  function PushFar(regs: Regs, mem: Mem, id: u16): (Regs, Mem) {
    var m1 := Write16(mem, Linear(regs.ss, Sub16(regs.sp, 2)), 0xffff);
    var m2 := Write16(m1, Linear(regs.ss, Sub16(regs.sp, 4)), id);
    (regs.(sp := Sub16(regs.sp, 4)), m2)
  }

  /** The near writer subtracts from the linear address. */
  function PushNear(regs: Regs, mem: Mem, id: u16): (Regs, Mem)
    requires id <= 0xff
  {
    (regs.(sp := Sub16(regs.sp, 2)), Write16(mem, Sub32(Linear(regs.ss, regs.sp), 2), 0xff00 + id))
  }

  /** The readers take both words from consecutive linear addresses. */
  function PopFar(regs: Regs, mem: Mem): Regs {
    var a := Linear(regs.ss, regs.sp);
    regs.(ip := Read16(mem, a), cs := Read16(mem, Add32(a, 2)), sp := Add16(regs.sp, 4))
  }

  function PopNear(regs: Regs, mem: Mem): Regs {
    regs.(ip := Read16(mem, Linear(regs.ss, regs.sp)), sp := Add16(regs.sp, 2))
  }

  /** The context a code address belongs to, if it is the magic address of a suspended one. */
  function TryResume(regs: Regs, ctxs: seq<Context>): Option<nat> {
    if regs.cs == 0xffff then
      if regs.ip < |ctxs| && ctxs[regs.ip].state.Active? then Some(regs.ip) else None
    else if regs.cs != 0xf000 && regs.ip >= 0xff00 then
      var idx := regs.ip % 0x100;
      if idx < |ctxs| && ctxs[idx].state.Active? && (ctxs[idx].maybeReloc || regs.cs == ctxs[idx].savedCs) then Some(idx) else None
    else None
  }

  /** Exactly when a code address resumes context `i`: a far address names it by its offset, a near one by the low byte of
      an offset in the last page, in the segment the call was made from unless the call allowed relocation. */
  lemma ResumesIff(regs: Regs, ctxs: seq<Context>, i: nat)
    ensures TryResume(regs, ctxs) == Some(i) <==>
      && i < |ctxs| && ctxs[i].state.Active?
      && ((regs.cs == 0xffff && regs.ip == i)
          || (regs.cs != 0xffff && regs.cs != 0xf000 && regs.ip == 0xff00 + i && (ctxs[i].maybeReloc || ctxs[i].savedCs == regs.cs)))
  {
  }

  // ------------------------------------------------------------------------
  // The operations.

  datatype Kind = Far | Near(reloc: bool)

  /** A hook calls the guest: the return address is pushed, CS:IP kept in its context, and the
      guest goes to the callee. `None` where an assertion of the source fails. */
  function Call(w: World, kind: Kind, seg: u16, off: u16, codeStart: u16): Option<World> {
    if w.active.None? || w.active.value >= |w.ctxs| || w.active.value > 0xffff then None
    else
      var id := w.active.value;
      match kind
      case Far =>
        var (regs, mem) := PushFar(w.regs, w.mem, id);
        var c := w.ctxs[id].(savedCs := regs.cs, savedIp := regs.ip, maybeReloc := false);
        Some(w.(regs := regs.(cs := Add16(seg, codeStart), ip := off), mem := mem, ctxs := w.ctxs[id := c]))
      case Near(reloc) =>
        if id > 255 || w.regs.cs < codeStart then None
        else
          var (regs, mem) := PushNear(w.regs, w.mem, id);
          var c := w.ctxs[id].(savedCs := regs.cs, savedIp := regs.ip, maybeReloc := reloc);
          Some(w.(regs := regs.(ip := off), mem := mem, ctxs := w.ctxs[id := c]))
  }

  /** What a resumed hook does first; the kind is that of the call it is waiting in. */
  function Resumed(w: World, id: nat, kind: Kind): Option<World>
    requires id < |w.ctxs|
  {
    var c := w.ctxs[id];
    if kind == Near(false) && w.regs.cs != c.savedCs then None
    else Some(w.(active := Some(id), regs := w.regs.(ip := c.savedIp, cs := if kind.Far? then c.savedCs else w.regs.cs)))
  }

  /** A return that removes `pops` bytes of arguments after the address. */
  function Pop(w: World, far: bool, pops: u16): World {
    var regs := if far then PopFar(w.regs, w.mem) else PopNear(w.regs, w.mem);
    w.(regs := regs.(sp := Add16(regs.sp, pops)))
  }

  // ------------------------------------------------------------------------
  // Where a pushed address is read back.

  /** Where the slot of a call starts, and what it holds. */
  ghost predicate Slot(mem: Mem, ss: u16, sp: u16, kind: Kind, id: u16)
    requires kind.Near? ==> id <= 0xff
  {
    if kind.Far? then
      && Read16(mem, Linear(ss, Sub16(sp, 2))) == 0xffff
      && Read16(mem, Linear(ss, Sub16(sp, 4))) == id
    else Read16(mem, Sub32(Linear(ss, sp), 2)) == 0xff00 + id
  }

  /** The slot does not straddle the end of the segment, where writer and reader differ. */
  predicate SlotFits(sp: u16, kind: Kind) {
    if kind.Far? then sp != 2 && sp != 3 else sp >= 2
  }

  lemma PushWritesSlot(regs: Regs, mem: Mem, kind: Kind, id: u16)
    requires kind.Near? ==> id <= 0xff
    ensures Slot((if kind.Far? then PushFar(regs, mem, id) else PushNear(regs, mem, id)).1, regs.ss, regs.sp, kind, id)
  {
    if kind.Far? {
      var a, b := Linear(regs.ss, Sub16(regs.sp, 2)), Linear(regs.ss, Sub16(regs.sp, 4));
      var m1 := Write16(mem, a, 0xffff);
      ReadBack(mem, a, 0xffff);
      ReadBack(m1, b, id);
      assert Apart(b, a);
      ReadOther(m1, b, id, a);
    } else {
      ReadBack(mem, Sub32(Linear(regs.ss, regs.sp), 2), 0xff00 + id);
    }
  }

  /** A far return through an intact slot goes to the magic address, unless SP wraps within the slot. */
  lemma FarSlotReadsBack(regs: Regs, mem: Mem, sp: u16, id: u16)
    requires sp == Top(regs.sp, true) && Slot(mem, regs.ss, sp, Far, id) && SlotFits(sp, Far)
    ensures PopFar(regs, mem) == regs.(cs := 0xffff, ip := id, sp := sp)
  {
  }

  lemma NearSlotReadsBack(regs: Regs, mem: Mem, sp: u16, id: u16, reloc: bool)
    requires id <= 0xff && Slot(mem, regs.ss, sp, Near(reloc), id) && sp == Top(regs.sp, false) && SlotFits(sp, Near(reloc))
    ensures PopNear(regs, mem) == regs.(ip := 0xff00 + id, sp := sp)
  {
  }

  /** Whatever memory held before, popping what was pushed gives the magic address; true exactly when the slot fits. */
  lemma ReadsBackIffFits(regs: Regs, kind: Kind, id: u16)
    requires kind.Near? ==> id <= 0xff
    ensures SlotFits(regs.sp, kind) <==>
      forall mem: Mem :: var (r, m) := if kind.Far? then PushFar(regs, mem, id) else PushNear(regs, mem, id);
        var back := if kind.Far? then PopFar(r, m) else PopNear(r, m);
        back.ip == (if kind.Far? then id else 0xff00 + id) && back.cs == (if kind.Far? then 0xffff else regs.cs)
  {
    if SlotFits(regs.sp, kind) {
      forall mem: Mem
        ensures var (r, m) := if kind.Far? then PushFar(regs, mem, id) else PushNear(regs, mem, id);
          var back := if kind.Far? then PopFar(r, m) else PopNear(r, m);
          back.ip == (if kind.Far? then id else 0xff00 + id) && back.cs == (if kind.Far? then 0xffff else regs.cs)
      {
        PushWritesSlot(regs, mem, kind, id);
        var (r, m) := if kind.Far? then PushFar(regs, mem, id) else PushNear(regs, mem, id);
        if kind.Far? {
          FarSlotReadsBack(r, m, regs.sp, id);
        } else {
          NearSlotReadsBack(r, m, regs.sp, id, kind.reloc);
        }
      }
    } else {
      ZeroMemoryMisreads(regs, kind, id);
    }
  }

  function Zero(): Mem {
    _ => 0
  }

  lemma ZeroMemoryMisreads(regs: Regs, kind: Kind, id: u16)
    requires !SlotFits(regs.sp, kind) && (kind.Near? ==> id <= 0xff)
    ensures var (r, m) := if kind.Far? then PushFar(regs, Zero(), id) else PushNear(regs, Zero(), id);
      var back := if kind.Far? then PopFar(r, m) else PopNear(r, m);
      !(back.ip == (if kind.Far? then id else 0xff00 + id) && back.cs == (if kind.Far? then 0xffff else regs.cs))
  {
    var (r, m) := if kind.Far? then PushFar(regs, Zero(), id) else PushNear(regs, Zero(), id);
    var a := Linear(r.ss, r.sp);
    if kind.Far? {
      var a1, a2 := Linear(regs.ss, Sub16(regs.sp, 2)), Linear(regs.ss, Sub16(regs.sp, 4));
      var m1 := Write16(Zero(), a1, 0xffff);
      var lo := Add32(a, 2);
      var hi := Add32(lo, 1);
      ByteElsewhere(Zero(), a1, 0xffff, lo);
      ByteElsewhere(Zero(), a1, 0xffff, hi);
      ByteElsewhere(m1, a2, id, lo);
      ByteElsewhere(m1, a2, id, hi);
      assert m(lo) == 0 && m(hi) == 0;
    } else {
      var a1 := Sub32(Linear(regs.ss, regs.sp), 2);
      ByteElsewhere(Zero(), a1, 0xff00 + id, a);
      ByteElsewhere(Zero(), a1, 0xff00 + id, Add32(a, 1));
      assert m(a) == 0 && m(Add32(a, 1)) == 0;
    }
  }

  // ------------------------------------------------------------------------
  // Runs.

  /** A suspended call: its kind, and the registers its hook had just before it. */
  datatype Frame = Frame(kind: Kind, regs: Regs)

  /** `running` is the hook in control, if the guest is not; `waiting` the suspended calls by context. */
  datatype Sys = Sys(w: World, running: Option<nat>, waiting: map<nat, Frame>)

  datatype Event =
    | Works(regs: Regs, mem: Mem)              // whoever runs does anything to the machine
    | Enters                                   // the guest reaches the entry of a hook
    | Calls(kind: Kind, seg: u16, off: u16)    // the hook calls the guest
    | Returns(far: bool, pops: u16)            // the guest returns to whatever is on its stack
    | Finishes                                 // the hook's function is done

  function States(ctxs: seq<Context>): seq<ExecState> {
    seq(|ctxs|, i requires 0 <= i < |ctxs| => ctxs[i].state)
  }

  function Acquire(w: World, i: nat): World
    requires i < |w.ctxs|
  {
    w.(ctxs := w.ctxs[i := w.ctxs[i].(state := Active)], active := Some(i))
  }

  function Release(w: World, i: nat): World
    requires i < |w.ctxs|
  {
    w.(ctxs := w.ctxs[i := w.ctxs[i].(state := Idle)])
  }

  ghost function Do(s: Sys, e: Event, codeStart: u16): Option<Sys> {
    match e
    case Works(regs, mem) => Some(s.(w := s.w.(regs := regs, mem := mem)))
    case Enters =>
      var i := FirstFree(States(s.w.ctxs), 0);
      if s.running.None? && TryResume(s.w.regs, s.w.ctxs).None? && i.Some? then Some(s.(w := Acquire(s.w, i.value), running := i)) else None
    case Calls(kind, seg, off) =>
      if s.running.None? then None
      else
        var w := Call(s.w, kind, seg, off, codeStart);
        if w.None? then None
        else Some(Sys(w.value, None, s.waiting[s.running.value := Frame(kind, s.w.regs)]))
    case Returns(far, pops) =>
      if s.running.Some? then None
      else
        var w := Pop(s.w, far, pops);
        var i := TryResume(w.regs, w.ctxs);
        if i.None? then Some(s.(w := w))
        else if i.value !in s.waiting then None
        else
          var r := Resumed(w, i.value, s.waiting[i.value].kind);
          if r.None? then None else Some(Sys(r.value, i, s.waiting - {i.value}))
    case Finishes =>
      if s.running.None? || s.running.value >= |s.w.ctxs| then None
      else Some(s.(w := Release(s.w, s.running.value), running := None))
  }

  /** The calls suspended at nesting depth `depth`. */
  ghost function Suspended(s: Sys, depth: nat): nat {
    if s.running.Some? && depth > 0 then depth - 1 else depth
  }

  ghost predicate WaitingAt(s: Sys, i: nat)
    requires i < |s.w.ctxs|
  {
    && i in s.waiting
    && s.w.ctxs[i].savedCs == s.waiting[i].regs.cs && s.w.ctxs[i].savedIp == s.waiting[i].regs.ip
    && s.w.ctxs[i].maybeReloc == (s.waiting[i].kind == Near(true))
    && (s.waiting[i].kind.Near? ==> i <= 0xff)
  }

  /** Exactly the contexts below `depth` are live; all of them wait, but for the last when it is running. */
  ghost predicate Nested(s: Sys, depth: nat) {
    && depth <= |s.w.ctxs| == MAX_EXEC
    && (forall i :: 0 <= i < MAX_EXEC ==> s.w.ctxs[i].state == Active || !s.w.ctxs[i].state.InUse())
    && (forall i :: 0 <= i < MAX_EXEC ==> (s.w.ctxs[i].state.InUse() <==> i < depth))
    && (s.running.Some? ==> s.running.value + 1 == depth && s.w.active == s.running)
    && (forall i :: i in s.waiting ==> i < Suspended(s, depth))
    && (forall i :: 0 <= i < Suspended(s, depth) ==> WaitingAt(s, i))
  }

  /** SP once the return address at SP is popped. */
  function Top(sp: u16, far: bool): u16 {
    Add16(sp, if far then 4 else 2)
  }

  /** The guest is about to return, with the kind context `i` called with, through that context's
      return address: still in its slot, or moved up over arguments the callee removes. */
  ghost predicate KeepsSlot(s: Sys, i: nat, far: bool) {
    && i in s.waiting && i <= (if s.waiting[i].kind.Near? then 0xff else 0xffff)
    && var f := s.waiting[i];
    && far == f.kind.Far?
    && s.w.regs.ss == f.regs.ss
    && Slot(s.w.mem, s.w.regs.ss, Top(s.w.regs.sp, far), f.kind, i) && SlotFits(Top(s.w.regs.sp, far), f.kind)
    && (f.kind == Near(false) ==> s.w.regs.cs == f.regs.cs)
  }

  /** Segments the near return path takes for something else. */
  predicate NearSegmentOk(cs: u16) {
    cs != 0xffff && cs != 0xf000
  }

  /** The popped address of a kept slot names its context; for a near call, only outside two segments. */
  lemma KeptSlotNamesContext(s: Sys, depth: nat, i: nat, far: bool, pops: u16)
    requires Nested(s, depth) && s.running.None? && KeepsSlot(s, i, far)
    ensures TryResume(Pop(s.w, far, pops).regs, s.w.ctxs) == (if far || NearSegmentOk(s.w.regs.cs) then Some(i) else None)
    ensures Pop(s.w, far, pops).regs.sp == Add16(Top(s.w.regs.sp, far), pops)
  {
    assert WaitingAt(s, i);
    if far {
      FarSlotReadsBack(s.w.regs, s.w.mem, Top(s.w.regs.sp, far), i);
    } else {
      NearSlotReadsBack(s.w.regs, s.w.mem, Top(s.w.regs.sp, far), i, s.waiting[i].kind.reloc);
    }
  }

  /** A guest return through the innermost slot gives control back to the innermost hook, with its
      CS and IP as before the call, SP above the slot and the removed arguments, and everything
      else, DX:AX included, as the callee left it. */
  lemma ReturnResumesInnermost(s: Sys, depth: nat, far: bool, pops: u16, codeStart: u16)
    requires Nested(s, depth) && s.running.None? && depth > 0 && KeepsSlot(s, depth - 1, far)
    requires !far ==> NearSegmentOk(s.w.regs.cs)
    ensures Do(s, Returns(far, pops), codeStart).Some?
    ensures var s', f := Do(s, Returns(far, pops), codeStart).value, s.waiting[depth - 1];
      && s'.running == Some(depth - 1)
      && s'.w.regs == s.w.regs.(ip := f.regs.ip, sp := Add16(Top(s.w.regs.sp, far), pops),
                                cs := if f.kind == Near(true) then s.w.regs.cs else f.regs.cs)
      && s'.w.mem == s.w.mem
      && s'.waiting == s.waiting - {depth - 1}
      && Nested(s', depth)
  {
    assert WaitingAt(s, depth - 1);
    KeptSlotNamesContext(s, depth, depth - 1, far, pops);
    var s' := Do(s, Returns(far, pops), codeStart).value;
    if far {
      FarSlotReadsBack(s.w.regs, s.w.mem, Top(s.w.regs.sp, far), depth - 1);
    } else {
      NearSlotReadsBack(s.w.regs, s.w.mem, Top(s.w.regs.sp, far), depth - 1, s.waiting[depth - 1].kind.reloc);
    }
    forall i | 0 <= i < Suspended(s', depth)
      ensures WaitingAt(s', i)
    {
      assert WaitingAt(s, i);
    }
  }

  /** A 16-bit sum or difference. */
  ghost function Wrapped(x: int): u16
    requires -0x1_0000 <= x < 0x2_0000
  {
    if x < 0 then x + 0x1_0000 else if x < 0x1_0000 then x else x - 0x1_0000
  }

  /** Where the guest goes on when a hook calls it: far, in segment `seg` of the loaded code, and near in the segment
      it is in; with its return address pushed, and all else as the hook had it. */
  lemma CallGoesTo(s: Sys, kind: Kind, seg: u16, off: u16, codeStart: u16)
    ensures Do(s, Calls(kind, seg, off), codeStart).Some? ==>
      var s', was := Do(s, Calls(kind, seg, off), codeStart).value, s.w.regs;
      && s'.w.regs == was.(cs := if kind.Far? then Wrapped(seg + codeStart) else was.cs, ip := off,
                           sp := Wrapped(was.sp - if kind.Far? then 4 else 2))
      && s'.running.None? && s'.w.active == s.w.active && s'.waiting == s.waiting[s.running.value := Frame(kind, was)]
  {
  }

  /** Memory with the return address of a call from context `id` pushed: a far one is the id and FFFF, each word wrapping
      within the stack segment, a near one FF00 plus the id. */
  ghost predicate PushedOn(mem: Mem, mem': Mem, kind: Kind, ss: u16, sp: u16, id: nat) {
    if kind.Far? then
      var low, high := 16 * ss + Wrapped(sp - 4), 16 * ss + Wrapped(sp - 2);
      forall a: u32 {:trigger mem'(a)} ::
        mem'(a) == if a == low then id % 256 else if a == low + 1 then id / 256 else if a == high || a == high + 1 then 255 else mem(a)
    else
      var low := if 16 * ss + sp < 2 then 16 * ss + sp - 2 + 0x1_0000_0000 else 16 * ss + sp - 2;
      forall a: u32 {:trigger mem'(a)} :: mem'(a) == if a == low then id else if a == low + 1 || a == low + 1 - 0x1_0000_0000 then 255 else mem(a)
  }

  lemma FarWrites(regs: Regs, mem: Mem, id: u16)
    ensures PushedOn(mem, PushFar(regs, mem, id).1, Far, regs.ss, regs.sp, id)
  {
    var high, low := Linear(regs.ss, Sub16(regs.sp, 2)), Linear(regs.ss, Sub16(regs.sp, 4));
    assert high == 16 * regs.ss + Wrapped(regs.sp - 2) && low == 16 * regs.ss + Wrapped(regs.sp - 4);
    var m1 := Write16(mem, high, 0xffff);
    var m2 := PushFar(regs, mem, id).1;
    assert m2 == Write16(m1, low, id);
    forall a: u32
      ensures m2(a) == if a == low then id % 256 else if a == low + 1 then id / 256 else if a == high || a == high + 1 then 255 else mem(a)
    {
      BytesWritten(mem, high, 0xffff, a);
      BytesWritten(m1, low, id, a);
    }
  }

  lemma NearWrites(regs: Regs, mem: Mem, id: u8, reloc: bool)
    ensures PushedOn(mem, PushNear(regs, mem, id).1, Near(reloc), regs.ss, regs.sp, id)
  {
    assert (0xff00 + id) % 0x100 == id && (0xff00 + id) / 0x100 == 255;
  }

  /** What a call writes: its return address, and nothing else. */
  lemma CallWrites(s: Sys, kind: Kind, seg: u16, off: u16, codeStart: u16)
    ensures Do(s, Calls(kind, seg, off), codeStart).Some? ==>
      s.w.active.Some? && PushedOn(s.w.mem, Do(s, Calls(kind, seg, off), codeStart).value.w.mem, kind, s.w.regs.ss, s.w.regs.sp, s.w.active.value)
  {
    if Do(s, Calls(kind, seg, off), codeStart).Some? {
      var id := s.w.active.value;
      match kind
      case Far => FarWrites(s.w.regs, s.w.mem, id);
      case Near(reloc) => NearWrites(s.w.regs, s.w.mem, id, reloc);
    }
  }

  /** A hook's call is refused exactly when it is near and its context id does not fit a byte, or CS lies below the code. */
  lemma CallRefused(s: Sys, depth: nat, kind: Kind, seg: u16, off: u16, codeStart: u16)
    requires Nested(s, depth) && s.running.Some?
    ensures Do(s, Calls(kind, seg, off), codeStart).None? <==> kind.Near? && (depth > 256 || s.w.regs.cs < codeStart)
  {
  }

  lemma FirstFreeIs(s: Sys, depth: nat)
    requires Nested(s, depth)
    ensures FirstFree(States(s.w.ctxs), 0) == if depth < MAX_EXEC then Some(depth) else None
  {
    FirstFreeAfterPrefix(States(s.w.ctxs), depth);
  }

  ghost function DepthAfter(e: Event, depth: nat): nat {
    if e.Enters? then depth + 1 else if e.Finishes? && depth > 0 then depth - 1 else depth
  }

  /** Every return that reaches a magic address is the innermost callee's, through its slot. */
  ghost predicate WellBehaved(s: Sys, depth: nat, e: Event) {
    e.Returns? && s.running.None? && TryResume(Pop(s.w, e.far, e.pops).regs, s.w.ctxs).Some? ==>
      depth > 0 && KeepsSlot(s, depth - 1, e.far)
  }

  lemma EnterKeepsNesting(s: Sys, depth: nat, codeStart: u16)
    requires Nested(s, depth) && Do(s, Enters, codeStart).Some?
    ensures Nested(Do(s, Enters, codeStart).value, depth + 1)
  {
    FirstFreeIs(s, depth);
    var s' := Do(s, Enters, codeStart).value;
    forall i | 0 <= i < depth
      ensures WaitingAt(s', i)
    {
      assert WaitingAt(s, i);
    }
  }

  lemma CallKeepsNesting(s: Sys, depth: nat, kind: Kind, seg: u16, off: u16, codeStart: u16)
    requires Nested(s, depth) && s.running.Some? && (kind.Near? ==> depth <= 256 && s.w.regs.cs >= codeStart)
    ensures Do(s, Calls(kind, seg, off), codeStart).Some? && Nested(Do(s, Calls(kind, seg, off), codeStart).value, depth)
  {
    var s' := Do(s, Calls(kind, seg, off), codeStart).value;
    forall i | 0 <= i < depth
      ensures WaitingAt(s', i)
    {
      if i < depth - 1 {
        assert WaitingAt(s, i);
      }
    }
  }

  lemma SameTableKeepsNesting(s: Sys, s': Sys, depth: nat)
    requires Nested(s, depth) && s'.w.ctxs == s.w.ctxs && s'.w.active == s.w.active && s'.running == s.running && s'.waiting == s.waiting
    ensures Nested(s', depth)
  {
    forall i | 0 <= i < Suspended(s', depth)
      ensures WaitingAt(s', i)
    {
      assert WaitingAt(s, i);
    }
  }

  lemma FinishKeepsNesting(s: Sys, depth: nat, codeStart: u16)
    requires Nested(s, depth) && Do(s, Finishes, codeStart).Some?
    ensures depth > 0 && Nested(Do(s, Finishes, codeStart).value, depth - 1)
  {
    var s' := Do(s, Finishes, codeStart).value;
    forall i | 0 <= i < depth - 1
      ensures WaitingAt(s', i)
    {
      assert WaitingAt(s, i);
    }
  }

  lemma ReturnKeepsNesting(s: Sys, depth: nat, far: bool, pops: u16, codeStart: u16)
    requires Nested(s, depth) && s.running.None?
    ensures var e := Returns(far, pops);
      WellBehaved(s, depth, e) && Do(s, e, codeStart).Some? ==> Nested(Do(s, e, codeStart).value, depth)
  {
    var e := Returns(far, pops);
    if WellBehaved(s, depth, e) && Do(s, e, codeStart).Some? {
      if TryResume(Pop(s.w, far, pops).regs, s.w.ctxs).Some? {
        KeptSlotNamesContext(s, depth, depth - 1, far, pops);
        ReturnResumesInnermost(s, depth, far, pops, codeStart);
      } else {
        SameTableKeepsNesting(s, Do(s, e, codeStart).value, depth);
      }
    }
  }

  lemma StepKeepsNesting(s: Sys, depth: nat, e: Event, codeStart: u16)
    requires Nested(s, depth)
    ensures WellBehaved(s, depth, e) && Do(s, e, codeStart).Some? ==> Nested(Do(s, e, codeStart).value, DepthAfter(e, depth))
  {
    if WellBehaved(s, depth, e) && Do(s, e, codeStart).Some? {
      match e {
        case Works(_, _) => SameTableKeepsNesting(s, Do(s, e, codeStart).value, depth);
        case Enters => EnterKeepsNesting(s, depth, codeStart);
        case Calls(kind, seg, off) => CallKeepsNesting(s, depth, kind, seg, off, codeStart);
        case Returns(far, pops) => ReturnKeepsNesting(s, depth, far, pops, codeStart);
        case Finishes => FinishKeepsNesting(s, depth, codeStart);
      }
    }
  }

  // A whole run of events.

  ghost function Depth(es: seq<Event>): nat {
    if es == [] then 0 else DepthAfter(es[|es| - 1], Depth(es[..|es| - 1]))
  }

  ghost predicate StepAt(ss: seq<Sys>, es: seq<Event>, codeStart: u16, k: nat)
    requires |ss| == |es| + 1 && k < |es|
  {
    Do(ss[k], es[k], codeStart) == Some(ss[k + 1]) && WellBehaved(ss[k], Depth(es[..k]), es[k])
  }

  ghost predicate IsRun(ss: seq<Sys>, es: seq<Event>, codeStart: u16) {
    && |ss| == |es| + 1
    && (forall k :: 0 <= k < |es| ==> StepAt(ss, es, codeStart, k))
    && ss[0].running.None? && ss[0].waiting == map[] && |ss[0].w.ctxs| == MAX_EXEC
    && (forall i :: 0 <= i < MAX_EXEC ==> !ss[0].w.ctxs[i].state.InUse())
  }

  /** In every run, the live contexts are exactly those below the nesting depth. */
  lemma {:induction false} RunIsNested(ss: seq<Sys>, es: seq<Event>, codeStart: u16, k: nat)
    requires IsRun(ss, es, codeStart) && k <= |es|
    ensures Nested(ss[k], Depth(es[..k]))
  {
    if k > 0 {
      RunIsNested(ss, es, codeStart, k - 1);
      assert StepAt(ss, es, codeStart, k - 1);
      StepKeepsNesting(ss[k - 1], Depth(es[..k - 1]), es[k - 1], codeStart);
      assert es[..k][..k - 1] == es[..k - 1];
    }
  }

  /** A suspended call is untouched until its own context is resumed. */
  lemma {:induction false} CallWaits(ss: seq<Sys>, es: seq<Event>, codeStart: u16, j: nat, k: nat, p: nat)
    requires IsRun(ss, es, codeStart) && j < k <= |es|
    requires forall m :: j < m <= k ==> p in ss[m].waiting
    ensures ss[k].waiting[p] == ss[j + 1].waiting[p]
    decreases k
  {
    if k > j + 1 {
      CallWaits(ss, es, codeStart, j, k - 1, p);
      assert StepAt(ss, es, codeStart, k - 1);
      RunIsNested(ss, es, codeStart, k - 1);
      assert p in ss[k - 1].waiting;
    }
  }

  /** The words of a slot are the same in both memories. */
  ghost predicate SameSlotWords(m: Mem, m': Mem, ss: u16, sp: u16, kind: Kind) {
    if kind.Far? then
      && Read16(m', Linear(ss, Sub16(sp, 2))) == Read16(m, Linear(ss, Sub16(sp, 2)))
      && Read16(m', Linear(ss, Sub16(sp, 4))) == Read16(m, Linear(ss, Sub16(sp, 4)))
    else Read16(m', Sub32(Linear(ss, sp), 2)) == Read16(m, Sub32(Linear(ss, sp), 2))
  }

  /** The return at step `k` is that of the callee that was called at step `j` and is the innermost: with SP back at its
      return address, SS and for a near callee CS as at the call, and the address as the call left it. */
  ghost predicate ReturnsFrom(ss: seq<Sys>, es: seq<Event>, j: nat, k: nat)
    requires |ss| == |es| + 1 && j < k < |es|
  {
    && es[j].Calls? && ss[j].running.Some? && es[k].Returns? && ss[k].running.None?
    && (forall m :: j < m <= k ==> ss[j].running.value in ss[m].waiting) && ss[j].running.value + 1 == Depth(es[..k])
    && var called, now, kind := ss[j].w.regs, ss[k].w.regs, es[j].kind;
    && es[k].far == kind.Far? && now.ss == called.ss && Top(now.sp, es[k].far) == called.sp
    && (kind == Near(false) ==> now.cs == called.cs)
    && SameSlotWords(ss[j + 1].w.mem, ss[k].w.mem, called.ss, called.sp, kind) && SlotFits(called.sp, kind)
  }

  lemma CallWritesSlot(s: Sys, kind: Kind, seg: u16, off: u16, codeStart: u16)
    requires s.running.Some? && s.w.active == s.running && s.running.value < |s.w.ctxs| && s.running.value <= 0xffff
    requires kind.Near? ==> s.running.value <= 0xff && s.w.regs.cs >= codeStart
    ensures Do(s, Calls(kind, seg, off), codeStart).Some?
    ensures var s', p := Do(s, Calls(kind, seg, off), codeStart).value, s.running.value;
      p <= (if kind.Near? then 0xff else 0xffff) && Slot(s'.w.mem, s.w.regs.ss, s.w.regs.sp, kind, p)
  {
    PushWritesSlot(s.w.regs, s.w.mem, kind, s.running.value);
  }

  /** Such a return goes through the slot of the innermost context: nothing about the magic address is assumed. */
  lemma ReturnKeepsSlot(ss: seq<Sys>, es: seq<Event>, codeStart: u16, run: seq<Sys>, events: seq<Event>, j: nat, k: nat)
    requires |ss| == |es| + 1 && j < k < |es| && ReturnsFrom(ss, es, j, k)
    requires run == ss[..k + 1] && events == es[..k] && IsRun(run, events, codeStart)
    ensures KeepsSlot(ss[k], Depth(es[..k]) - 1, es[k].far) && WellBehaved(ss[k], Depth(es[..k]), es[k])
  {
    var p := ss[j].running.value;
    assert es[..k][..j] == es[..j] && events[..k] == events;
    CallWaits(run, events, codeStart, j, k, p);
    RunIsNested(run, events, codeStart, j);
    RunIsNested(run, events, codeStart, k);
    assert StepAt(run, events, codeStart, j);
    CallWritesSlot(ss[j], es[j].kind, es[j].seg, es[j].off, codeStart);
    assert ss[k].waiting[p] == Frame(es[j].kind, ss[j].w.regs);
  }

  /** Runs in which every return that is taken for that of a call is that of the innermost callee. */
  ghost predicate IsProperRun(ss: seq<Sys>, es: seq<Event>, codeStart: u16) {
    && |ss| == |es| + 1
    && (forall k :: 0 <= k < |es| ==> ProperAt(ss, es, codeStart, k))
    && ss[0].running.None? && ss[0].waiting == map[] && |ss[0].w.ctxs| == MAX_EXEC
    && (forall i :: 0 <= i < MAX_EXEC ==> !ss[0].w.ctxs[i].state.InUse())
  }

  ghost predicate ProperAt(ss: seq<Sys>, es: seq<Event>, codeStart: u16, k: nat)
    requires |ss| == |es| + 1 && k < |es|
  {
    && Do(ss[k], es[k], codeStart) == Some(ss[k + 1])
    && (es[k].Returns? && ss[k].running.None? && TryResume(Pop(ss[k].w, es[k].far, es[k].pops).regs, ss[k].w.ctxs).Some? ==>
          exists j :: 0 <= j < k && ReturnsFrom(ss, es, j, k))
  }

  /** Such a run is one in which all slots are kept, so all that is shown of those holds of it. */
  lemma {:induction false} ProperRunsKeepSlots(ss: seq<Sys>, es: seq<Event>, codeStart: u16, n: nat)
    requires IsProperRun(ss, es, codeStart) && n <= |es|
    ensures IsRun(ss[..n + 1], es[..n], codeStart)
  {
    if n > 0 {
      ProperRunsKeepSlots(ss, es, codeStart, n - 1);
      var run, events := ss[..n + 1], es[..n];
      forall k | 0 <= k < n
        ensures StepAt(run, events, codeStart, k)
      {
        ProperStep(ss, es, codeStart, n, k);
      }
    }
  }

  lemma ProperStep(ss: seq<Sys>, es: seq<Event>, codeStart: u16, n: nat, k: nat)
    requires IsProperRun(ss, es, codeStart) && k < n <= |es| && IsRun(ss[..n], es[..n - 1], codeStart)
    ensures StepAt(ss[..n + 1], es[..n], codeStart, k)
  {
    assert es[..n][..k] == es[..k] && es[..n - 1][..k] == es[..k] && ProperAt(ss, es, codeStart, k);
    if k < n - 1 {
      assert StepAt(ss[..n], es[..n - 1], codeStart, k);
    } else if es[k].Returns? && ss[k].running.None? && TryResume(Pop(ss[k].w, es[k].far, es[k].pops).regs, ss[k].w.ctxs).Some? {
      var j :| 0 <= j < k && ReturnsFrom(ss, es, j, k);
      ReturnKeepsSlot(ss, es, codeStart, ss[..n], es[..n - 1], j, k);
    }
  }

  /** Call and return match: the hook that called at step `j` and gets control back at step `k` is the
      innermost suspended one, and finds CS (unless the call allowed relocation), IP and SS as it left
      them; SP as well, when the callee removed just the return address; and memory and all other
      registers, DX:AX among them, as its callee left them. */
  lemma ResumedAsCalled(ss: seq<Sys>, es: seq<Event>, codeStart: u16, j: nat, k: nat)
    requires IsRun(ss, es, codeStart) && j < k < |es| && es[j].Calls? && es[k].Returns?
    requires ss[j].running.Some? && ss[k + 1].running == ss[j].running
    requires forall m :: j < m <= k ==> ss[j].running.value in ss[m].waiting
    ensures ss[j].running.value + 1 == Depth(es[..k])
    ensures var called, back := ss[j].w.regs, ss[k + 1].w.regs;
      && back == ss[k].w.regs.(cs := if es[j].kind == Near(true) then back.cs else called.cs, ip := called.ip, sp := back.sp)
      && back.sp == Add16(Top(ss[k].w.regs.sp, es[k].far), es[k].pops)
      && (Top(ss[k].w.regs.sp, es[k].far) == called.sp && es[k].pops == 0 ==> back.sp == called.sp)
      && back.ss == called.ss
      && ss[k + 1].w.mem == ss[k].w.mem
      && ss[k + 1].w.active == ss[j].running
  {
    var p, depth := ss[j].running.value, Depth(es[..k]);
    CallWaits(ss, es, codeStart, j, k, p);
    assert StepAt(ss, es, codeStart, j) && StepAt(ss, es, codeStart, k);
    assert ss[j + 1].waiting[p] == Frame(es[j].kind, ss[j].w.regs);
    RunIsNested(ss, es, codeStart, k);
    KeptSlotNamesContext(ss[k], depth, depth - 1, es[k].far, es[k].pops);
    ReturnResumesInnermost(ss[k], depth, es[k].far, es[k].pops, codeStart);
  }
}
