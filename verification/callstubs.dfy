/** The call stubs through which decompiled code calls the guest (hydra/src/callstubs.h), and
    how arguments are pushed and removed (hydra/src/machine.h). */
module CallStubs {
  import opened Wrappers
  import opened GuestMachine
  import opened HydraCalls

  function PushWord(regs: Regs, mem: Mem, val: u16): (Regs, Mem) {
    var sp := Sub16(regs.sp, 2);
    (regs.(sp := sp), Write16(mem, Linear(regs.ss, sp), val))
  }

  function PushAll(regs: Regs, mem: Mem, args: seq<u16>): (Regs, Mem) {
    if args == [] then (regs, mem)
    else
      var (r, m) := PushAll(regs, mem, args[1..]);
      PushWord(r, m, args[0])
  }

  /** The far return address is popped, the arguments are skipped, and the address is pushed again. */
  function RemoveArgs(regs: Regs, mem: Mem, n: u16): (Regs, Mem) {
    var off := Read16(mem, Linear(regs.ss, regs.sp));
    var seg := Read16(mem, Linear(regs.ss, Add16(regs.sp, 2)));
    var (r, m) := PushWord(regs.(sp := Add16(Add16(Add16(regs.sp, 2), 2), n)), mem, seg);
    PushWord(r, m, off)
  }

  /** A near stub passes the linear address of its target, cut to 16 bits. */
  function AbsOffset(seg: u16, off: u16): u16 {
    (16 * seg + off) % 0x1_0000
  }

  /** The offset within CS that is meant, in 16-bit arithmetic. */
  function NearOffset(cs: u16, codeStart: u16, absOff: u16): u16 {
    (absOff - 16 * (cs - codeStart)) % 0x1_0000
  }

  function StubStarts(w: World, args: seq<u16>, seg: u16, off: u16, near: bool, codeStart: u16): Option<World> {
    var (regs, mem) := PushAll(w.regs, w.mem, args);
    var pushed := w.(regs := regs, mem := mem);
    if near then Call(pushed, Near(false), 0, NearOffset(regs.cs, codeStart, AbsOffset(seg, off)), codeStart)
    else Call(pushed, Far, seg, off, codeStart)
  }

  function StubEnds(w: World, nargs: nat, dontPopArgs: bool): World
    requires nargs <= 7
  {
    if dontPopArgs then w else w.(regs := w.regs.(sp := Add16(w.regs.sp, 2 * nargs)))
  }

  // ------------------------------------------------------------------------

  /** A near stub reaches the linear address it names exactly when that lies within the segment CS. */
  lemma NearStubReachesTarget(cs: u16, codeStart: u16, seg: u16, off: u16)
    ensures var base, target := 16 * cs, 16 * (seg + codeStart) + off;
      base + NearOffset(cs, codeStart, AbsOffset(seg, off)) == target <==> base <= target < base + 0x1_0000
  {
    var d := 16 * seg + off - 16 * (cs - codeStart);
    assert NearOffset(cs, codeStart, AbsOffset(seg, off)) == d % 0x1_0000;
  }

  /** Where the callee of a stub starts: a far one at `seg`:`off` of the loaded code, and a near one in the caller's
      segment, at the linear address that is named exactly when that lies within this segment. */
  ghost predicate StartsAt(r: Regs, cs: u16, seg: u16, off: u16, near: bool, codeStart: u16) {
    var target := 16 * (seg + codeStart) + off;
    if near then
      && r.cs == cs && r.ip == (target - 16 * cs) % 0x1_0000
      && (16 * r.cs + r.ip == target <==> 16 * cs <= target < 16 * cs + 0x1_0000)
    else
      && r.cs == Wrapped(seg + codeStart) && r.ip == off
      && (16 * r.cs + r.ip == target <==> seg + codeStart < 0x1_0000)
  }

  lemma WrapsTwice(x: int, y: int)
    ensures (x % 0x1_0000 + y) % 0x1_0000 == (x + y) % 0x1_0000
  {
    var q, r := x / 0x1_0000, x % 0x1_0000;
    assert x + y == r + y + 0x1_0000 * q;
  }

  lemma NearStart(cs: u16, codeStart: u16, seg: u16, off: u16)
    ensures NearOffset(cs, codeStart, AbsOffset(seg, off)) == (16 * (seg + codeStart) + off - 16 * cs) % 0x1_0000
  {
    WrapsTwice(16 * seg + off, 16 * codeStart - 16 * cs);
  }

  lemma CalleeAt(w: World, args: seq<u16>, seg: u16, off: u16, near: bool, codeStart: u16)
    requires |args| <= 7
    ensures StubStarts(w, args, seg, off, near, codeStart).Some? ==>
      var r := StubStarts(w, args, seg, off, near, codeStart).value.regs;
      && r.cs == (if near then w.regs.cs else Add16(seg, codeStart))
      && r.ip == (if near then NearOffset(w.regs.cs, codeStart, AbsOffset(seg, off)) else off)
  {
    PushAllArgs(w.regs, w.mem, args);
  }

  lemma CalleeStartsAt(w: World, args: seq<u16>, seg: u16, off: u16, near: bool, codeStart: u16)
    requires |args| <= 7
    ensures StubStarts(w, args, seg, off, near, codeStart).Some? ==>
      StartsAt(StubStarts(w, args, seg, off, near, codeStart).value.regs, w.regs.cs, seg, off, near, codeStart)
  {
    CalleeAt(w, args, seg, off, near, codeStart);
    NearStart(w.regs.cs, codeStart, seg, off);
    NearStubReachesTarget(w.regs.cs, codeStart, seg, off);
  }

  /** `args` lie on the stack in order, the first at `sp`. */
  ghost predicate ArgsAt(mem: Mem, ss: u16, sp: u16, args: seq<u16>)
    requires |args| <= 7
  {
    forall i {:trigger args[i]} :: 0 <= i < |args| ==> Read16(mem, Linear(ss, Add16(sp, 2 * i))) == args[i]
  }

  /** Offsets a few words apart, even across the end of the segment, do not overlap. */
  lemma WordsApart(ss: u16, sp: u16, k: nat)
    requires 0 < k <= 16
    ensures Apart(Linear(ss, sp), Linear(ss, Add16(sp, 2 * k)))
  {
  }

  lemma PushKeepsArgs(regs: Regs, mem: Mem, val: u16, args: seq<u16>)
    requires |args| <= 6 && ArgsAt(mem, regs.ss, regs.sp, args)
    ensures var (r, m) := PushWord(regs, mem, val); ArgsAt(m, r.ss, r.sp, [val] + args)
  {
    var (r, m) := PushWord(regs, mem, val);
    var all := [val] + args;
    forall i {:trigger all[i]} | 0 <= i < |all|
      ensures Read16(m, Linear(r.ss, Add16(r.sp, 2 * i))) == all[i]
    {
      if i == 0 {
        ReadBack(mem, Linear(r.ss, r.sp), val);
      } else {
        WordsApart(r.ss, r.sp, i);
        ReadOther(mem, Linear(r.ss, r.sp), val, Linear(r.ss, Add16(r.sp, 2 * i)));
        assert args[i - 1] == all[i];
        assert Add16(r.sp, 2 * i) == Add16(regs.sp, 2 * (i - 1));
      }
    }
  }

  lemma {:induction false} PushAllArgs(regs: Regs, mem: Mem, args: seq<u16>)
    requires |args| <= 7
    ensures var (r, m) := PushAll(regs, mem, args);
      r == regs.(sp := Sub16(regs.sp, 2 * |args|)) && ArgsAt(m, r.ss, r.sp, args)
  {
    if args != [] {
      PushAllArgs(regs, mem, args[1..]);
      var (r, m) := PushAll(regs, mem, args[1..]);
      PushKeepsArgs(r, m, args[0], args[1..]);
      assert [args[0]] + args[1..] == args;
    }
  }

  /** A word pushed further down leaves the arguments where they are. */
  lemma PushBelowKeepsArgs(m: Mem, ss: u16, sp: u16, args: seq<u16>, k: nat, val: u16)
    requires |args| <= 7 && ArgsAt(m, ss, sp, args) && 1 <= k <= 2
    ensures ArgsAt(Write16(m, Linear(ss, Sub16(sp, 2 * k)), val), ss, sp, args)
  {
    var a := Sub16(sp, 2 * k);
    var m1 := Write16(m, Linear(ss, a), val);
    forall i {:trigger args[i]} | 0 <= i < |args|
      ensures Read16(m1, Linear(ss, Add16(sp, 2 * i))) == args[i]
    {
      WordsApart(ss, a, i + k);
      assert Add16(a, 2 * (i + k)) == Add16(sp, 2 * i);
      ReadOther(m, Linear(ss, a), val, Linear(ss, Add16(sp, 2 * i)));
    }
  }

  /** The callee of a far stub finds argument i right above its return address. */
  lemma FarCalleeFindsArgs(w: World, args: seq<u16>, seg: u16, off: u16, codeStart: u16)
    requires |args| <= 7 && StubStarts(w, args, seg, off, false, codeStart).Some?
    ensures var c := StubStarts(w, args, seg, off, false, codeStart).value;
      ArgsAt(c.mem, c.regs.ss, Add16(c.regs.sp, 4), args)
  {
    PushAllArgs(w.regs, w.mem, args);
    var (r, m) := PushAll(w.regs, w.mem, args);
    PushBelowKeepsArgs(m, r.ss, r.sp, args, 1, 0xffff);
    PushBelowKeepsArgs(Write16(m, Linear(r.ss, Sub16(r.sp, 2)), 0xffff), r.ss, r.sp, args, 2, w.active.value);
    assert Add16(Sub16(r.sp, 4), 4) == r.sp;
  }

  /** So does that of a near stub, when the slot does not straddle the end of the segment. */
  lemma NearCalleeFindsArgs(w: World, args: seq<u16>, seg: u16, off: u16, codeStart: u16)
    requires |args| <= 7 && StubStarts(w, args, seg, off, true, codeStart).Some?
    requires SlotFits(Sub16(w.regs.sp, 2 * |args|), Near(false))
    ensures var c := StubStarts(w, args, seg, off, true, codeStart).value;
      ArgsAt(c.mem, c.regs.ss, Add16(c.regs.sp, 2), args)
  {
    PushAllArgs(w.regs, w.mem, args);
    var (r, m) := PushAll(w.regs, w.mem, args);
    PushBelowKeepsArgs(m, r.ss, r.sp, args, 1, 0xff00 + w.active.value);
    assert Linear(r.ss, Sub16(r.sp, 2)) == Sub32(Linear(r.ss, r.sp), 2) && Add16(Sub16(r.sp, 2), 2) == r.sp;
  }

  lemma SlotWords(regs: Regs, mem: Mem, id: u16)
    requires Slot(mem, regs.ss, Top(regs.sp, true), Far, id)
    ensures Read16(mem, Linear(regs.ss, regs.sp)) == id && Read16(mem, Linear(regs.ss, Add16(regs.sp, 2))) == 0xffff
  {
    assert Sub16(Top(regs.sp, true), 4) == regs.sp && Sub16(Top(regs.sp, true), 2) == Add16(regs.sp, 2);
  }

  lemma PushedSlot(regs: Regs, mem: Mem, id: u16)
    ensures var (r1, m1) := PushWord(regs, mem, 0xffff);
      var (r, m) := PushWord(r1, m1, id);
      r == regs.(sp := Sub16(regs.sp, 4)) && Slot(m, regs.ss, regs.sp, Far, id)
  {
    var a, b := Sub16(regs.sp, 2), Sub16(regs.sp, 4);
    var m1 := Write16(mem, Linear(regs.ss, a), 0xffff);
    ReadBack(mem, Linear(regs.ss, a), 0xffff);
    ReadBack(m1, Linear(regs.ss, b), id);
    WordsApart(regs.ss, b, 1);
    ReadOther(m1, Linear(regs.ss, b), id, Linear(regs.ss, a));
  }

  /** Removing arguments moves the return address up over them, intact. */
  lemma RemoveArgsMovesSlot(regs: Regs, mem: Mem, n: u16, id: u16)
    requires Slot(mem, regs.ss, Top(regs.sp, true), Far, id)
    ensures var (r, m) := RemoveArgs(regs, mem, n);
      r == regs.(sp := Add16(regs.sp, n)) && Slot(m, r.ss, Top(r.sp, true), Far, id)
  {
    var top := Add16(Add16(Add16(regs.sp, 2), 2), n);
    SlotWords(regs, mem, id);
    PushedSlot(regs.(sp := top), mem, id);
    assert top == Top(Add16(regs.sp, n), true) && Sub16(top, 4) == Add16(regs.sp, n);
  }

  /** A stub leaves SP as it found it: the caller removes the arguments when the callee removed only
      its return address, and does not when the callee removed them too. */
  lemma StubIsNeutral(w: World, args: seq<u16>, seg: u16, off: u16, near: bool, codeStart: u16, back: World, calleePops: bool)
    requires |args| <= 7 && StubStarts(w, args, seg, off, near, codeStart).Some?
    requires var called := StubStarts(w, args, seg, off, near, codeStart).value;
      back.regs.sp == Add16(Top(called.regs.sp, !near), if calleePops then 2 * |args| else 0)
    ensures StubEnds(back, |args|, calleePops).regs.sp == w.regs.sp
  {
    PushAllArgs(w.regs, w.mem, args);
  }

  // ------------------------------------------------------------------------
  // A whole call.

  function KindOf(near: bool): Kind {
    if near then Near(false) else Far
  }

  /** With registers `r` and memory `m` the callee of `c` returns: SP is back at its return address, which stands where
      the call put it, a near callee is in its segment, and `pops` bytes of arguments are removed if it removes them. */
  ghost predicate CalleeReturns(c: World, r: Regs, m: Mem, near: bool, pops: u16, nargs: nat, calleePops: bool) {
    && c.active.Some? && c.active.value <= (if near then 0xff else 0xffff)
    && r.ss == c.regs.ss && r.sp == c.regs.sp
    && Slot(m, r.ss, Top(r.sp, !near), KindOf(near), c.active.value) && SlotFits(Top(r.sp, !near), KindOf(near))
    && (near ==> r.cs == c.regs.cs && NearSegmentOk(r.cs))
    && pops == if calleePops then 2 * nargs else 0
  }

  /** The callee's return is taken for that of the caller, whoever else is suspended. */
  lemma CallerIsFound(c: World, r: Regs, m: Mem, near: bool, pops: u16, nargs: nat, calleePops: bool)
    requires CalleeReturns(c, r, m, near, pops, nargs, calleePops) && c.active.value < |c.ctxs|
    requires var x := c.ctxs[c.active.value]; x.state.Active? && !x.maybeReloc && (near ==> x.savedCs == r.cs)
    ensures var p := HydraCalls.Pop(c.(regs := r, mem := m), !near, pops);
      TryResume(p.regs, p.ctxs) == c.active && p.regs == r.(sp := Add16(Top(r.sp, !near), pops), cs := p.regs.cs, ip := p.regs.ip)
  {
    if near {
      NearSlotReadsBack(r, m, Top(r.sp, false), c.active.value, false);
    } else {
      FarSlotReadsBack(r, m, Top(r.sp, true), c.active.value);
    }
  }

  /** A stub calls and its callee returns: the caller finds CS, IP, SS and SP as they were and everything else,
      DX:AX included, as the callee left it. */
  lemma StubRoundTrip(w: World, args: seq<u16>, seg: u16, off: u16, near: bool, codeStart: u16,
                      r: Regs, m: Mem, pops: u16, calleePops: bool)
    requires |args| <= 7 && StubStarts(w, args, seg, off, near, codeStart).Some?
    requires w.active.Some? && w.active.value < |w.ctxs| && w.ctxs[w.active.value].state.Active?
    requires CalleeReturns(StubStarts(w, args, seg, off, near, codeStart).value, r, m, near, pops, |args|, calleePops)
    ensures var p := HydraCalls.Pop(StubStarts(w, args, seg, off, near, codeStart).value.(regs := r, mem := m), !near, pops);
      && TryResume(p.regs, p.ctxs) == w.active && w.active.value < |p.ctxs|
      && var back := Resumed(p, w.active.value, KindOf(near));
      && back.Some?
      && var end := StubEnds(back.value, |args|, calleePops);
      end.regs == r.(cs := w.regs.cs, ip := w.regs.ip, sp := w.regs.sp) && r.ss == w.regs.ss && end.mem == m && end.active == w.active
  {
    PushAllArgs(w.regs, w.mem, args);
    CallerIsFound(StubStarts(w, args, seg, off, near, codeStart).value, r, m, near, pops, |args|, calleePops);
  }

  // ------------------------------------------------------------------------
  // A call in a run, with hooks nested in it.

  /** The call that a stub makes once its arguments are pushed. */
  ghost function StubCall(regs: Regs, seg: u16, off: u16, near: bool, codeStart: u16): Event {
    if near then Calls(Near(false), 0, NearOffset(regs.cs, codeStart, AbsOffset(seg, off))) else Calls(Far, seg, off)
  }

  /** At step `j` of a run a hook starts a stub, and at step `k` the guest returns from the stub's callee, while the hook
      has been waiting. What happens in between is any run: hooks may enter, call, be resumed and finish. */
  ghost predicate StubRuns(ss: seq<Sys>, es: seq<Event>, codeStart: u16, j: nat, k: nat,
                           args: seq<u16>, seg: u16, off: u16, near: bool, pops: u16, calleePops: bool) {
    && IsRun(ss, es, codeStart) && j + 1 < k < |es| && |args| <= 7 && ss[j].running.Some?
    && var (r, m) := PushAll(ss[j].w.regs, ss[j].w.mem, args);
    && es[j] == Works(r, m) && es[j + 1] == StubCall(r, seg, off, near, codeStart)
    && (forall i :: j + 1 < i <= k ==> ss[i].running != ss[j].running) && ss[k].running.None? && es[k] == Returns(!near, pops)
    && CalleeReturns(ss[j + 2].w, ss[k].w.regs, ss[k].w.mem, near, pops, |args|, calleePops)
  }

  lemma StubIsCalled(ss: seq<Sys>, es: seq<Event>, codeStart: u16, j: nat, k: nat,
                     args: seq<u16>, seg: u16, off: u16, near: bool, pops: u16, calleePops: bool)
    requires StubRuns(ss, es, codeStart, j, k, args, seg, off, near, pops, calleePops)
    ensures StubStarts(ss[j].w, args, seg, off, near, codeStart) == Some(ss[j + 2].w)
    ensures ss[j + 1].running == ss[j].running == ss[j].w.active == ss[j + 2].w.active
    ensures ss[j + 2].waiting == ss[j].waiting[ss[j].running.value := Frame(KindOf(near), ss[j + 1].w.regs)] && ss[j + 2].running.None?
    ensures ss[j + 1].w.regs == PushAll(ss[j].w.regs, ss[j].w.mem, args).0
  {
    assert StepAt(ss, es, codeStart, j) && StepAt(ss, es, codeStart, j + 1);
    RunIsNested(ss, es, codeStart, j);
  }

  /** A hook that does not run in between is still waiting. */
  lemma {:induction false} HookWaits(ss: seq<Sys>, es: seq<Event>, codeStart: u16, j: nat, k: nat, p: nat)
    requires IsRun(ss, es, codeStart) && j <= k <= |es| && p in ss[j].waiting
    requires forall i :: j < i <= k ==> ss[i].running != Some(p)
    ensures p in ss[k].waiting
    decreases k
  {
    if k > j {
      HookWaits(ss, es, codeStart, j, k - 1, p);
      assert StepAt(ss, es, codeStart, k - 1);
    }
  }

  /** The caller is the one that is resumed, so every hook that entered in between has finished. */
  lemma CallerIsInnermost(ss: seq<Sys>, es: seq<Event>, codeStart: u16, j: nat, k: nat,
                          args: seq<u16>, seg: u16, off: u16, near: bool, pops: u16, calleePops: bool)
    requires StubRuns(ss, es, codeStart, j, k, args, seg, off, near, pops, calleePops)
    ensures ss[k + 1].running == ss[j].running && ss[j].running.value + 1 == Depth(es[..k])
    ensures forall i :: j + 1 < i <= k ==> ss[j].running.value in ss[i].waiting
  {
    var p, depth := ss[j].running.value, Depth(es[..k]);
    StubIsCalled(ss, es, codeStart, j, k, args, seg, off, near, pops, calleePops);
    forall i | j + 1 < i <= k
      ensures p in ss[i].waiting
    {
      HookWaits(ss, es, codeStart, j + 2, i, p);
    }
    CallWaits(ss, es, codeStart, j + 1, k, p);
    RunIsNested(ss, es, codeStart, k);
    assert WaitingAt(ss[k], p);
    CallerIsFound(ss[k].w.(active := Some(p)), ss[k].w.regs, ss[k].w.mem, near, pops, |args|, calleePops);
    assert StepAt(ss, es, codeStart, k);
    KeptSlotNamesContext(ss[k], depth, depth - 1, !near, pops);
  }

  /** However many hooks were entered, called the guest and finished between a stub's call and the return of its callee,
      it ends as if the callee had run alone: CS, IP, SS and SP as before the stub, everything else, DX:AX included, as
      the callee left it. */
  lemma NestedStub(ss: seq<Sys>, es: seq<Event>, codeStart: u16, j: nat, k: nat,
                   args: seq<u16>, seg: u16, off: u16, near: bool, pops: u16, calleePops: bool)
    requires StubRuns(ss, es, codeStart, j, k, args, seg, off, near, pops, calleePops)
    ensures StartsAt(ss[j + 2].w.regs, ss[j].w.regs.cs, seg, off, near, codeStart)
    ensures ss[k + 1].running == ss[j].running && Depth(es[..k]) == ss[j].running.value + 1 == Depth(es[..j])
    ensures var before, r, end := ss[j].w.regs, ss[k].w.regs, StubEnds(ss[k + 1].w, |args|, calleePops);
      && end.regs == r.(cs := before.cs, ip := before.ip, sp := before.sp) && r.ss == before.ss
      && end.mem == ss[k].w.mem && end.active == ss[j].w.active
  {
    StubIsCalled(ss, es, codeStart, j, k, args, seg, off, near, pops, calleePops);
    CalleeStartsAt(ss[j].w, args, seg, off, near, codeStart);
    CallerIsInnermost(ss, es, codeStart, j, k, args, seg, off, near, pops, calleePops);
    ResumedAsCalled(ss, es, codeStart, j + 1, k);
    RunIsNested(ss, es, codeStart, j);
    PushAllArgs(ss[j].w.regs, ss[j].w.mem, args);
    StubIsNeutral(ss[j].w, args, seg, off, near, codeStart, ss[k + 1].w, calleePops);
  }
}
