/** A call stub as it runs (hydra/src/callstubs.h over hydra/src/machine.c and hydra/src/exec.c): it pushes its
    arguments and a magic return address, the guest runs, and its return is decoded and resumed. */
module Hydra {
  import opened Wrappers
  import opened GuestMachine
  import opened Contexts
  import opened HydraCalls
  import opened CallStubs

  class Machine {
    var regs: Regs
    var mem: Mem
    var contexts: array<Context>
    var active: Option<nat>
    const codeStart: u16

    ghost function View(): World
      reads this, contexts
    {
      World(regs, mem, contexts[..], active)
    }

    method Push(val: u16)
      modifies this`regs, this`mem
      ensures (regs, mem) == PushWord(old(regs), old(mem), val)
    {
      regs := regs.(sp := Sub16(regs.sp, 2));
      mem := Write16(mem, Linear(regs.ss, regs.sp), val);
    }

    /** The last argument is pushed first. */
    method PushArgs(args: seq<u16>)
      modifies this`regs, this`mem
      ensures (regs, mem) == PushAll(old(regs), old(mem), args)
    {
      var i := |args|;
      assert args[|args|..] == [];
      while i > 0
        invariant 0 <= i <= |args|
        invariant (regs, mem) == PushAll(old(regs), old(mem), args[i..])
      {
        i := i - 1;
        assert args[i..][1..] == args[i + 1..];
        Push(args[i]);
      }
      assert args[0..] == args;
    }

    /** Push the far magic address, save CS:IP, and go to the callee. */
    method CallFar(seg: u16, off: u16) returns (ok: bool)
      requires contexts.Length <= 0x1_0000
      modifies this`regs, this`mem, contexts
      ensures ok <==> Call(old(View()), Far, seg, off, codeStart).Some?
      ensures ok ==> View() == Call(old(View()), Far, seg, off, codeStart).value
    {
      if active.None? || active.value >= contexts.Length { return false; }
      var id := active.value;
      var addrOff := Linear(regs.ss, Sub16(regs.sp, 2));
      var addrSeg := Linear(regs.ss, Sub16(regs.sp, 4));
      mem := Write16(mem, addrOff, 0xffff);
      mem := Write16(mem, addrSeg, id);
      regs := regs.(sp := Sub16(regs.sp, 4));
      contexts[id] := contexts[id].(savedCs := regs.cs, savedIp := regs.ip, maybeReloc := false);
      regs := regs.(cs := Add16(seg, codeStart), ip := off);
      ok := true;
    }

    /** Push the near magic address, save CS:IP, and go to the callee in the same segment. */
    method CallNearOff(off: u16, maybeReloc: bool) returns (ok: bool)
      requires contexts.Length <= 0x1_0000
      modifies this`regs, this`mem, contexts
      ensures ok <==> Call(old(View()), Near(maybeReloc), 0, off, codeStart).Some?
      ensures ok ==> View() == Call(old(View()), Near(maybeReloc), 0, off, codeStart).value
    {
      if active.None? || active.value >= contexts.Length { return false; }
      var id := active.value;
      if id > 255 || regs.cs < codeStart { return false; }
      var addr := Linear(regs.ss, regs.sp);
      mem := Write16(mem, Sub32(addr, 2), 0xff00 + id);
      regs := regs.(sp := Sub16(regs.sp, 2));
      contexts[id] := contexts[id].(savedCs := regs.cs, savedIp := regs.ip, maybeReloc := maybeReloc);
      regs := regs.(ip := off);
      ok := true;
    }

    method CallNearAbs(absOff: u16) returns (ok: bool)
      requires contexts.Length <= 0x1_0000
      modifies this`regs, this`mem, contexts
      ensures var off := NearOffset(old(regs).cs, codeStart, absOff);
        && (ok <==> Call(old(View()), Near(false), 0, off, codeStart).Some?)
        && (ok ==> View() == Call(old(View()), Near(false), 0, off, codeStart).value)
    {
      ok := CallNearOff(NearOffset(regs.cs, codeStart, absOff), false);
    }

    /** Which suspended context the guest has returned to, if any. */
    method FindResumed() returns (id: Option<nat>)
      ensures id == TryResume(regs, contexts[..])
    {
      if regs.cs == 0xffff {
        if regs.ip < contexts.Length {
          if contexts[regs.ip].state == Active { return Some(regs.ip); }
        }
        return None;
      }
      if regs.cs != 0xf000 && regs.ip >= 0xff00 {
        var idx := regs.ip % 0x100;
        if idx < contexts.Length && contexts[idx].state == Active {
          if !contexts[idx].maybeReloc && regs.cs != contexts[idx].savedCs { return None; }
          return Some(idx);
        }
      }
      id := None;
    }

    /** What a call does once it is resumed; DX:AX is its result. */
    method FinishCall(id: nat, kind: Kind) returns (ok: bool, dxAx: u32)
      requires id < contexts.Length
      modifies this`regs, this`active
      ensures ok <==> Resumed(old(View()), id, kind).Some?
      ensures ok ==> View() == Resumed(old(View()), id, kind).value
      ensures dxAx == old(regs).dx * 0x1_0000 + old(regs).ax
    {
      dxAx := regs.dx * 0x1_0000 + regs.ax;
      if kind == Near(false) && regs.cs != contexts[id].savedCs { return false, dxAx; }
      active := Some(id);
      if kind.Far? {
        regs := regs.(cs := contexts[id].savedCs);
      }
      regs := regs.(ip := contexts[id].savedIp);
      ok := true;
    }

    /** The guest's return through the top of its stack. */
    method GuestReturns(far: bool, pops: u16)
      modifies this`regs
      ensures View() == HydraCalls.Pop(old(View()), far, pops)
    {
      var addr := Linear(regs.ss, regs.sp);
      if far {
        regs := regs.(ip := Read16(mem, addr), cs := Read16(mem, Add32(addr, 2)), sp := Add16(regs.sp, 4));
      } else {
        regs := regs.(ip := Read16(mem, addr), sp := Add16(regs.sp, 2));
      }
      regs := regs.(sp := Add16(regs.sp, pops));
    }

    /** A stub from its first push to its result. `guest` is what the guest does from the callee's entry to its return
        instruction, and `pops` what that removes. `ok` is false where an assertion of the source fails, or the guest
        goes on elsewhere. If the callee returns properly the caller gets DX:AX, with CS, IP, SS and SP as before. */
    method CallStub(args: seq<u16>, seg: u16, off: u16, near: bool, dontPopArgs: bool, guest: (Regs, Mem) -> (Regs, Mem), pops: u16)
      returns (ok: bool, dxAx: u32)
      requires |args| <= 7 && contexts.Length <= 0x1_0000
      requires active.Some? && active.value < contexts.Length && contexts[active.value].state.Active?
      modifies this`regs, this`mem, this`active, contexts
      ensures ok ==> StubStarts(old(View()), args, seg, off, near, codeStart).Some?
      ensures StubStarts(old(View()), args, seg, off, near, codeStart).Some? ==>
        var called := StubStarts(old(View()), args, seg, off, near, codeStart).value;
        StartsAt(called.regs, old(regs).cs, seg, off, near, codeStart)
      ensures StubStarts(old(View()), args, seg, off, near, codeStart).Some? ==>
        var called := StubStarts(old(View()), args, seg, off, near, codeStart).value;
        var (r, m) := guest(called.regs, called.mem);
        CalleeReturns(called, r, m, near, pops, |args|, dontPopArgs) ==>
          && ok && dxAx == r.dx * 0x1_0000 + r.ax && mem == m && active == old(active)
          && regs == r.(cs := old(regs).cs, ip := old(regs).ip, sp := old(regs).sp) && regs.ss == old(regs).ss
    {
      dxAx := 0;
      ghost var w := View();
      PushArgs(args);
      if near {
        ok := CallNearAbs(AbsOffset(seg, off));
      } else {
        ok := CallFar(seg, off);
      }
      if !ok { return; }
      ghost var called := View();
      CalleeStartsAt(w, args, seg, off, near, codeStart);
      var (r, m) := guest(regs, mem);
      regs, mem := r, m;
      GuestReturns(!near, pops);
      if CalleeReturns(called, r, m, near, pops, |args|, dontPopArgs) {
        StubRoundTrip(w, args, seg, off, near, codeStart, r, m, pops, dontPopArgs);
      }
      var id := FindResumed();
      ok := id.Some? && id == active;
      if !ok { return; }
      ok, dxAx := FinishCall(id.value, KindOf(near));
      if ok && !dontPopArgs {
        regs := regs.(sp := Add16(regs.sp, 2 * |args|));
      }
    }
  }
}
