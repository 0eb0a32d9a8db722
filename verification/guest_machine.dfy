/** The guest's registers and memory as the hooks see them (hydra/src/hydra_machine.h, hydra/src/machine.h). */
module GuestMachine {
  type u8 = x: int | 0 <= x < 0x100
  type u16 = x: int | 0 <= x < 0x1_0000
  type u32 = x: int | 0 <= x < 0x1_0000_0000

  datatype Regs = Regs(ax: u16, bx: u16, cx: u16, dx: u16, si: u16, di: u16, bp: u16, sp: u16, ip: u16,
                       cs: u16, ds: u16, es: u16, ss: u16, flags: u16)

  /** Guest memory by linear address. */
  type Mem = u32 -> u8

  function Add16(x: u16, k: u16): u16 { if x + k >= 0x1_0000 then x + k - 0x1_0000 else x + k }

  function Sub16(x: u16, k: u16): u16 { if x >= k then x - k else x - k + 0x1_0000 }

  function Add32(x: u32, k: u16): u32 { if x + k >= 0x1_0000_0000 then x + k - 0x1_0000_0000 else x + k }

  function Sub32(x: u32, k: u16): u32 { if x >= k then x - k else x - k + 0x1_0000_0000 }

  function Linear(seg: u16, off: u16): u32 { seg * 16 + off }

  function Read16(mem: Mem, a: u32): u16 {
    mem(a) + 0x100 * mem(Add32(a, 1))
  }

  function Write16(mem: Mem, a: u32, v: u16): Mem {
    x => if x == a then v % 0x100 else if x == Add32(a, 1) then v / 0x100 else mem(x)
  }

  ghost predicate Apart(a: u32, b: u32) {
    a != b && a != Add32(b, 1) && b != Add32(a, 1)
  }

  lemma ReadBack(mem: Mem, a: u32, v: u16)
    ensures Read16(Write16(mem, a, v), a) == v
  {
    assert Add32(a, 1) != a;
  }

  lemma ReadOther(mem: Mem, a: u32, v: u16, b: u32)
    requires Apart(a, b)
    ensures Read16(Write16(mem, a, v), b) == Read16(mem, b)
  {
    assert Add32(a, 1) == Add32(b, 1) ==> a == b;
  }

  lemma ByteElsewhere(mem: Mem, a: u32, v: u16, x: u32)
    requires x != a && x != Add32(a, 1)
    ensures Write16(mem, a, v)(x) == mem(x)
  {
  }

  lemma BytesWritten(mem: Mem, a: u32, v: u16, x: u32)
    requires a < 0xffff_ffff
    ensures Write16(mem, a, v)(x) == if x == a then v % 256 else if x == a + 1 then v / 256 else mem(x)
  {
  }
}
