/** Segmented addresses, and half-open ranges of them (dis86/src/segoff.rs, dis86/src/config.rs). */
module Addresses {
  type u16 = x: int | 0 <= x < 0x1_0000

  datatype Seg = Normal(n: u16) | Overlay(n: u16)

  datatype SegOff = SegOff(seg: Seg, off: u16) {
    /** Offsets wrap within their segment. */
    function AddOffset(k: nat): SegOff {
      SegOff(seg, (off + k) % 0x1_0000)
    }

    /** Segment first, normal segments before overlays; then offset. */
    predicate Less(b: SegOff) {
      if seg == b.seg then off < b.off
      else if seg.Normal? != b.seg.Normal? then seg.Normal?
      else seg.n < b.seg.n
    }
  }

  datatype Region = Region(start: SegOff, end: SegOff) {
    predicate Contains(a: SegOff) {
      a.seg == start.seg && start.off <= a.off < end.off
    }

    predicate OneSegment() {
      start.seg == end.seg
    }
  }

  function Max(a: SegOff, b: SegOff): SegOff {
    if a.Less(b) then b else a
  }

  /** Addresses are in a strict total order. */
  lemma LessIsTotal(a: SegOff, b: SegOff, c: SegOff)
    ensures !a.Less(a) && (a == b || a.Less(b) || b.Less(a)) && !(a.Less(b) && b.Less(a))
    ensures a.Less(b) && b.Less(c) ==> a.Less(c)
    ensures a.seg == b.seg ==> (a.Less(b) <==> a.off < b.off)
    ensures a.seg.Normal? && b.seg.Overlay? ==> a.Less(b)
    ensures a.seg.n < b.seg.n && (a.seg.Normal? <==> b.seg.Normal?) ==> a.Less(b)
  {
  }
}
