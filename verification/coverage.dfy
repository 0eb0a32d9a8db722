/** How much of a segment is accounted for (dis86/src/coverage.rs). */
module Coverage {
  import opened Wrappers
  import opened Addresses
  import opened Ranges
  import opened Regions

  datatype Func = Func(start: SegOff, end: Option<SegOff>, regions: seq<Region>)

  datatype Bytes = Bytes(code: nat, data: nat, unknown: nat, total: nat)

  // ------------------------------------------------------------------------
  // Sizes of ranges are numbers of addresses.

  ghost function Points(rs: seq<Range>, lo: nat, hi: nat): set<int> {
    set x | lo <= x < hi && In(rs, x)
  }

  ghost function Interval(lo: nat, hi: nat): (s: set<int>)
    ensures forall x :: x in s <==> lo <= x < hi
    ensures |s| == if lo <= hi then hi - lo else 0
  {
    if lo >= hi then {} else Interval(lo, hi - 1) + {hi - 1}
  }

  function Total(rs: seq<Range>): (n: nat)
    requires Ascending(rs)
  {
    if rs == [] then 0 else Total(rs[..|rs| - 1]) + (rs[|rs| - 1].end - rs[|rs| - 1].start)
  }

  ghost predicate Ascending(rs: seq<Range>) {
    forall i :: 0 <= i < |rs| ==> rs[i].start <= rs[i].end
  }

  lemma {:induction false} TotalIsSize(rs: seq<Range>, lo: nat, hi: nat)
    requires Spaced(rs) && forall i :: 0 <= i < |rs| ==> lo <= rs[i].start && rs[i].end <= hi
    ensures Total(rs) == |Points(rs, lo, hi)|
  {
    if rs == [] {
      assert Points(rs, lo, hi) == {};
    } else {
      TotalIsSize(rs[..|rs| - 1], lo, hi);
      LastRange(rs, rs[..|rs| - 1], rs[|rs| - 1]);
      LastPoints(rs, rs[..|rs| - 1], rs[|rs| - 1], lo, hi);
    }
  }

  lemma LastRange(rs: seq<Range>, less: seq<Range>, last: Range)
    requires Spaced(rs) && rs == less + [last]
    ensures forall x :: In(rs, x) <==> In(less, x) || Within(last, x)
    ensures forall i :: 0 <= i < |less| ==> less[i].end < last.start
  {
    forall x
      ensures In(rs, x) <==> In(less, x) || Within(last, x)
    {
      InConcat(less, last, x);
    }
    assert forall i :: 0 <= i < |less| ==> rs[i] == less[i] && rs[i].end < rs[|less|].start;
  }

  lemma LastPoints(rs: seq<Range>, less: seq<Range>, last: Range, lo: nat, hi: nat)
    requires forall x :: In(rs, x) <==> In(less, x) || Within(last, x)
    requires forall i :: 0 <= i < |less| ==> less[i].end < last.start
    requires lo <= last.start < last.end <= hi
    ensures |Points(rs, lo, hi)| == |Points(less, lo, hi)| + (last.end - last.start)
  {
    assert Points(rs, lo, hi) == Points(less, lo, hi) + Interval(last.start, last.end);
    forall x | x in Points(less, lo, hi)
      ensures x !in Interval(last.start, last.end)
    {
      var i :| 0 <= i < |less| && Within(less[i], x);
    }
  }

  /** The number of addresses of the span outside the set. */
  method GapsSize(rs: RangeSet, start: nat, end: nat) returns (n: nat)
    requires rs.Valid()
    ensures n == |Interval(start, end) - Points(rs.ranges, start, end)|
  {
    var gaps := rs.GapsWithin(start, end);
    GapPoints(rs.ranges, gaps, start, end);
    n := Sum(gaps);
  }

  lemma GapPoints(rs: seq<Range>, gaps: seq<Range>, start: nat, end: nat)
    requires Spaced(gaps) && forall i :: 0 <= i < |gaps| ==> start <= gaps[i].start && gaps[i].end <= end
    requires forall x :: In(gaps, x) <==> start <= x < end && !In(rs, x)
    ensures Total(gaps) == |Interval(start, end) - Points(rs, start, end)|
  {
    TotalIsSize(gaps, start, end);
    assert Points(gaps, start, end) == Interval(start, end) - Points(rs, start, end);
  }

  method Sum(gaps: seq<Range>) returns (n: nat)
    requires Ascending(gaps)
    ensures n == Total(gaps)
  {
    n := 0;
    for i := 0 to |gaps|
      invariant n == Total(gaps[..i])
    {
      assert gaps[..i + 1][..i] == gaps[..i];
      n := n + (gaps[i].end - gaps[i].start);
    }
    assert gaps[..|gaps|] == gaps;
  }

  function Monus(a: nat, b: nat): nat { if a < b then 0 else a - b }

  /** The number of addresses of the span in the set. */
  method BytesIn(rs: RangeSet, start: nat, end: nat) returns (n: nat)
    requires rs.Valid()
    ensures n == |Points(rs.ranges, start, end)|
  {
    var gaps := GapsSize(rs, start, end);
    assert Interval(start, end) == (Interval(start, end) - Points(rs.ranges, start, end)) + Points(rs.ranges, start, end);
    n := Monus(Monus(end, start), gaps);
  }

  // ------------------------------------------------------------------------
  // What is counted.

  /** The address is code of one of the functions that start in the segment. */
  ghost predicate IsCode(funcs: seq<Func>, data: seq<Region>, seg: Seg, x: int) {
    0 <= x < 0x1_0000 && exists k :: 0 <= k < |funcs| && CodeOf(funcs[k], data, seg, x)
  }

  ghost predicate CodeOf(f: Func, data: seq<Region>, seg: Seg, x: u16) {
    && f.start.seg == seg
    && !InData(data, seg, SegOff(seg, x))
    && if f.regions != [] then Occupied(f.regions, SegOff(seg, x))
       else f.end.Some? && Region(f.start, f.end.value).Contains(SegOff(seg, x))
  }

  ghost predicate IsData(data: seq<Region>, seg: Seg, x: int) {
    0 <= x < 0x1_0000 && InData(data, seg, SegOff(seg, x))
  }

  lemma Conserved(code: seq<Range>, data: seq<Range>, known: seq<Range>, start: nat, end: nat)
    requires forall x :: In(code, x) ==> !In(data, x)
    requires forall x :: In(known, x) <==> In(code, x) || In(data, x)
    ensures |Points(code, start, end)| + |Points(data, start, end)| + |Interval(start, end) - Points(known, start, end)| == |Interval(start, end)|
  {
    var c, d, k := Points(code, start, end), Points(data, start, end), Points(known, start, end);
    assert k == c + d && c !! d;
    assert Interval(start, end) == k + (Interval(start, end) - k);
  }

  /** The address is code of one of the first `n` functions. */
  ghost predicate CodeSoFar(funcs: seq<Func>, n: nat, data: seq<Region>, seg: Seg, x: int)
    requires n <= |funcs|
  {
    0 <= x < 0x1_0000 && exists k :: 0 <= k < n && CodeOf(funcs[k], data, seg, x)
  }

  ghost predicate InFirst(rs: seq<Region>, n: nat, seg: Seg, x: int)
    requires n <= |rs|
  {
    0 <= x < 0x1_0000 && exists i :: 0 <= i < n && rs[i].Contains(SegOff(seg, x))
  }

  lemma InFirstMore(rs: seq<Region>, n: nat, seg: Seg, x: int)
    requires n < |rs|
    ensures InFirst(rs, n + 1, seg, x) <==> InFirst(rs, n, seg, x) || (0 <= x < 0x1_0000 && rs[n].Contains(SegOff(seg, x)))
  {
  }

  /** `code` and `known` hold what they held, and in the span what the first `n` regions hold. */
  ghost predicate Added(was: seq<Range>, now: seq<Range>, rs: seq<Region>, n: nat, seg: Seg, start: nat, end: nat)
    requires n <= |rs|
  {
    forall x :: In(now, x) <==> In(was, x) || (start <= x < end && InFirst(rs, n, seg, x))
  }

  /** The set grew by the part of the region that lies in the segment and the span. */
  ghost predicate Grown(was: seq<Range>, now: seq<Range>, r: Region, seg: Seg, start: nat, end: nat) {
    if r.start.seg != seg || r.end.seg != seg then now == was
    else forall x :: In(now, x) <==> In(was, x) || (Ranges.Max(r.start.off, start) <= x < Ranges.Min(r.end.off, end))
  }

  lemma AddedOne(was: seq<Range>, mid: seq<Range>, now: seq<Range>, rs: seq<Region>, n: nat, seg: Seg, start: nat, end: nat)
    requires n < |rs| && rs[n].OneSegment() && Added(was, mid, rs, n, seg, start, end)
    requires Grown(mid, now, rs[n], seg, start, end)
    ensures Added(was, now, rs, n + 1, seg, start, end)
  {
    forall x
      ensures In(now, x) <==> In(was, x) || (start <= x < end && InFirst(rs, n + 1, seg, x))
    {
      InFirstMore(rs, n, seg, x);
    }
  }

  /** Put the part of a region that lies in the span into both sets. */
  method AddSpan(r: Region, seg: Seg, start: nat, end: nat, a: RangeSet, b: RangeSet)
    requires a.Valid() && b.Valid() && a != b
    modifies a, b
    ensures a.Valid() && b.Valid()
    ensures Grown(old(a.ranges), a.ranges, r, seg, start, end) && Grown(old(b.ranges), b.ranges, r, seg, start, end)
  {
    if r.start.seg != seg || r.end.seg != seg { return; }
    var s, e := Ranges.Max(r.start.off, start), Ranges.Min(r.end.off, end);
    if s < e {
      a.Insert(s, e);
      b.Insert(s, e);
    }
  }

  /** All of a function's code that lies in the span. */
  method AddCode(regions: seq<Region>, seg: Seg, start: nat, end: nat, code: RangeSet, known: RangeSet)
    requires code.Valid() && known.Valid() && code != known && forall r :: r in regions ==> r.OneSegment()
    modifies code, known
    ensures code.Valid() && known.Valid()
    ensures Added(old(code.ranges), code.ranges, regions, |regions|, seg, start, end)
    ensures Added(old(known.ranges), known.ranges, regions, |regions|, seg, start, end)
  {
    for n := 0 to |regions|
      invariant code.Valid() && known.Valid()
      invariant Added(old(code.ranges), code.ranges, regions, n, seg, start, end)
      invariant Added(old(known.ranges), known.ranges, regions, n, seg, start, end)
    {
      ghost var c, k := code.ranges, known.ranges;
      assert regions[n] in regions;
      AddSpan(regions[n], seg, start, end, code, known);
      AddedOne(old(code.ranges), c, code.ranges, regions, n, seg, start, end);
      AddedOne(old(known.ranges), k, known.ranges, regions, n, seg, start, end);
    }
  }

  lemma FuncCode(f: Func, eff: seq<Region>, code: seq<Region>, data: seq<Region>, seg: Seg, x: int)
    requires f.start.seg == seg
    requires f.regions != [] ==> forall a :: Occupied(eff, a) <==> Occupied(f.regions, a)
    requires f.regions == [] && f.end.Some? ==> eff == [Region(f.start, f.end.value)]
    requires f.regions == [] && f.end.None? ==> eff == []
    requires forall a :: Occupied(code, a) <==> Occupied(eff, a) && !InData(data, a.seg, a)
    ensures InFirst(code, |code|, seg, x) <==> 0 <= x < 0x1_0000 && CodeOf(f, data, seg, x)
  {
    if 0 <= x < 0x1_0000 {
      assert InFirst(code, |code|, seg, x) <==> Occupied(code, SegOff(seg, x));
      if f.regions == [] && f.end.Some? {
        assert eff[0] == Region(f.start, f.end.value);
      }
    }
  }

  /** One function's share. */
  method AddFunc(f: Func, data: seq<Region>, seg: Seg, start: nat, end: nat, code: RangeSet, known: RangeSet)
    requires code.Valid() && known.Valid() && code != known
    modifies code, known
    ensures code.Valid() && known.Valid()
    ensures forall x :: In(code.ranges, x) <==> In(old(code.ranges), x) || (start <= x < end && 0 <= x < 0x1_0000 && CodeOf(f, data, seg, x))
    ensures forall x :: In(known.ranges, x) <==> In(old(known.ranges), x) || (start <= x < end && 0 <= x < 0x1_0000 && CodeOf(f, data, seg, x))
  {
    if f.start.seg != seg { return; }
    var eff := EffectiveRegions(f.start, f.end, f.regions);
    var regions := CodeRegions(eff, data);
    AddCode(regions, seg, start, end, code, known);
    forall x
      ensures InFirst(regions, |regions|, seg, x) <==> 0 <= x < 0x1_0000 && CodeOf(f, data, seg, x)
    {
      FuncCode(f, eff, regions, data, seg, x);
    }
  }

  /** The span's addresses by kind: code is what functions hold and no data does, the kinds do not
      overlap, and together they are all of the span. */
  method ForSpan(funcs: seq<Func>, data: seq<Region>, seg: Seg, start: nat, end: nat) returns (b: Bytes)
    ensures b.code == |set x | start <= x < end && IsCode(funcs, data, seg, x)|
    ensures b.data == |set x | start <= x < end && IsData(data, seg, x)|
    ensures b.total == Monus(end, start) && b.code + b.data + b.unknown == b.total
  {
    var codeSet := new RangeSet();
    var known := new RangeSet();
    for n := 0 to |funcs|
      invariant codeSet.Valid() && known.Valid() && codeSet != known && fresh(codeSet) && fresh(known)
      invariant forall x :: In(codeSet.ranges, x) <==> start <= x < end && CodeSoFar(funcs, n, data, seg, x)
      invariant forall x :: In(known.ranges, x) <==> In(codeSet.ranges, x)
    {
      AddFunc(funcs[n], data, seg, start, end, codeSet, known);
    }
    assert forall x :: In(codeSet.ranges, x) <==> start <= x < end && IsCode(funcs, data, seg, x);
    var dataSet := new RangeSet();
    AddData(data, seg, start, end, dataSet, known);
    b := Count(funcs, data, seg, start, end, codeSet, dataSet, known);
  }

  method AddData(data: seq<Region>, seg: Seg, start: nat, end: nat, dataSet: RangeSet, known: RangeSet)
    requires dataSet.Valid() && known.Valid() && dataSet != known && dataSet.ranges == []
    modifies dataSet, known
    ensures dataSet.Valid() && known.Valid()
    ensures forall x :: In(dataSet.ranges, x) <==> start <= x < end && IsData(data, seg, x)
    ensures forall x :: In(known.ranges, x) <==> In(old(known.ranges), x) || In(dataSet.ranges, x)
  {
    for n := 0 to |data|
      invariant dataSet.Valid() && known.Valid()
      invariant forall x :: In(dataSet.ranges, x) <==> start <= x < end && IsData(data[..n], seg, x)
      invariant forall x :: In(known.ranges, x) <==> In(old(known.ranges), x) || In(dataSet.ranges, x)
    {
      ghost var was := dataSet.ranges;
      AddSpan(data[n], seg, start, end, dataSet, known);
      forall x
        ensures In(dataSet.ranges, x) <==> start <= x < end && IsData(data[..n + 1], seg, x)
      {
        if 0 <= x < 0x1_0000 {
          InDataMore(data, n, seg, SegOff(seg, x));
        }
      }
    }
    assert data[..|data|] == data;
  }

  method Count(ghost funcs: seq<Func>, ghost data: seq<Region>, ghost seg: Seg, start: nat, end: nat,
               codeSet: RangeSet, dataSet: RangeSet, known: RangeSet) returns (b: Bytes)
    requires codeSet.Valid() && dataSet.Valid() && known.Valid()
    requires forall x :: In(codeSet.ranges, x) <==> start <= x < end && IsCode(funcs, data, seg, x)
    requires forall x :: In(dataSet.ranges, x) <==> start <= x < end && IsData(data, seg, x)
    requires forall x :: In(known.ranges, x) <==> In(codeSet.ranges, x) || In(dataSet.ranges, x)
    ensures b.code == |set x | start <= x < end && IsCode(funcs, data, seg, x)|
    ensures b.data == |set x | start <= x < end && IsData(data, seg, x)|
    ensures b.total == Monus(end, start) && b.code + b.data + b.unknown == b.total
  {
    var c := BytesIn(codeSet, start, end);
    var d := BytesIn(dataSet, start, end);
    var u := GapsSize(known, start, end);
    b := Bytes(c, d, u, Monus(end, start));
    Conserved(codeSet.ranges, dataSet.ranges, known.ranges, start, end);
    assert Points(codeSet.ranges, start, end) == set x | start <= x < end && IsCode(funcs, data, seg, x);
    assert Points(dataSet.ranges, start, end) == set x | start <= x < end && IsData(data, seg, x);
  }
}
