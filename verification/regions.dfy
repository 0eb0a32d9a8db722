/** The ranges a function occupies, what of them is code, and how a segment is covered
    (dis86/src/config.rs, dis86/src/coverage.rs). */
module Regions {
  import opened Wrappers
  import opened Addresses
  import Ranges

  ghost predicate Occupied(rs: seq<Region>, a: SegOff) {
    exists i :: 0 <= i < |rs| && rs[i].Contains(a)
  }

  predicate Sooner(a: Region, b: Region) {
    a.start.Less(b.start) || (a.start == b.start && !b.end.Less(a.end))
  }

  ghost predicate Ordered(rs: seq<Region>) {
    forall i, j :: 0 <= i < j < |rs| ==> Sooner(rs[i], rs[j])
  }

  lemma SoonerTrans(a: Region, b: Region, c: Region)
    requires Sooner(a, b) && Sooner(b, c)
    ensures Sooner(a, c)
  {
  }

  lemma InsertOrdered(out: seq<Region>, k: nat, r: Region)
    requires Ordered(out) && k <= |out| && (k > 0 ==> Sooner(out[k - 1], r)) && (k < |out| ==> Sooner(r, out[k]))
    ensures Ordered(out[..k] + [r] + out[k..])
  {
    var more := out[..k] + [r] + out[k..];
    forall i, j | 0 <= i < j < |more|
      ensures Sooner(more[i], more[j])
    {
      if j == k && i < k - 1 {
        SoonerTrans(out[i], out[k - 1], r);
      } else if i == k && j > k + 1 {
        SoonerTrans(r, out[k], out[j - 1]);
      }
    }
  }

  lemma InsertedOnce(out: seq<Region>, k: nat, r: Region)
    requires k <= |out|
    ensures multiset(out[..k] + [r] + out[k..]) == multiset(out) + multiset{r}
  {
    assert out == out[..k] + out[k..];
  }

  method InsertOne(out: seq<Region>, r: Region) returns (more: seq<Region>)
    requires Ordered(out)
    ensures Ordered(more) && multiset(more) == multiset(out) + multiset{r}
  {
    var k := |out|;
    while k > 0 && !Sooner(out[k - 1], r)
      invariant 0 <= k <= |out|
      invariant k < |out| ==> Sooner(r, out[k])
    {
      k := k - 1;
    }
    InsertOrdered(out, k, r);
    InsertedOnce(out, k, r);
    more := out[..k] + [r] + out[k..];
  }

  /** The regions in address order. */
  method Sort(rs: seq<Region>) returns (out: seq<Region>)
    ensures Ordered(out) && multiset(out) == multiset(rs)
  {
    out := [];
    for n := 0 to |rs|
      invariant Ordered(out) && multiset(out) == multiset(rs[..n])
    {
      assert rs[..n + 1] == rs[..n] + [rs[n]];
      out := InsertOne(out, rs[n]);
    }
    assert rs[..|rs|] == rs;
  }

  lemma SameOccupied(a: seq<Region>, b: seq<Region>)
    requires multiset(a) == multiset(b)
    ensures forall x :: Occupied(a, x) <==> Occupied(b, x)
  {
    forall x
      ensures Occupied(a, x) <==> Occupied(b, x)
    {
      if i :| 0 <= i < |a| && a[i].Contains(x) {
        assert a[i] in multiset(b);
        assert a[i] in b;
      }
      if i :| 0 <= i < |b| && b[i].Contains(x) {
        assert b[i] in multiset(a);
        assert b[i] in a;
      }
    }
  }

  /** In address order, and with a gap between any two in one segment. */
  ghost predicate Separate(rs: seq<Region>) {
    forall i, j :: 0 <= i < j < |rs| ==> Apart(rs[i], rs[j])
  }

  ghost predicate Apart(a: Region, b: Region) {
    !b.start.Less(a.start) && (a.start.seg == b.start.seg ==> a.end.off < b.start.off)
  }

  /** One more region, in order, is merged into the last one if it overlaps or touches it. */
  function Absorb(merged: seq<Region>, r: Region): seq<Region> {
    if merged == [] then [r]
    else
      var n := |merged| - 1;
      var last := merged[n];
      if last.start.seg == r.start.seg && r.start.off <= last.end.off then
        if r.end.off > last.end.off then merged[n := last.(end := r.end)] else merged
      else merged + [r]
  }

  ghost predicate NotBeforeLast(merged: seq<Region>, r: Region) {
    merged != [] ==> !r.start.Less(merged[|merged| - 1].start)
  }

  lemma AbsorbOccupied(merged: seq<Region>, r: Region, a: SegOff)
    requires NotBeforeLast(merged, r)
    ensures Occupied(Absorb(merged, r), a) <==> Occupied(merged, a) || r.Contains(a)
  {
    var out := Absorb(merged, r);
    if i :| 0 <= i < |merged| && merged[i].Contains(a) {
      assert out[i].Contains(a);
    }
    if r.Contains(a) {
      assert out[|out| - 1].Contains(a);
    }
    if i :| 0 <= i < |out| && out[i].Contains(a) {
      if i < |merged| && !merged[i].Contains(a) {
        assert r.Contains(a);
      }
    }
  }

  lemma AbsorbSeparate(merged: seq<Region>, r: Region)
    requires NotBeforeLast(merged, r) && Separate(merged)
    ensures Separate(Absorb(merged, r))
    ensures var out := Absorb(merged, r); out != [] && !r.start.Less(out[|out| - 1].start)
  {
    var out := Absorb(merged, r);
    forall i, j | 0 <= i < j < |out|
      ensures Apart(out[i], out[j])
    {
      if j < |merged| {
        assert Apart(merged[i], merged[j]);
      } else if i < |merged| - 1 {
        assert Apart(merged[i], merged[|merged| - 1]);
      }
    }
  }

  /** The regions in order, with the overlapping and touching ones merged. */
  method MergeOrdered(sorted: seq<Region>) returns (out: seq<Region>)
    requires Ordered(sorted)
    ensures Separate(out) && forall a :: Occupied(out, a) <==> Occupied(sorted, a)
  {
    out := [];
    for n := 0 to |sorted|
      invariant forall a :: Occupied(out, a) <==> Occupied(sorted[..n], a)
      invariant Separate(out) && (n < |sorted| ==> NotBeforeLast(out, sorted[n]))
    {
      AbsorbSeparate(out, sorted[n]);
      forall a
        ensures Occupied(Absorb(out, sorted[n]), a) <==> Occupied(sorted[..n + 1], a)
      {
        AbsorbOccupied(out, sorted[n], a);
        OccupiedConcat(sorted, n, a);
      }
      assert n + 1 < |sorted| ==> Sooner(sorted[n], sorted[n + 1]);
      out := Absorb(out, sorted[n]);
    }
    assert sorted[..|sorted|] == sorted;
  }

  /** The ranges of a function body: its own regions merged, or else from its start to its end. */
  method EffectiveRegions(start: SegOff, end: Option<SegOff>, regions: seq<Region>) returns (out: seq<Region>)
    ensures regions != [] ==> forall a :: Occupied(out, a) <==> Occupied(regions, a)
    ensures regions == [] && end.Some? ==> out == [Region(start, end.value)]
    ensures regions == [] && end.None? ==> out == []
    ensures Separate(out)
  {
    if regions == [] {
      out := if end.None? then [] else [Region(start, end.value)];
      return;
    }
    var sorted := Sort(regions);
    SameOccupied(regions, sorted);
    out := MergeOrdered(sorted);
  }

  lemma OccupiedConcat(rs: seq<Region>, n: nat, a: SegOff)
    requires n < |rs|
    ensures Occupied(rs[..n + 1], a) <==> Occupied(rs[..n], a) || rs[n].Contains(a)
  {
    var less, more := rs[..n], rs[..n + 1];
    if i :| 0 <= i < |less| && less[i].Contains(a) {
      assert more[i].Contains(a);
    }
    assert more[n] == rs[n];
    if i :| 0 <= i < |more| && more[i].Contains(a) {
      assert i < n ==> less[i].Contains(a);
    }
  }

  // ------------------------------------------------------------------------
  // Code is what is not declared data.

  /** `a` lies in declared data, as far as code in segment `seg` is concerned. */
  ghost predicate InData(data: seq<Region>, seg: Seg, a: SegOff) {
    exists i :: 0 <= i < |data| && data[i].start.seg == seg && data[i].end.seg == seg && data[i].Contains(a)
  }

  function Clamp(r: Region, d: Region): Ranges.Range {
    Ranges.Range(Ranges.Max(d.start.off, r.start.off), Ranges.Min(d.end.off, r.end.off))
  }

  /** The data ranges that were put into the set. */
  ghost predicate Collected(rs: seq<Ranges.Range>, data: seq<Region>, n: nat, r: Region)
    requires n <= |data|
  {
    forall x :: r.start.off <= x < r.end.off ==> (Ranges.In(rs, x) <==> InData(data[..n], r.start.seg, SegOff(r.start.seg, x)))
  }

  lemma CollectOne(rs: seq<Ranges.Range>, rs': seq<Ranges.Range>, data: seq<Region>, n: nat, r: Region)
    requires n < |data| && Collected(rs, data, n, r)
    requires Grew(rs, rs', r, data[n])
    ensures Collected(rs', data, n + 1, r)
  {
    forall x | r.start.off <= x < r.end.off
      ensures Ranges.In(rs', x) <==> InData(data[..n + 1], r.start.seg, SegOff(r.start.seg, x))
    {
      InDataMore(data, n, r.start.seg, SegOff(r.start.seg, x));
    }
  }

  lemma InDataMore(data: seq<Region>, n: nat, seg: Seg, a: SegOff)
    requires n < |data|
    ensures InData(data[..n + 1], seg, a) <==>
      InData(data[..n], seg, a) || (data[n].start.seg == seg && data[n].end.seg == seg && data[n].Contains(a))
  {
    var less, more := data[..n], data[..n + 1];
    if i :| 0 <= i < |less| && less[i].start.seg == seg && less[i].end.seg == seg && less[i].Contains(a) {
      assert more[i] == less[i];
    }
    assert more[n] == data[n];
    if i :| 0 <= i < |more| && more[i].start.seg == seg && more[i].end.seg == seg && more[i].Contains(a) {
      assert i < n ==> less[i] == more[i];
    }
  }

  ghost predicate Grew(rs: seq<Ranges.Range>, rs': seq<Ranges.Range>, r: Region, d: Region) {
    if d.start.seg != r.start.seg || d.end.seg != r.start.seg then rs' == rs
    else forall x :: Ranges.In(rs', x) <==> Ranges.In(rs, x) || Clamp(r, d).start <= x < Clamp(r, d).end
  }

  method AddData(r: Region, d: Region, holes: Ranges.RangeSet)
    requires holes.Valid()
    modifies holes
    ensures holes.Valid() && Grew(old(holes.ranges), holes.ranges, r, d)
  {
    if d.start.seg == r.start.seg && d.end.seg == r.start.seg {
      holes.Insert(Ranges.Max(d.start.off, r.start.off), Ranges.Min(d.end.off, r.end.off));
    }
  }

  lemma CollectNone(rs: seq<Ranges.Range>, data: seq<Region>, r: Region)
    requires rs == []
    ensures Collected(rs, data, 0, r)
  {
  }

  /** The declared data within a region. */
  method DataWithin(r: Region, data: seq<Region>) returns (holes: Ranges.RangeSet)
    ensures fresh(holes) && holes.Valid() && Collected(holes.ranges, data, |data|, r)
  {
    holes := new Ranges.RangeSet();
    CollectNone(holes.ranges, data, r);
    for n := 0 to |data|
      invariant holes.Valid() && fresh(holes) && Collected(holes.ranges, data, n, r)
    {
      ghost var was := holes.ranges;
      AddData(r, data[n], holes);
      CollectOne(was, holes.ranges, data, n, r);
    }
  }

  method GapRegions(r: Region, gaps: seq<Ranges.Range>) returns (code: seq<Region>)
    ensures |code| == |gaps| && forall i :: 0 <= i < |gaps| ==> code[i] == GapRegion(r, gaps[i])
  {
    code := [];
    for n := 0 to |gaps|
      invariant |code| == n && forall i :: 0 <= i < n ==> code[i] == GapRegion(r, gaps[i])
    {
      code := code + [GapRegion(r, gaps[n])];
    }
  }

  /** The code of one region, in ascending order. */
  method CodeOfRegion(r: Region, data: seq<Region>) returns (code: seq<Region>)
    ensures forall a :: Occupied(code, a) <==> r.Contains(a) && !InData(data, r.start.seg, a)
    ensures forall c :: c in code ==> c.start.seg == r.start.seg && c.end.seg == r.start.seg
  {
    var holes := DataWithin(r, data);
    var gaps := holes.GapsWithin(r.start.off, r.end.off);
    code := GapRegions(r, gaps);
    CodeIsGaps(r, data, holes.ranges, gaps, code);
  }

  lemma CodeIsGaps(r: Region, data: seq<Region>, holes: seq<Ranges.Range>, gaps: seq<Ranges.Range>, code: seq<Region>)
    requires Collected(holes, data, |data|, r)
    requires |code| == |gaps| && forall i :: 0 <= i < |gaps| ==> code[i] == GapRegion(r, gaps[i])
    requires forall i :: 0 <= i < |gaps| ==> r.start.off <= gaps[i].start && gaps[i].end <= r.end.off && gaps[i].start < gaps[i].end
    requires forall x :: Ranges.In(gaps, x) <==> r.start.off <= x < r.end.off && !Ranges.In(holes, x)
    ensures forall a :: Occupied(code, a) <==> r.Contains(a) && !InData(data, r.start.seg, a)
    ensures forall c :: c in code ==> c.start.seg == r.start.seg && c.end.seg == r.start.seg
  {
    assert data[..|data|] == data;
    forall a
      ensures Occupied(code, a) <==> r.Contains(a) && !InData(data, r.start.seg, a)
    {
      GapsOccupy(r, gaps, code, a);
      assert a.seg == r.start.seg ==> a == SegOff(r.start.seg, a.off);
    }
  }

  function GapRegion(r: Region, g: Ranges.Range): Region {
    if g.start < 0x1_0000 && g.end < 0x1_0000 then Region(SegOff(r.start.seg, g.start), SegOff(r.start.seg, g.end)) else r
  }

  lemma GapsOccupy(r: Region, gaps: seq<Ranges.Range>, code: seq<Region>, a: SegOff)
    requires |code| == |gaps| && forall i :: 0 <= i < |gaps| ==> code[i] == GapRegion(r, gaps[i])
    requires forall i :: 0 <= i < |gaps| ==> r.start.off <= gaps[i].start && gaps[i].end <= r.end.off && gaps[i].start < gaps[i].end
    ensures Occupied(code, a) <==> a.seg == r.start.seg && Ranges.In(gaps, a.off)
  {
    if i :| 0 <= i < |gaps| && Ranges.Within(gaps[i], a.off) {
      assert a.seg == r.start.seg ==> code[i].Contains(a);
    }
    if i :| 0 <= i < |code| && code[i].Contains(a) {
      assert Ranges.Within(gaps[i], a.off);
    }
  }

  lemma OneRegionMore(regions: seq<Region>, n: nat, data: seq<Region>, was: seq<Region>, more: seq<Region>)
    requires n < |regions|
    requires forall a :: Occupied(was, a) <==> Occupied(regions[..n], a) && !InData(data, a.seg, a)
    requires forall a :: Occupied(more, a) <==> regions[n].Contains(a) && !InData(data, regions[n].start.seg, a)
    ensures forall a :: Occupied(was + more, a) <==> Occupied(regions[..n + 1], a) && !InData(data, a.seg, a)
  {
    forall a
      ensures Occupied(was + more, a) <==> Occupied(regions[..n + 1], a) && !InData(data, a.seg, a)
    {
      OccupiedConcat(regions, n, a);
      OccupiedBoth(was, more, a);
    }
  }

  /** An address is code exactly when a region holds it and no data declared in that region's segment does. */
  method CodeRegions(regions: seq<Region>, data: seq<Region>) returns (code: seq<Region>)
    ensures Ordered(code)
    ensures forall a :: Occupied(code, a) <==> Occupied(regions, a) && !InData(data, a.seg, a)
    ensures forall c :: c in code ==> c.OneSegment()
  {
    var all: seq<Region> := [];
    for n := 0 to |regions|
      invariant forall a :: Occupied(all, a) <==> Occupied(regions[..n], a) && !InData(data, a.seg, a)
      invariant forall c :: c in all ==> c.OneSegment()
    {
      var more := CodeOfRegion(regions[n], data);
      ghost var was := all;
      all := all + more;
      OneRegionMore(regions, n, data, was, more);
    }
    assert regions[..|regions|] == regions;
    code := Sort(all);
    SameOccupied(all, code);
    forall c | c in code
      ensures c.OneSegment()
    {
      assert c in multiset(all);
    }
  }

  lemma OccupiedBoth(a: seq<Region>, b: seq<Region>, x: SegOff)
    ensures Occupied(a + b, x) <==> Occupied(a, x) || Occupied(b, x)
  {
    var ab := a + b;
    if i :| 0 <= i < |a| && a[i].Contains(x) {
      assert ab[i].Contains(x);
    }
    if i :| 0 <= i < |b| && b[i].Contains(x) {
      assert ab[|a| + i].Contains(x);
    }
    if i :| 0 <= i < |ab| && ab[i].Contains(x) {
      assert if i < |a| then a[i].Contains(x) else b[i - |a|].Contains(x);
    }
  }
}
