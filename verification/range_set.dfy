/** Sets of numbers kept as ranges (dis86/src/util/range_set.rs). */
module Ranges {
  datatype Range = Range(start: nat, end: nat)

  /** Ascending, none empty, and a gap between any two. */
  ghost predicate Spaced(rs: seq<Range>) {
    && (forall i :: 0 <= i < |rs| ==> rs[i].start < rs[i].end)
    && (forall i, j :: 0 <= i < j < |rs| ==> rs[i].end < rs[j].start)
  }

  ghost predicate Within(r: Range, x: int) {
    r.start <= x < r.end
  }

  ghost predicate In(rs: seq<Range>, x: int) {
    exists i :: 0 <= i < |rs| && Within(rs[i], x)
  }

  /** The first range that does not end before `x`. */
  method FirstNotBefore(rs: seq<Range>, x: nat, strict: bool) returns (k: nat)
    requires Spaced(rs)
    ensures k <= |rs|
    ensures forall i :: 0 <= i < k ==> if strict then rs[i].end <= x else rs[i].end < x
    ensures forall i :: k <= i < |rs| ==> if strict then rs[i].end > x else rs[i].end >= x
  {
    k := 0;
    while k < |rs| && (if strict then rs[k].end <= x else rs[k].end < x)
      invariant k <= |rs| && forall i :: 0 <= i < k ==> if strict then rs[i].end <= x else rs[i].end < x
    {
      k := k + 1;
    }
  }

  /** The first range that starts after `x`. */
  method FirstAfter(rs: seq<Range>, x: nat, strict: bool) returns (k: nat)
    requires Spaced(rs)
    ensures k <= |rs|
    ensures forall i :: 0 <= i < k ==> if strict then rs[i].start < x else rs[i].start <= x
    ensures forall i :: k <= i < |rs| ==> if strict then rs[i].start >= x else rs[i].start > x
  {
    k := 0;
    while k < |rs| && (if strict then rs[k].start < x else rs[k].start <= x)
      invariant k <= |rs| && forall i :: 0 <= i < k ==> if strict then rs[i].start < x else rs[i].start <= x
    {
      k := k + 1;
    }
  }

  function Min(a: nat, b: nat): nat { if a < b then a else b }

  function Max(a: nat, b: nat): nat { if a < b then b else a }

  function Merged(rs: seq<Range>, lo: nat, hi: nat, start: nat, end: nat): Range
    requires lo <= |rs| && hi <= |rs|
  {
    if lo < hi then Range(Min(rs[lo].start, start), Max(rs[hi - 1].end, end)) else Range(start, end)
  }

  function Spliced(rs: seq<Range>, lo: nat, hi: nat, r: Range): seq<Range>
    requires lo <= hi <= |rs|
  {
    rs[..lo] + [r] + rs[hi..]
  }

  /** The ranges from `lo` to `hi` are those that overlap or touch [start, end). */
  ghost predicate Touched(rs: seq<Range>, lo: nat, hi: nat, start: nat, end: nat) {
    && lo <= hi <= |rs|
    && (forall i :: 0 <= i < lo ==> rs[i].end < start)
    && (forall i :: lo <= i < hi ==> rs[i].end >= start && rs[i].start <= end)
    && (forall i :: hi <= i < |rs| ==> rs[i].start > end)
  }

  lemma SplicedSpaced(rs: seq<Range>, lo: nat, hi: nat, start: nat, end: nat)
    requires Spaced(rs) && start < end && Touched(rs, lo, hi, start, end)
    ensures Spaced(Spliced(rs, lo, hi, Merged(rs, lo, hi, start, end)))
  {
    var m := Merged(rs, lo, hi, start, end);
    var out := Spliced(rs, lo, hi, m);
    assert lo < hi ==> forall i :: hi <= i < |rs| ==> rs[hi - 1].end < rs[i].start;
    assert lo < hi ==> forall i :: 0 <= i < lo ==> rs[i].end < rs[lo].start;
    forall i, j | 0 <= i < j < |out|
      ensures out[i].end < out[j].start
    {
      var i0 := if i < lo then i else i - 1 + hi - lo;
      var j0 := if j < lo then j else j - 1 + hi - lo;
      assert i != lo ==> out[i] == rs[i0];
      assert j != lo ==> out[j] == rs[j0];
    }
    forall i | 0 <= i < |out|
      ensures out[i].start < out[i].end
    {
      assert i != lo ==> out[i] == rs[if i < lo then i else i - 1 + hi - lo];
    }
  }

  /** What the touched ranges hold lies in the merged one. */
  lemma MergedHolds(rs: seq<Range>, lo: nat, hi: nat, start: nat, end: nat, i: nat)
    requires Spaced(rs) && start < end && Touched(rs, lo, hi, start, end) && lo <= i < hi
    ensures var m := Merged(rs, lo, hi, start, end); m.start <= rs[i].start && rs[i].end <= m.end
  {
    assert i > lo ==> rs[lo].end < rs[i].start;
    assert rs[lo].start < rs[lo].end;
    assert i < hi - 1 ==> rs[i].end < rs[hi - 1].start;
    assert rs[hi - 1].start < rs[hi - 1].end;
  }

  lemma InWasSpliced(rs: seq<Range>, lo: nat, hi: nat, start: nat, end: nat, x: int)
    requires Spaced(rs) && start < end && Touched(rs, lo, hi, start, end)
    requires In(rs, x) || start <= x < end
    ensures In(Spliced(rs, lo, hi, Merged(rs, lo, hi, start, end)), x)
  {
    var m := Merged(rs, lo, hi, start, end);
    var out := Spliced(rs, lo, hi, m);
    assert out[lo] == m;
    if start <= x < end {
      assert Within(out[lo], x);
    } else {
      var i :| 0 <= i < |rs| && Within(rs[i], x);
      if lo <= i < hi {
        MergedHolds(rs, lo, hi, start, end, i);
        assert Within(out[lo], x);
      } else {
        assert out[if i < lo then i else i + 1 + lo - hi] == rs[i];
      }
    }
  }

  lemma SplicedWasIn(rs: seq<Range>, lo: nat, hi: nat, start: nat, end: nat, x: int)
    requires Spaced(rs) && start < end && Touched(rs, lo, hi, start, end)
    requires In(Spliced(rs, lo, hi, Merged(rs, lo, hi, start, end)), x)
    ensures In(rs, x) || start <= x < end
  {
    var m := Merged(rs, lo, hi, start, end);
    var out := Spliced(rs, lo, hi, m);
    var i :| 0 <= i < |out| && Within(out[i], x);
    if i != lo {
      assert out[i] == rs[if i < lo then i else i - 1 + hi - lo];
    } else if !(start <= x < end) {
      assert out[lo] == m;
      assert Within(rs[if x < start then lo else hi - 1], x);
    }
  }

  lemma SplicedIn(rs: seq<Range>, lo: nat, hi: nat, start: nat, end: nat, x: int)
    requires Spaced(rs) && start < end && Touched(rs, lo, hi, start, end)
    ensures In(Spliced(rs, lo, hi, Merged(rs, lo, hi, start, end)), x) <==> In(rs, x) || start <= x < end
  {
    if In(rs, x) || start <= x < end {
      InWasSpliced(rs, lo, hi, start, end, x);
    } else if In(Spliced(rs, lo, hi, Merged(rs, lo, hi, start, end)), x) {
      SplicedWasIn(rs, lo, hi, start, end, x);
    }
  }

  class RangeSet {
    var ranges: seq<Range>

    ghost predicate Valid()
      reads this
    {
      Spaced(ranges)
    }

    constructor ()
      ensures Valid() && ranges == []
    {
      ranges := [];
    }

    method Insert(start: nat, end: nat)
      requires Valid()
      modifies this
      ensures Valid()
      ensures forall x :: In(ranges, x) <==> In(old(ranges), x) || start <= x < end
    {
      if start >= end { return; }
      var lo := FirstNotBefore(ranges, start, false);
      var hi := FirstAfter(ranges, end, false);
      assert hi < |ranges| ==> ranges[hi].start < ranges[hi].end;
      assert lo <= hi;
      SplicedSpaced(ranges, lo, hi, start, end);
      forall x
        ensures In(Spliced(ranges, lo, hi, Merged(ranges, lo, hi, start, end)), x) <==> In(ranges, x) || start <= x < end
      {
        SplicedIn(ranges, lo, hi, start, end, x);
      }
      ranges := Spliced(ranges, lo, hi, Merged(ranges, lo, hi, start, end));
    }

    /** What [start, end) holds outside the set. */
    method GapsWithin(start: nat, end: nat) returns (gaps: seq<Range>)
      requires Valid()
      ensures Spaced(gaps)
      ensures forall i :: 0 <= i < |gaps| ==> start <= gaps[i].start && gaps[i].end <= end
      ensures forall x :: In(gaps, x) <==> start <= x < end && !In(ranges, x)
    {
      gaps := [];
      if start >= end { return; }
      var lo := FirstNotBefore(ranges, start, true);
      var hi := FirstAfter(ranges, end, true);
      assert hi < |ranges| ==> ranges[hi].start < ranges[hi].end;
      assert lo <= hi;
      gaps := WalkGaps(lo, hi, start, end);
    }

    method WalkGaps(lo: nat, hi: nat, start: nat, end: nat) returns (gaps: seq<Range>)
      requires Valid() && start < end && lo <= hi <= |ranges|
      requires forall i :: 0 <= i < lo ==> ranges[i].end <= start
      requires forall i :: lo <= i < |ranges| ==> ranges[i].end > start
      requires forall i :: 0 <= i < hi ==> ranges[i].start < end
      requires forall i :: hi <= i < |ranges| ==> ranges[i].start >= end
      ensures Gaps(ranges, gaps, start, end, end)
    {
      gaps := [];
      var cursor: nat := start;
      var k: nat := lo;
      while k < hi
        invariant lo <= k <= hi
        invariant Gaps(ranges, gaps, start, cursor, end)
        invariant forall i :: 0 <= i < |gaps| ==> gaps[i].end < cursor
        invariant forall i :: 0 <= i < k ==> ranges[i].end <= cursor
        invariant if k == lo then cursor == start else cursor == ranges[k - 1].end
      {
        ghost var was, at := gaps, cursor;
        if cursor < ranges[k].start {
          gaps := gaps + [Range(cursor, ranges[k].start)];
        }
        cursor := Max(cursor, ranges[k].end);
        GapStep(ranges, k, start, end, at, was, gaps, cursor);
        k := k + 1;
      }
      ghost var was := gaps;
      if cursor < end {
        gaps := gaps + [Range(cursor, end)];
      }
      LastGap(ranges, k, start, end, cursor, was, gaps);
    }
  }

  /** `gaps` is what [start, end) holds outside the ranges, as far as `upto`. */
  ghost predicate Gaps(rs: seq<Range>, gaps: seq<Range>, start: nat, upto: nat, end: nat) {
    && start <= upto && Spaced(gaps)
    && (forall i :: 0 <= i < |gaps| ==> start <= gaps[i].start && gaps[i].end <= end)
    && (forall x :: In(gaps, x) <==> start <= x < Min(upto, end) && !In(rs, x))
  }

  lemma InConcat(rs: seq<Range>, r: Range, x: int)
    ensures In(rs + [r], x) <==> In(rs, x) || Within(r, x)
  {
    if i :| 0 <= i < |rs| && Within(rs[i], x) {
      assert Within((rs + [r])[i], x);
    }
    assert (rs + [r])[|rs|] == r;
  }

  lemma GapStep(rs: seq<Range>, k: nat, start: nat, end: nat, at: nat, was: seq<Range>, gaps: seq<Range>, cursor: nat)
    requires Spaced(rs) && k < |rs| && rs[k].start < end && rs[k].end > start
    requires Gaps(rs, was, start, at, end) && forall i :: 0 <= i < |was| ==> was[i].end < at
    requires forall i :: 0 <= i < k ==> rs[i].end <= at
    requires at == start || (k > 0 && at == rs[k - 1].end)
    requires gaps == if at < rs[k].start then was + [Range(at, rs[k].start)] else was
    requires cursor == Max(at, rs[k].end)
    ensures Gaps(rs, gaps, start, cursor, end) && forall i :: 0 <= i < |gaps| ==> gaps[i].end < cursor
    ensures cursor == rs[k].end
  {
    assert k > 0 ==> rs[k - 1].end < rs[k].start;
    assert forall i :: k < i < |rs| ==> rs[k].end < rs[i].start;
    forall x
      ensures In(gaps, x) <==> start <= x < Min(cursor, end) && !In(rs, x)
    {
      InConcat(was, Range(at, rs[k].start), x);
      if rs[k].start <= x < rs[k].end {
        assert Within(rs[k], x);
      }
    }
  }

  lemma LastGap(rs: seq<Range>, k: nat, start: nat, end: nat, cursor: nat, was: seq<Range>, gaps: seq<Range>)
    requires Spaced(rs) && start < end && Gaps(rs, was, start, cursor, end) && forall i :: 0 <= i < |was| ==> was[i].end < cursor
    requires forall i :: 0 <= i < k && i < |rs| ==> rs[i].end <= cursor
    requires forall i :: k <= i < |rs| ==> rs[i].start >= end
    requires gaps == if cursor < end then was + [Range(cursor, end)] else was
    ensures Gaps(rs, gaps, start, end, end)
  {
    forall x
      ensures In(gaps, x) <==> start <= x < end && !In(rs, x)
    {
      InConcat(was, Range(cursor, end), x);
    }
  }
}
