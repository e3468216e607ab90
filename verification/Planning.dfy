/** Interval planning: which heights are still to be indexed, and how many are missing. */
module Planning {
  import opened Prelude
  import opened Ordering
  import opened CoverageAlgebra

  /** Heights a plan may name: from the domain start, above the pruning floor, up to the head. */
  ghost predicate Eligible(c: Coverage, head: u64, h: int) {
    c.start <= h <= head && (c.prunedFloor.Some? ==> c.prunedFloor.value < h)
  }

  /** A plan lists, in order and without touching, exactly the eligible uncovered heights. */
  ghost predicate IsPlan(c: Coverage, head: u64, ranges: seq<Interval>) {
    && Proper(ranges)
    && Separated(ranges)
    && forall h :: InAny(ranges, h) <==> Eligible(c, head, h) && !Covered(c, h)
  }

  /** Sorted uncovered intervals up to `head`, respecting the pruning floor. */
  method Uncovered(c: Coverage, head: u64) returns (ranges: seq<Interval>)
    requires WellFormed(c)
    ensures IsPlan(c, head, ranges)
  {
    hide PlanPrefix, IsPlan, Covered, InAny;
    if c.prunedFloor == Some(U64_MAX) {
      NothingEligible(c, head);
      return [];
    }
    var start: u64 := if c.prunedFloor.Some? then Max(c.start, c.prunedFloor.value + 1) else c.start;
    if start > head {
      NothingEligible(c, head);
      return [];
    }
    if c.low.None? || c.high.None? {
      NothingCovered(c, start, head);
      return [Interval(start, head)];
    }
    var low, high := c.low.value, c.high.value;
    ranges := [];
    if start < low {
      ranges := [Interval(start, Min(head, low - 1))];
    }
    PlanBegins(c, start, head, ranges);
    for k := 0 to |c.gaps|
      invariant PlanPrefix(c, start, head, k, ranges)
    {
      var a, b := Max(c.gaps[k].lo, start), Min(c.gaps[k].hi, head);
      PlanGrows(c, start, head, k, ranges);
      if a <= b {
        ranges := ranges + [Interval(a, b)];
      }
    }
    ghost var before := ranges;
    var tail := CheckedSucc(high);
    if tail.Some? {
      var t := Max(tail.value, start);
      if t <= head {
        ranges := ranges + [Interval(t, head)];
      }
    }
    PlanEnds(c, start, head, before, ranges);
  }

  lemma NothingEligible(c: Coverage, head: u64)
    requires forall h :: !Eligible(c, head, h)
    ensures IsPlan(c, head, [])
  {
  }

  lemma NothingCovered(c: Coverage, start: u64, head: u64)
    requires WellFormed(c) && (c.low.None? || c.high.None?) && start <= head
    requires forall h :: Eligible(c, head, h) <==> start <= h <= head
    ensures IsPlan(c, head, [Interval(start, head)])
  {
    forall h ensures InAny([Interval(start, head)], h) <==> Eligible(c, head, h) && !Covered(c, h) {
      SingleMeaning(Interval(start, head), h);
    }
  }

  lemma SingleMeaning(x: Interval, h: int)
    ensures InAny([x], h) <==> Within(x, h)
  {
    if Within(x, h) { assert Within([x][0], h); }
  }

  /** Loop state of `Uncovered`: everything below the bound and the first `k` gaps. */
  ghost predicate PlanPrefix(c: Coverage, start: u64, head: u64, k: nat, ranges: seq<Interval>)
    requires WellFormed(c) && c.low.Some? && k <= |c.gaps|
  {
    && Proper(ranges)
    && Separated(ranges)
    && (forall i :: 0 <= i < |ranges| ==>
          ranges[i].hi < (if k == 0 then c.low.value else c.gaps[k - 1].hi + 1))
    && (forall h :: InAny(ranges, h) <==>
          start <= h <= head && (h < c.low.value || InAny(c.gaps[..k], h)))
  }

  lemma PlanBegins(c: Coverage, start: u64, head: u64, ranges: seq<Interval>)
    requires WellFormed(c) && c.low.Some? && start <= head
    requires ranges == if start < c.low.value then [Interval(start, Min(head, c.low.value - 1))] else []
    ensures PlanPrefix(c, start, head, 0, ranges)
  {
    forall h ensures InAny(ranges, h) <==> start <= h <= head && h < c.low.value {
      if start < c.low.value { SingleMeaning(ranges[0], h); }
    }
  }

  lemma PlanGrows(c: Coverage, start: u64, head: u64, k: nat, ranges: seq<Interval>)
    requires WellFormed(c) && c.low.Some? && k < |c.gaps|
    requires PlanPrefix(c, start, head, k, ranges)
    ensures var a, b := Max(c.gaps[k].lo, start), Min(c.gaps[k].hi, head);
            PlanPrefix(c, start, head, k + 1, if a <= b then ranges + [Interval(a, b)] else ranges)
  {
    var a, b := Max(c.gaps[k].lo, start), Min(c.gaps[k].hi, head);
    var grown := if a <= b then ranges + [Interval(a, b)] else ranges;
    forall h ensures InAny(grown, h) <==>
        start <= h <= head && (h < c.low.value || InAny(c.gaps[..k + 1], h)) {
      InAnyAppend(ranges, [Interval(a, b)], h);
      InAnyAppend(c.gaps[..k], [c.gaps[k]], h);
      assert c.gaps[..k + 1] == c.gaps[..k] + [c.gaps[k]];
      SingleMeaning(Interval(a, b), h);
      SingleMeaning(c.gaps[k], h);
    }
    assert k > 0 ==> c.gaps[k - 1].hi + 1 < c.gaps[k].lo;
  }

  /** The part above the highest completed height closes the plan. */
  lemma PlanEnds(c: Coverage, start: u64, head: u64, before: seq<Interval>, after: seq<Interval>)
    requires WellFormed(c) && c.low.Some? && start <= head
    requires start == if c.prunedFloor.Some? then Max(c.start, c.prunedFloor.value + 1) else c.start
    requires PlanPrefix(c, start, head, |c.gaps|, before)
    requires var t := Max(c.high.value + 1, start);
             after == if t <= head then before + [Interval(t, head)] else before
    ensures IsPlan(c, head, after)
  {
    var t := Max(c.high.value + 1, start);
    assert c.gaps[..|c.gaps|] == c.gaps;
    forall h ensures InAny(after, h) <==> Eligible(c, head, h) && !Covered(c, h) {
      if t <= head {
        InAnyAppend(before, [Interval(t, head)], h);
        SingleMeaning(Interval(t, head), h);
      }
      if InAny(c.gaps, h) {
        var i :| 0 <= i < |c.gaps| && Within(c.gaps[i], h);
      }
    }
  }

  /** Plans are unique, so the program's list is the only correct answer. */
  lemma PlanIsUnique(c: Coverage, head: u64, xs: seq<Interval>, ys: seq<Interval>)
    requires IsPlan(c, head, xs) && IsPlan(c, head, ys)
    ensures xs == ys
  {
    GapsAreCanonical(xs, ys);
  }

  // ---------------------------------------------------------------- closing a plan

  /** Cover every interval of a list, first to last. */
  ghost function CoverAll(c: Coverage, ranges: seq<Interval>): Result<Coverage>
    requires WellFormed(c)
    decreases |ranges|
  {
    if ranges == [] then Ok(c)
    else
      match CoverValue(c, ranges[0].lo, ranges[0].hi)
      case Err(e) => Err(e)
      case Ok((d, _)) => CoverIsUnion(c, ranges[0].lo, ranges[0].hi); CoverAll(d, ranges[1..])
  }

  lemma {:induction false} CoverAllIsUnion(c: Coverage, ranges: seq<Interval>)
    requires WellFormed(c) && Proper(ranges)
    requires forall i :: 0 <= i < |ranges| ==> c.start <= ranges[i].lo
    ensures CoverAll(c, ranges).Ok?
    ensures var d := CoverAll(c, ranges).value;
            && WellFormed(d) && d.start == c.start && d.prunedFloor == c.prunedFloor
            && forall h :: Covered(d, h) <==> Covered(c, h) || InAny(ranges, h)
    decreases |ranges|
  {
    if ranges != [] {
      var r := ranges[0];
      CoverIsUnion(c, r.lo, r.hi);
      var d := CoverValue(c, r.lo, r.hi).value.0;
      CoverAllIsUnion(d, ranges[1..]);
      forall h ensures InAny(ranges, h) <==> Within(r, h) || InAny(ranges[1..], h) {
        assert ranges == [r] + ranges[1..];
        InAnyAppend([r], ranges[1..], h);
        SingleMeaning(r, h);
      }
    }
  }

  /** Completing every planned interval succeeds and leaves nothing to plan. */
  lemma CoveringThePlanClosesIt(c: Coverage, head: u64, ranges: seq<Interval>)
    requires WellFormed(c) && IsPlan(c, head, ranges)
    ensures CoverAll(c, ranges).Ok? && WellFormed(CoverAll(c, ranges).value)
    ensures IsPlan(CoverAll(c, ranges).value, head, [])
  {
    forall i | 0 <= i < |ranges| ensures c.start <= ranges[i].lo {
      assert Within(ranges[i], ranges[i].lo);
      assert InAny(ranges, ranges[i].lo);
    }
    CoverAllIsUnion(c, ranges);
  }

  // ---------------------------------------------------------------- failed points

  /** The part of a range below `c`, without the points. */
  ghost predicate CutBelow(range: Interval, points: seq<u64>, c: int, pieces: seq<Interval>) {
    && Proper(pieces) && Separated(pieces)
    && (forall i :: 0 <= i < |pieces| ==> pieces[i].hi + 1 < c)
    && forall h :: InAny(pieces, h) <==> range.lo <= h < c && h <= U64_MAX && h as u64 !in points
  }

  lemma CutPiece(range: Interval, points: seq<u64>, c: u64, p: u64, pieces: seq<Interval>)
    requires CutBelow(range, points, c, pieces) && range.lo <= c <= p && p in points
    requires forall q :: q in points && c <= q ==> p <= q
    ensures CutBelow(range, points, p + 1, if c < p then pieces + [Interval(c, p - 1)] else pieces)
  {
    var after := if c < p then pieces + [Interval(c, p - 1)] else pieces;
    forall h ensures InAny(after, h) <==> range.lo <= h < p + 1 && h <= U64_MAX && h as u64 !in points {
      if c < p {
        InAnyAppend(pieces, [Interval(c, p - 1)], h);
        SingleMeaning(Interval(c, p - 1), h);
      }
    }
  }

  lemma CutRest(range: Interval, points: seq<u64>, c: int, pieces: seq<Interval>)
    requires CutBelow(range, points, c, pieces) && range.lo <= range.hi && range.lo <= c <= range.hi + 1
    requires forall q :: q in points && c <= q ==> range.hi < q
    ensures var after := if c <= range.hi then pieces + [Interval(c, range.hi)] else pieces;
            && Proper(after) && Separated(after)
            && forall h :: InAny(after, h) <==> range.lo <= h <= range.hi && h as u64 !in points
  {
    if c <= range.hi {
      forall h ensures InAny(pieces + [Interval(c, range.hi)], h) <==> InAny(pieces, h) || c <= h <= range.hi {
        InAnyAppend(pieces, [Interval(c, range.hi)], h);
        SingleMeaning(Interval(c, range.hi), h);
      }
    }
  }

  /** The points from `c` on within the range are among the rows from `k` on. */
  ghost predicate Ahead(points: seq<u64>, sorted: seq<nat>, k: nat, c: int, hi: u64)
    requires k <= |sorted|
  {
    forall q :: q in points && c <= q <= hi ==> q as nat in sorted[k..]
  }

  lemma AheadSkips(points: seq<u64>, sorted: seq<nat>, k: nat, c: int, hi: u64)
    requires k < |sorted| && Ahead(points, sorted, k, c, hi) && !(c <= sorted[k] <= hi)
    ensures Ahead(points, sorted, k + 1, c, hi)
  {
    assert sorted[k..] == [sorted[k]] + sorted[k + 1..];
  }

  lemma AheadTakes(points: seq<u64>, sorted: seq<nat>, k: nat, c: int, hi: u64)
    requires k < |sorted| && Ahead(points, sorted, k, c, hi) && Ordered(sorted) && c <= sorted[k] <= hi
    ensures Ahead(points, sorted, k + 1, sorted[k] as int + 1, hi)
    ensures forall q :: q in points && c <= q ==> sorted[k] <= q
  {
    assert sorted[k..] == [sorted[k]] + sorted[k + 1..];
    forall q | q in points && c <= q ensures sorted[k] <= q {
      if q <= hi {
        var j :| 0 <= j < |sorted[k..]| && sorted[k..][j] == q as nat;
      }
    }
  }

  method SortedPoints(points: seq<u64>) returns (sorted: seq<nat>)
    ensures Ordered(sorted) && forall p: nat :: p in sorted <==> p <= U64_MAX && p as u64 in points
  {
    sorted := Sorted(set p: u64 | p in points :: p as nat);
    forall p: nat ensures p in sorted <==> p <= U64_MAX && p as u64 in points {
      assert p in sorted <==> p in (set q: u64 | q in points :: q as nat);
    }
  }

  /** `subtract_points`: the maximal pieces of a range between the given points. */
  method SubtractPoints(range: Interval, points: seq<u64>) returns (result: seq<Interval>)
    ensures Proper(result) && Separated(result)
    ensures forall h :: InAny(result, h) <==> range.lo <= h <= range.hi && h as u64 !in points
  {
    result := [];
    if range.lo > range.hi {
      return;
    }
    var sorted := SortedPoints(points);
    var cursor: Option<u64> := Some(range.lo);
    ghost var c: int := range.lo;
    CutNothing(range, points);
    assert sorted[0..] == sorted;
    assert Ahead(points, sorted, 0, c, range.hi);
    hide CutBelow, InAny, Ahead, Proper, Separated, Ordered;
    var k := 0;
    while k < |sorted| && cursor.Some?
      invariant 0 <= k <= |sorted|
      invariant range.lo <= c <= range.hi + 1 && cursor == if c <= U64_MAX then Some(c) else None
      invariant CutBelow(range, points, c, result) && Ahead(points, sorted, k, c, range.hi)
    {
      assert sorted[k] in sorted;
      var start, point: u64 := cursor.value, sorted[k];
      if point < start || point > range.hi {
        AheadSkips(points, sorted, k, c, range.hi);
      } else {
        AheadTakes(points, sorted, k, c, range.hi);
        CutPiece(range, points, start, point, result);
        if start < point {
          result := result + [Interval(start, point - 1)];
        }
        cursor := CheckedSucc(point);
        c := point + 1;
      }
      k := k + 1;
    }
    NoneAhead(points, sorted, k, c, range.hi);
    CutRest(range, points, c, result);
    if cursor.Some? && cursor.value <= range.hi {
      result := result + [Interval(cursor.value, range.hi)];
    }
  }

  lemma NoneAhead(points: seq<u64>, sorted: seq<nat>, k: nat, c: int, hi: u64)
    requires k <= |sorted| && Ahead(points, sorted, k, c, hi) && (k == |sorted| || c > U64_MAX)
    ensures forall q :: q in points && c <= q ==> hi < q
  {
  }

  lemma CutNothing(range: Interval, points: seq<u64>)
    ensures CutBelow(range, points, range.lo, [])
  {
  }

  // ---------------------------------------------------------------- gap totals

  ghost predicate Between(lo: int, h: int, hi: int) {
    lo <= h <= hi
  }

  ghost function Range(lo: int, hi: int): set<int> {
    set h | lo <= h <= hi && Between(lo, h, hi)
  }

  /** Heights between the bounds of a coverage that are not complete. */
  ghost function Missing(c: Coverage): set<int> {
    if c.low.Some? && c.high.Some?
    then set h | c.low.value <= h <= c.high.value && !Covered(c, h)
    else {}
  }

  /** The heights of the first `k` gaps. */
  ghost function MissingIn(c: Coverage, k: nat): set<int>
    requires c.low.Some? && c.high.Some? && k <= |c.gaps|
  {
    set h | c.low.value <= h <= c.high.value && InAny(c.gaps[..k], h)
  }

  lemma RangeSplit(lo: int, hi: int)
    requires lo <= hi
    ensures Range(lo, hi) == Range(lo, hi - 1) + {hi} && hi !in Range(lo, hi - 1)
  {
    forall h ensures h in Range(lo, hi) <==> h in Range(lo, hi - 1) || h == hi {
    }
  }

  lemma {:induction false} RangeSize(lo: int, hi: int)
    requires lo <= hi + 1
    ensures |Range(lo, hi)| == hi - lo + 1
    decreases hi - lo + 1
  {
    if lo <= hi {
      RangeSize(lo, hi - 1);
      RangeSplit(lo, hi);
    } else {
      assert Range(lo, hi) == {};
    }
  }

  lemma NextGapIsNew(c: Coverage, k: nat)
    requires WellFormed(c) && c.low.Some? && k < |c.gaps|
    ensures MissingIn(c, k + 1) == MissingIn(c, k) + Range(c.gaps[k].lo, c.gaps[k].hi)
    ensures MissingIn(c, k) !! Range(c.gaps[k].lo, c.gaps[k].hi)
  {
    var g := c.gaps[k];
    forall h ensures InAny(c.gaps[..k + 1], h) <==> InAny(c.gaps[..k], h) || Within(g, h) {
      assert c.gaps[..k + 1] == c.gaps[..k] + [g];
      InAnyAppend(c.gaps[..k], [g], h);
      SingleMeaning(g, h);
    }
    forall h ensures Within(g, h) ==> !InAny(c.gaps[..k], h) {
    }
  }

  lemma MissingFits(c: Coverage, k: nat)
    requires WellFormed(c) && c.low.Some? && k <= |c.gaps|
    ensures |MissingIn(c, k)| <= U64_MAX
  {
    var inner := Range(c.low.value + 1, c.high.value);
    RangeSize(c.low.value + 1, c.high.value);
    forall h | h in MissingIn(c, k) ensures h in inner {
      var i :| 0 <= i < |c.gaps[..k]| && Within(c.gaps[..k][i], h);
      assert c.gaps[..k][i] == c.gaps[i];
    }
    SubsetSize(MissingIn(c, k), inner);
  }

  lemma NextGapAdds(c: Coverage, k: nat)
    requires WellFormed(c) && c.low.Some? && k < |c.gaps|
    ensures |MissingIn(c, k + 1)| == |MissingIn(c, k)| + (c.gaps[k].hi - c.gaps[k].lo + 1)
    ensures |MissingIn(c, k + 1)| <= U64_MAX
  {
    NextGapIsNew(c, k);
    RangeSize(c.gaps[k].lo, c.gaps[k].hi);
    MissingFits(c, k + 1);
  }

  /** The lengths of the gaps, summed. */
  ghost function LengthSum(gaps: seq<Interval>): int {
    if gaps == [] then 0 else LengthSum(gaps[..|gaps| - 1]) + gaps[|gaps| - 1].hi - gaps[|gaps| - 1].lo + 1
  }

  lemma LengthSumNext(gaps: seq<Interval>, k: nat)
    requires k < |gaps|
    ensures LengthSum(gaps[..k + 1]) == LengthSum(gaps[..k]) + gaps[k].hi - gaps[k].lo + 1
  {
    assert gaps[..k + 1][..k] == gaps[..k];
  }

  lemma {:induction false} LengthSumGrows(gaps: seq<Interval>, k: nat)
    requires k <= |gaps| && Proper(gaps)
    ensures LengthSum(gaps[..k]) <= LengthSum(gaps)
    decreases |gaps|
  {
    if k == |gaps| {
      assert gaps[..k] == gaps;
    } else {
      assert gaps[..|gaps| - 1][..k] == gaps[..k];
      LengthSumGrows(gaps[..|gaps| - 1], k);
    }
  }

  /** The gap total reported to telemetry: the sum of the lengths, or an error when a gap is
      reversed or the sum exceeds `u64`. On every coverage the store can hold it is the number
      of incomplete heights between the bounds, so the error cannot occur. */
  method GapBlocks(c: Coverage) returns (r: Result<u64>)
    ensures r.Ok? <==> Proper(c.gaps) && LengthSum(c.gaps) <= U64_MAX
    ensures r.Ok? ==> r.value == LengthSum(c.gaps)
    ensures WellFormed(c) ==> r == Ok(|Missing(c)|)
  {
    if WellFormed(c) { SumIsMissing(c); }
    hide WellFormed, Missing;
    var gaps: u64 := 0;
    assert LengthSum(c.gaps[..0]) == 0;
    hide LengthSum;
    for k := 0 to |c.gaps|
      invariant gaps == LengthSum(c.gaps[..k]) && forall i :: 0 <= i < k ==> c.gaps[i].lo <= c.gaps[i].hi
    {
      LengthSumNext(c.gaps, k);
      var g := c.gaps[k];
      if g.hi < g.lo {
        return Err(Invalid);
      }
      var count := CheckedSucc(g.hi - g.lo);
      if count.None? || gaps + count.value > U64_MAX {
        if Proper(c.gaps) { LengthSumGrows(c.gaps, k + 1); }
        return Err(Invalid);
      }
      gaps := gaps + count.value;
    }
    assert c.gaps[..|c.gaps|] == c.gaps;
    return Ok(gaps);
  }

  /** The lengths of the gaps count the incomplete heights between the bounds. */
  lemma SumIsMissing(c: Coverage)
    requires WellFormed(c)
    ensures Proper(c.gaps) && LengthSum(c.gaps) == |Missing(c)| <= U64_MAX
  {
    if c.low.Some? {
      SumIsMissingIn(c, |c.gaps|);
      assert c.gaps[..|c.gaps|] == c.gaps;
      assert MissingIn(c, |c.gaps|) == Missing(c);
    }
  }

  lemma {:induction false} SumIsMissingIn(c: Coverage, k: nat)
    requires WellFormed(c) && c.low.Some? && k <= |c.gaps|
    ensures LengthSum(c.gaps[..k]) == |MissingIn(c, k)| <= U64_MAX
  {
    if k == 0 {
      assert MissingIn(c, 0) == {};
    } else {
      SumIsMissingIn(c, k - 1);
      NextGapAdds(c, k - 1);
      assert c.gaps[..k][..k - 1] == c.gaps[..k - 1];
      hide WellFormed, MissingIn;
    }
  }
}
