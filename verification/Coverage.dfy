/** Coverage of a domain: which block heights are durably complete.

    A `Coverage` is the compact form the store persists: the lowest and highest
    completed heights and the sorted gaps strictly between them. It denotes the set
    of heights `Covered`. The in-place update of the program is `Ledger.Cover`;
    `CoverValue` is the function it is proved against, and the lemmas below relate
    that function to plain set union. */
module CoverageAlgebra {
  import opened Prelude

  /** Inclusive height interval. */
  datatype Interval = Interval(lo: u64, hi: u64)

  datatype Coverage = Coverage(
    version: nat,
    gen: u64,
    start: u64,
    low: Option<u64>,
    high: Option<u64>,
    gaps: seq<Interval>,
    prunedFloor: Option<u64>)

  function EmptyCoverage(gen: u64, start: u64): Coverage {
    Coverage(1, gen, start, None, None, [], None)
  }

  ghost predicate Within(iv: Interval, h: int) {
    iv.lo <= h <= iv.hi
  }

  ghost predicate InAny(gaps: seq<Interval>, h: int) {
    exists i :: 0 <= i < |gaps| && Within(gaps[i], h)
  }

  /** The meaning of a coverage: is this height complete? */
  ghost predicate Covered(c: Coverage, h: int) {
    c.low.Some? && c.high.Some? && c.low.value <= h <= c.high.value && !InAny(c.gaps, h)
  }

  /** Every interval is non-empty. */
  ghost predicate Proper(gaps: seq<Interval>) {
    forall i :: 0 <= i < |gaps| ==> gaps[i].lo <= gaps[i].hi
  }

  /** Sorted, with at least one height between neighbours. */
  ghost predicate Separated(gaps: seq<Interval>) {
    forall i, j :: 0 <= i < j < |gaps| ==> gaps[i].hi + 1 < gaps[j].lo
  }

  /** What the reload validator accepts, apart from the generation it must carry. */
  ghost predicate WellFormed(c: Coverage) {
    && c.version == 1
    && (c.low.Some? <==> c.high.Some?)
    && (c.low.Some? ==> c.low.value <= c.high.value)
    && (c.low.None? ==> c.gaps == [])
    && (c.low.Some? ==> forall i :: 0 <= i < |c.gaps| ==>
          c.low.value < c.gaps[i].lo && c.gaps[i].hi < c.high.value)
    && Proper(c.gaps)
    && Separated(c.gaps)
  }

  /** The strict check applied when a persisted coverage is read back. */
  method Validate(c: Coverage, gen: u64) returns (accepted: bool)
    ensures accepted <==> WellFormed(c) && c.gen == gen
  {
    if c.version != 1 || c.gen != gen || c.low.Some? != c.high.Some?
       || (c.low.Some? && c.high.Some? && c.low.value > c.high.value) {
      return false;
    }
    var previous: Option<u64> := None;
    for k := 0 to |c.gaps|
      invariant previous.Some? <==> k > 0
      invariant k > 0 ==> c.low.Some? && previous.value == c.gaps[k - 1].hi
      invariant forall i :: 0 <= i < k ==> c.gaps[i].lo <= c.gaps[i].hi
      invariant forall i, j :: 0 <= i < j < k ==> c.gaps[i].hi + 1 < c.gaps[j].lo
      invariant c.low.Some? ==> forall i :: 0 <= i < k ==>
                                  c.low.value < c.gaps[i].lo && c.gaps[i].hi < c.high.value
    {
      var g := c.gaps[k];
      if g.lo > g.hi || c.low.None? || c.low.value >= g.lo || c.high.None? || c.high.value <= g.hi
         || (previous.Some? && SaturatingSucc(previous.value) >= g.lo) {
        assert k > 0 && previous.Some? && SaturatingSucc(previous.value) >= g.lo ==>
            c.gaps[k - 1].hi + 1 >= c.gaps[k].lo;
        return false;
      }
      previous := Some(g.hi);
    }
    return true;
  }

  /** `Coverage::contains`: persisted without gaps from `from` to `through`. */
  predicate Contains(c: Coverage, from: u64, through: u64) {
    && from <= through
    && c.low.Some? && c.low.value <= from
    && c.high.Some? && c.high.value >= through
    && !exists i :: 0 <= i < |c.gaps| && c.gaps[i].lo <= through && c.gaps[i].hi >= from
  }

  /** The interval test answers the pointwise question. */
  lemma ContainsIsPointwise(c: Coverage, from: u64, through: u64)
    requires WellFormed(c)
    ensures Contains(c, from, through) <==>
            from <= through && forall h :: from <= h <= through ==> Covered(c, h)
  {
    if from <= through {
      if !Contains(c, from, through) && Covered(c, from) && Covered(c, through) {
        var i :| 0 <= i < |c.gaps| && c.gaps[i].lo <= through && c.gaps[i].hi >= from;
        var h := Max(c.gaps[i].lo, from);
        assert Within(c.gaps[i], h) && !Covered(c, h);
      }
    }
  }

  // ---------------------------------------------------------------- cutting gaps

  /** What is left of one gap once [a, b] is complete. */
  function CarveOne(g: Interval, a: u64, b: u64): seq<Interval>
    requires a <= b
  {
    if g.hi < a || g.lo > b then [g]
    else
      (if g.lo < a then [Interval(g.lo, a - 1)] else []) +
      (if g.hi > b then [Interval(b + 1, g.hi)] else [])
  }

  /** What is left of all gaps once [a, b] is complete. */
  function Carve(gaps: seq<Interval>, a: u64, b: u64): seq<Interval>
    requires a <= b
  {
    if gaps == [] then []
    else Carve(gaps[..|gaps| - 1], a, b) + CarveOne(gaps[|gaps| - 1], a, b)
  }

  lemma InAnyAppend(xs: seq<Interval>, ys: seq<Interval>, h: int)
    ensures InAny(xs + ys, h) <==> InAny(xs, h) || InAny(ys, h)
  {
    if InAny(xs, h) {
      var i :| 0 <= i < |xs| && Within(xs[i], h);
      assert (xs + ys)[i] == xs[i];
    }
    if InAny(ys, h) {
      var i :| 0 <= i < |ys| && Within(ys[i], h);
      assert (xs + ys)[|xs| + i] == ys[i];
    }
  }

  lemma CarveOneMeaning(g: Interval, a: u64, b: u64, h: int)
    requires a <= b
    ensures InAny(CarveOne(g, a, b), h) <==> Within(g, h) && !(a <= h <= b)
  {
    var c := CarveOne(g, a, b);
    if Within(g, h) && !(a <= h <= b) {
      assert Within(c[0], h) || (|c| > 1 && Within(c[1], h));
    }
  }

  lemma {:induction false} CarveMeaning(gaps: seq<Interval>, a: u64, b: u64, h: int)
    requires a <= b
    ensures InAny(Carve(gaps, a, b), h) <==> InAny(gaps, h) && !(a <= h <= b)
  {
    if gaps != [] {
      var init, last := gaps[..|gaps| - 1], gaps[|gaps| - 1];
      CarveMeaning(init, a, b, h);
      CarveOneMeaning(last, a, b, h);
      InAnyAppend(Carve(init, a, b), CarveOne(last, a, b), h);
      InAnyAppend(init, [last], h);
      assert gaps == init + [last];
      assert InAny([last], h) <==> Within(last, h) by {
        if Within(last, h) { assert Within([last][0], h); }
      }
    }
  }

  /** `x` lies inside one of the intervals of `gaps`. */
  ghost predicate Inside(x: Interval, gaps: seq<Interval>) {
    exists i :: 0 <= i < |gaps| && gaps[i].lo <= x.lo && x.hi <= gaps[i].hi
  }

  ghost predicate Apart(x: Interval, y: Interval) {
    x.hi + 1 < y.lo || y.hi + 1 < x.lo
  }

  /** Pairwise apart, in any order. */
  ghost predicate AllApart(gaps: seq<Interval>) {
    forall i, j :: 0 <= i < j < |gaps| ==> Apart(gaps[i], gaps[j])
  }

  lemma {:induction false} CarveStaysInside(gaps: seq<Interval>, a: u64, b: u64)
    requires a <= b && Proper(gaps)
    ensures Proper(Carve(gaps, a, b))
    ensures forall x :: x in Carve(gaps, a, b) ==> Inside(x, gaps)
  {
    if gaps != [] {
      var init, last := gaps[..|gaps| - 1], gaps[|gaps| - 1];
      CarveStaysInside(init, a, b);
      forall x | x in Carve(gaps, a, b) ensures Inside(x, gaps) {
        if x in Carve(init, a, b) {
          var i :| 0 <= i < |init| && init[i].lo <= x.lo && x.hi <= init[i].hi;
          assert gaps[i] == init[i];
        } else {
          assert x in CarveOne(last, a, b);
          assert gaps[|gaps| - 1].lo <= x.lo && x.hi <= gaps[|gaps| - 1].hi;
        }
      }
    }
  }

  lemma AppendApart(xs: seq<Interval>, ys: seq<Interval>)
    requires AllApart(xs) && AllApart(ys)
    requires forall x, y :: x in xs && y in ys ==> Apart(x, y)
    ensures AllApart(xs + ys)
  {
    var c := xs + ys;
    forall i, j | 0 <= i < j < |c| ensures Apart(c[i], c[j]) {
      if j < |xs| {
        assert c[i] == xs[i] && c[j] == xs[j];
      } else if i < |xs| {
        assert c[i] in xs && c[j] in ys;
      } else {
        assert c[i] == ys[i - |xs|] && c[j] == ys[j - |xs|];
      }
    }
  }

  lemma PartsStayApart(g: Interval, a: u64, b: u64)
    requires a <= b && g.lo <= g.hi
    ensures var parts := CarveOne(g, a, b);
            Proper(parts) && AllApart(parts) && forall y :: y in parts ==> g.lo <= y.lo && y.hi <= g.hi
  {
  }

  lemma {:induction false} CarveStaysApart(gaps: seq<Interval>, a: u64, b: u64)
    requires a <= b && Proper(gaps) && AllApart(gaps)
    ensures Proper(Carve(gaps, a, b)) && AllApart(Carve(gaps, a, b))
  {
    CarveStaysInside(gaps, a, b);
    if gaps != [] {
      var init, last := gaps[..|gaps| - 1], gaps[|gaps| - 1];
      var left, right := Carve(init, a, b), CarveOne(last, a, b);
      CarveStaysApart(init, a, b);
      CarveStaysInside(init, a, b);
      PartsStayApart(last, a, b);
      hide CarveOne;
      forall x | x in left ensures Apart(x, last) {
        var m :| 0 <= m < |init| && init[m].lo <= x.lo && x.hi <= init[m].hi;
        assert Apart(gaps[m], gaps[|gaps| - 1]);
      }
      AppendApart(left, right);
    }
  }

  // ---------------------------------------------------------------- sorting gaps

  predicate NotAfter(x: Interval, y: Interval) {
    x.lo < y.lo || (x.lo == y.lo && x.hi <= y.hi)
  }

  function Insert(x: Interval, sorted: seq<Interval>): seq<Interval> {
    if sorted == [] || NotAfter(x, sorted[0]) then [x] + sorted
    else [sorted[0]] + Insert(x, sorted[1..])
  }

  /** `sort_unstable` on pairs: lexicographic order. */
  function Sort(gaps: seq<Interval>): seq<Interval> {
    if gaps == [] then [] else Insert(gaps[0], Sort(gaps[1..]))
  }

  lemma {:induction false} InsertKeepsElements(x: Interval, s: seq<Interval>, y: Interval)
    ensures y in Insert(x, s) <==> y == x || y in s
  {
    if s != [] && !NotAfter(x, s[0]) {
      InsertKeepsElements(x, s[1..], y);
    }
  }

  lemma {:induction false} SortKeepsElements(s: seq<Interval>, y: Interval)
    ensures y in Sort(s) <==> y in s
  {
    if s != [] {
      SortKeepsElements(s[1..], y);
      InsertKeepsElements(s[0], Sort(s[1..]), y);
    }
  }

  lemma {:induction false} InsertSeparates(x: Interval, s: seq<Interval>)
    requires x.lo <= x.hi && Proper(s) && Separated(s)
    requires forall y :: y in s ==> Apart(x, y)
    ensures Proper(Insert(x, s)) && Separated(Insert(x, s))
  {
    if s == [] {
    } else if NotAfter(x, s[0]) {
      assert Apart(x, s[0]);
    } else {
      InsertSeparates(x, s[1..]);
      var tail := Insert(x, s[1..]);
      assert Apart(x, s[0]);
      forall k | 0 <= k < |tail| ensures s[0].hi + 1 < tail[k].lo {
        InsertKeepsElements(x, s[1..], tail[k]);
      }
    }
  }

  lemma {:induction false} SortSeparates(s: seq<Interval>)
    requires Proper(s) && AllApart(s)
    ensures Proper(Sort(s)) && Separated(Sort(s))
  {
    if s != [] {
      SortSeparates(s[1..]);
      forall y | y in Sort(s[1..]) ensures Apart(s[0], y) {
        SortKeepsElements(s[1..], y);
      }
      InsertSeparates(s[0], Sort(s[1..]));
    }
  }

  lemma SortMeaning(s: seq<Interval>, h: int)
    ensures InAny(Sort(s), h) <==> InAny(s, h)
  {
    if InAny(s, h) {
      var i :| 0 <= i < |s| && Within(s[i], h);
      SortKeepsElements(s, s[i]);
    }
    if InAny(Sort(s), h) {
      var i :| 0 <= i < |Sort(s)| && Within(Sort(s)[i], h);
      SortKeepsElements(s, Sort(s)[i]);
    }
  }

  // ---------------------------------------------------------------- cover

  /** Gaps of `c` plus the new gap opened when [a, b] lies beyond either bound. */
  function Stretch(c: Coverage, a: u64, b: u64): seq<Interval>
    requires c.low.Some? && c.high.Some? && c.low.value <= c.high.value && a <= b
  {
    var low, high := c.low.value, c.high.value;
    c.gaps
    + (if a > SaturatingSucc(high) then [Interval(high + 1, a - 1)] else [])
    + (if SaturatingSucc(b) < low then [Interval(b + 1, low - 1)] else [])
  }

  /** The outcome of covering [a, b]: the new coverage and whether anything was added. */
  function CoverValue(c: Coverage, a: u64, b: u64): Result<(Coverage, bool)>
    requires c.low.Some? && c.high.Some? ==> c.low.value <= c.high.value
  {
    if a > b || a < c.start then Err(Invalid)
    else if Contains(c, a, b) then Ok((c, false))
    else if c.low.Some? && c.high.Some? then
      Ok((c.(gaps := Sort(Carve(Stretch(c, a, b), a, b)),
             low := Some(Min(c.low.value, a)),
             high := Some(Max(c.high.value, b))), true))
    else Ok((c.(low := Some(a), high := Some(b)), true))
  }

  lemma StretchStaysApart(c: Coverage, a: u64, b: u64)
    requires WellFormed(c) && c.low.Some? && a <= b
    ensures Proper(Stretch(c, a, b)) && AllApart(Stretch(c, a, b))
  {
  }

  lemma StretchMeaning(c: Coverage, a: u64, b: u64, h: int)
    requires WellFormed(c) && c.low.Some? && a <= b
    ensures InAny(Stretch(c, a, b), h) <==>
            InAny(c.gaps, h) || c.high.value < h < a || b < h < c.low.value
  {
    var low, high := c.low.value, c.high.value;
    var up := if a > SaturatingSucc(high) then [Interval(high + 1, a - 1)] else [];
    var down := if SaturatingSucc(b) < low then [Interval(b + 1, low - 1)] else [];
    InAnyAppend(c.gaps + up, down, h);
    InAnyAppend(c.gaps, up, h);
    assert InAny(up, h) <==> high < h < a by {
      if high < h < a { assert Within(up[0], h); }
    }
    assert InAny(down, h) <==> b < h < low by {
      if b < h < low { assert Within(down[0], h); }
    }
  }

  /** `cover` accepts exactly the proper intervals at or above the domain start, keeps
      what the reload validator checks, never touches the other fields, and adds
      exactly [a, b]; it reports a change exactly when something was added. */
  lemma CoverIsUnion(c: Coverage, a: u64, b: u64)
    requires WellFormed(c)
    ensures CoverValue(c, a, b).Ok? <==> c.start <= a <= b
    ensures CoverValue(c, a, b).Ok? ==>
              var (d, changed) := CoverValue(c, a, b).value;
              && WellFormed(d)
              && d == c.(low := d.low, high := d.high, gaps := d.gaps)
              && (forall h :: Covered(d, h) <==> Covered(c, h) || a <= h <= b)
              && (changed <==> exists h :: a <= h <= b && !Covered(c, h))
              && (!changed ==> d == c)
  {
    if c.start <= a <= b {
      ContainsIsPointwise(c, a, b);
      if !Contains(c, a, b) {
        if c.low.Some? {
          Widens(c, a, b);
        } else {
          Starts(c, a, b);
        }
      }
      hide WellFormed, Covered, Contains, Sort, Carve, Stretch;
    }
  }

  /** The first interval of a coverage. */
  lemma Starts(c: Coverage, a: u64, b: u64)
    requires WellFormed(c) && c.low.None? && a <= b
    ensures var d := c.(low := Some(a), high := Some(b));
            WellFormed(d) && forall h :: Covered(d, h) <==> Covered(c, h) || a <= h <= b
  {
    forall h ensures !InAny(c.gaps, h) {
    }
  }

  ghost function Widened(c: Coverage, a: u64, b: u64): Coverage
    requires c.low.Some? && c.high.Some? && c.low.value <= c.high.value && a <= b
  {
    c.(gaps := Sort(Carve(Stretch(c, a, b), a, b)), low := Some(Min(c.low.value, a)), high := Some(Max(c.high.value, b)))
  }

  /** A further interval: the gaps that remain are the old ones and those opened by the new
      bounds, without the interval. */
  lemma Widens(c: Coverage, a: u64, b: u64)
    requires WellFormed(c) && c.low.Some? && a <= b
    ensures var d := Widened(c, a, b);
            WellFormed(d) && forall h :: Covered(d, h) <==> Covered(c, h) || a <= h <= b
  {
    var wide, d := Stretch(c, a, b), Widened(c, a, b);
    StretchStaysApart(c, a, b);
    CarveStaysApart(wide, a, b);
    SortSeparates(Carve(wide, a, b));
    hide Sort, Carve, Stretch, InAny;
    forall h ensures InAny(d.gaps, h) <==>
        (InAny(c.gaps, h) || c.high.value < h < a || b < h < c.low.value) && !(a <= h <= b) {
      StretchMeaning(c, a, b, h);
      CarveMeaning(wide, a, b, h);
      SortMeaning(Carve(wide, a, b), h);
    }
    CoverBounds(c, a, b, d);
    forall h ensures Covered(d, h) <==> Covered(c, h) || a <= h <= b {
      GapsBetween(c, h);
    }
  }

  lemma GapsBetween(c: Coverage, h: int)
    requires WellFormed(c)
    ensures InAny(c.gaps, h) ==> c.low.Some? && c.low.value < h < c.high.value
  {
  }

  lemma CoverStaysWellFormed(c: Coverage, a: u64, b: u64)
    requires WellFormed(c)
    ensures CoverValue(c, a, b).Ok? ==> WellFormed(CoverValue(c, a, b).value.0)
  {
    CoverIsUnion(c, a, b);
  }

  /** The new gaps stay strictly between the new bounds. */
  lemma CoverBounds(c: Coverage, a: u64, b: u64, d: Coverage)
    requires WellFormed(c) && c.low.Some? && a <= b
    requires d == c.(gaps := Sort(Carve(Stretch(c, a, b), a, b)),
                     low := Some(Min(c.low.value, a)), high := Some(Max(c.high.value, b)))
    requires Proper(d.gaps)
    requires forall h :: InAny(d.gaps, h) ==>
               (InAny(c.gaps, h) || c.high.value < h < a || b < h < c.low.value) && !(a <= h <= b)
    ensures forall i :: 0 <= i < |d.gaps| ==> d.low.value < d.gaps[i].lo && d.gaps[i].hi < d.high.value
  {
    forall i | 0 <= i < |d.gaps|
      ensures d.low.value < d.gaps[i].lo && d.gaps[i].hi < d.high.value
    {
      var lo, hi := d.gaps[i].lo, d.gaps[i].hi;
      assert Within(d.gaps[i], lo) && Within(d.gaps[i], hi);
      assert InAny(d.gaps, lo) && InAny(d.gaps, hi);
    }
  }

  // ---------------------------------------------------------------- canonical form

  lemma FirstGapBounds(g: seq<Interval>, h: int)
    requires g != [] && Proper(g) && Separated(g)
    ensures InAny(g, h) ==> g[0].lo <= h
    ensures g[0].lo <= h <= g[0].hi ==> InAny(g, h)
    ensures !InAny(g, g[0].hi + 1)
    ensures InAny(g[1..], h) <==> InAny(g, h) && h > g[0].hi
  {
    if g[0].lo <= h <= g[0].hi {
      assert Within(g[0], h);
    }
    if InAny(g, h) && h > g[0].hi {
      var i :| 0 <= i < |g| && Within(g[i], h);
      assert g[i] == g[1..][i - 1];
    }
    if InAny(g[1..], h) {
      var i :| 0 <= i < |g[1..]| && Within(g[1..][i], h);
      assert g[i + 1] == g[1..][i];
    }
  }

  lemma FirstGapReaches(g1: seq<Interval>, g2: seq<Interval>)
    requires g1 != [] && Proper(g1) && Separated(g1)
    requires g2 != [] && Proper(g2) && Separated(g2)
    requires forall h :: InAny(g1, h) <==> InAny(g2, h)
    ensures g2[0].lo <= g1[0].lo && g1[0].hi <= g2[0].hi
  {
    FirstGapBounds(g1, g1[0].lo);
    FirstGapBounds(g2, g1[0].lo);
    FirstGapBounds(g1, g2[0].hi + 1);
    FirstGapBounds(g1, g2[0].lo);
    FirstGapBounds(g2, g2[0].lo);
  }

  /** Separated gap lists with the same heights are the same list. */
  lemma {:induction false} GapsAreCanonical(g1: seq<Interval>, g2: seq<Interval>)
    requires Proper(g1) && Separated(g1) && Proper(g2) && Separated(g2)
    requires forall h :: InAny(g1, h) <==> InAny(g2, h)
    ensures g1 == g2
  {
    if g1 != [] && g2 != [] {
      FirstGapReaches(g1, g2);
      FirstGapReaches(g2, g1);
      forall h ensures InAny(g1[1..], h) <==> InAny(g2[1..], h) {
        FirstGapBounds(g1, h);
        FirstGapBounds(g2, h);
      }
      GapsAreCanonical(g1[1..], g2[1..]);
      assert g1 == [g1[0]] + g1[1..] && g2 == [g2[0]] + g2[1..];
    } else if g1 != [] {
      FirstGapBounds(g1, g1[0].lo);
    } else if g2 != [] {
      FirstGapBounds(g2, g2[0].lo);
    }
  }

  lemma BoundsAreCovered(c: Coverage)
    requires WellFormed(c) && c.low.Some?
    ensures Covered(c, c.low.value) && Covered(c, c.high.value)
  {
  }

  /** The persisted form is canonical: the heights determine bounds and gaps. */
  lemma CoverageIsCanonical(c: Coverage, d: Coverage)
    requires WellFormed(c) && WellFormed(d)
    requires forall h :: Covered(c, h) <==> Covered(d, h)
    ensures c.low == d.low && c.high == d.high && c.gaps == d.gaps
  {
    if c.low.Some? { BoundsAreCovered(c); }
    if d.low.Some? { BoundsAreCovered(d); }
    if c.low.Some? && d.low.Some? {
      forall h ensures InAny(c.gaps, h) <==> InAny(d.gaps, h) {
        assert Covered(c, h) <==> Covered(d, h);
      }
      GapsAreCanonical(c.gaps, d.gaps);
    }
  }

  /** Completing two intervals in either order persists the same coverage. */
  lemma CoverCommutes(c: Coverage, a1: u64, b1: u64, a2: u64, b2: u64)
    requires WellFormed(c) && c.start <= a1 <= b1 && c.start <= a2 <= b2
    ensures var one := CoverValue(c, a1, b1).value.0;
            var two := CoverValue(c, a2, b2).value.0;
            && WellFormed(one) && WellFormed(two)
            && CoverValue(one, a2, b2).Ok? && CoverValue(two, a1, b1).Ok?
            && CoverValue(one, a2, b2).value.0 == CoverValue(two, a1, b1).value.0
  {
    CoverIsUnion(c, a1, b1);
    CoverIsUnion(c, a2, b2);
    var one, two := CoverValue(c, a1, b1).value.0, CoverValue(c, a2, b2).value.0;
    CoverIsUnion(one, a2, b2);
    CoverIsUnion(two, a1, b1);
    CoverageIsCanonical(CoverValue(one, a2, b2).value.0, CoverValue(two, a1, b1).value.0);
  }

  // ---------------------------------------------------------------- the mutable record

  /** What is left of one gap: all of it, or what lies on either side of the interval. */
  method KeepParts(g: Interval, a: u64, b: u64) returns (kept: seq<Interval>)
    requires a <= b
    ensures kept == CarveOne(g, a, b)
  {
    kept := [];
    if g.hi < a || g.lo > b {
      kept := [g];
    } else {
      if g.lo < a {
        kept := [Interval(g.lo, a - 1)];
      }
      if g.hi > b {
        kept := kept + [Interval(b + 1, g.hi)];
      }
    }
  }

  /** The rebuild loop inside `cover`: keep, trim or split every gap. */
  method Rebuild(gaps: seq<Interval>, a: u64, b: u64) returns (rebuilt: seq<Interval>)
    requires a <= b
    ensures rebuilt == Carve(gaps, a, b)
  {
    rebuilt := [];
    for k := 0 to |gaps|
      invariant rebuilt == Carve(gaps[..k], a, b)
    {
      assert gaps[..k + 1][..k] == gaps[..k];
      var kept := KeepParts(gaps[k], a, b);
      hide CarveOne;
      rebuilt := rebuilt + kept;
    }
    assert gaps[..|gaps|] == gaps;
  }

  /** The record whose `cover` method the store's transactions call. */
  class Ledger {
    var version: nat
    var gen: u64
    var start: u64
    var low: Option<u64>
    var high: Option<u64>
    var gaps: seq<Interval>
    var prunedFloor: Option<u64>

    function Value(): Coverage
      reads this
    {
      Coverage(version, gen, start, low, high, gaps, prunedFloor)
    }

    constructor (c: Coverage)
      ensures Value() == c
    {
      version, gen, start := c.version, c.gen, c.start;
      low, high, gaps, prunedFloor := c.low, c.high, c.gaps, c.prunedFloor;
    }

    /** Merge [a, b] in place. */
    method Cover(a: u64, b: u64) returns (r: Result<bool>)
      requires WellFormed(Value())
      modifies this
      ensures var outcome := CoverValue(old(Value()), a, b);
              && (outcome.Err? ==> r == Err(outcome.error) && Value() == old(Value()))
              && (outcome.Ok? ==> r == Ok(outcome.value.1) && Value() == outcome.value.0)
      ensures WellFormed(Value())
    {
      CoverStaysWellFormed(Value(), a, b);
      if a > b || a < start {
        return Err(Invalid);
      }
      if Contains(Value(), a, b) {
        return Ok(false);
      }
      if low.Some? && high.Some? {
        Widen(a, b);
      } else {
        low := Some(a);
        high := Some(b);
      }
      return Ok(true);
    }

    /** Push the outer gap, rebuild the gap list, sort it and move the bounds. */
    method Widen(a: u64, b: u64)
      requires low.Some? && high.Some? && low.value <= high.value && a <= b
      modifies `gaps, `low, `high
      ensures gaps == Sort(Carve(Stretch(old(Value()), a, b), a, b))
      ensures low == Some(Min(old(low.value), a)) && high == Some(Max(old(high.value), b))
    {
      var l, h := low.value, high.value;
      if a > SaturatingSucc(h) {
        gaps := gaps + [Interval(h + 1, a - 1)];
      }
      if SaturatingSucc(b) < l {
        gaps := gaps + [Interval(b + 1, l - 1)];
      }
      assert gaps == Stretch(old(Value()), a, b);
      var rebuilt := Rebuild(gaps, a, b);
      gaps := Sort(rebuilt);
      low := Some(Min(l, a));
      high := Some(Max(h, b));
    }
  }
}
