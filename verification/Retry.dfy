/** Absence markers and the search for the next retryable interval.

    The markers of one domain and generation are rows of text: the height and its
    stored successor. The search uses only those texts and the decimal text order;
    here it is proved to find the first maximal unmarked interval numerically. */
module Retry {
  import opened Prelude
  import opened Decimal
  import opened CoverageAlgebra

  /** `height` to `next_height`; the successor of the maximal height is NULL. */
  type Rows = map<string, Option<string>>

  function NextText(n: u64): Option<string> {
    match CheckedSucc(n)
    case None => None
    case Some(m) => Some(ToText(m))
  }

  /** The rows that hold a set of marked heights. */
  function RowsOf(marked: set<u64>): Rows {
    RowsAreFunctional();
    map n | n in marked :: ToText(n) := NextText(n)
  }

  lemma RowsAreFunctional()
    ensures forall m: u64, n: u64 :: ToText(m) == ToText(n) ==> NextText(m) == NextText(n)
  {
    forall m: u64, n: u64 | ToText(m) == ToText(n) ensures NextText(m) == NextText(n) {
      ToTextInjective(m, n);
    }
  }

  /** INSERT ... ON CONFLICT DO NOTHING, as `mark_unavailable` issues it. */
  function InsertRow(rows: Rows, n: u64): Rows {
    if ToText(n) in rows then rows else rows[ToText(n) := NextText(n)]
  }

  lemma RowsMembership(marked: set<u64>, n: u64)
    ensures ToText(n) in RowsOf(marked) <==> n in marked
    ensures n in marked ==> RowsOf(marked)[ToText(n)] == NextText(n)
  {
    RowsAreFunctional();
    if ToText(n) in RowsOf(marked) {
      var m :| m in marked && ToText(m) == ToText(n);
      ToTextInjective(m, n);
    }
  }

  /** Marking keeps the table the image of the marked set. */
  lemma MarkingKeepsRows(marked: set<u64>, n: u64)
    ensures InsertRow(RowsOf(marked), n) == RowsOf(marked + {n})
  {
    RowsMembership(marked, n);
    var before, after := RowsOf(marked), RowsOf(marked + {n});
    hide RowsOf, ToText, NextText;
    if n in marked {
      assert marked + {n} == marked;
    } else {
      RowsMembership(marked + {n}, n);
      forall t | t in before ensures t in after && after[t] == before[t] {
        var m := RowText(marked, t);
        RowsMembership(marked + {n}, m);
      }
      forall t | t in after ensures t in before || t == ToText(n) {
        var m := RowText(marked + {n}, t);
        RowsMembership(marked, m);
      }
    }
  }

  lemma RowText(marked: set<u64>, t: string) returns (n: u64)
    requires t in RowsOf(marked)
    ensures n in marked && t == ToText(n) && RowsOf(marked)[t] == NextText(n)
  {
    RowsAreFunctional();
    n :| n in marked && ToText(n) == t;
  }

  ghost predicate AllPrinted(texts: set<string>) {
    forall t :: t in texts ==> exists n: u64 :: t == ToText(n)
  }

  /** ORDER BY length, text LIMIT 1. */
  method First(texts: set<string>) returns (r: Option<string>)
    requires AllPrinted(texts)
    ensures r.None? <==> texts == {}
    ensures r.Some? ==> r.value in texts && forall t :: t in texts ==> !DecimalGt(r.value, t)
  {
    if texts == {} {
      return None;
    }
    var best :| best in texts;
    var rest := texts - {best};
    LeastAlone(best);
    while rest != {}
      invariant best in texts && rest <= texts
      invariant forall t :: t in texts && t !in rest ==> !DecimalGt(best, t)
    {
      var t :| t in rest;
      if DecimalGt(best, t) {
        forall u | u in texts && u !in rest ensures !DecimalGt(t, u) {
          NotGreaterTransitive(t, best, u);
        }
        best := t;
      }
      LeastAlone(t);
      rest := rest - {t};
    }
    return Some(best);
  }

  lemma LeastAlone(t: string)
    ensures !DecimalGt(t, t)
  {
    TextIrreflexive(t);
  }

  lemma {:induction false} TextIrreflexive(t: string)
    ensures !TextLess(t, t)
  {
    if t != "" { TextIrreflexive(t[1..]); }
  }

  lemma NotGreaterTransitive(t: string, best: string, u: string)
    requires exists n: u64 :: t == ToText(n)
    requires exists n: u64 :: best == ToText(n)
    requires exists n: u64 :: u == ToText(n)
    requires DecimalGt(best, t) && !DecimalGt(best, u)
    ensures !DecimalGt(t, u)
  {
    var a: u64 :| t == ToText(a);
    var b: u64 :| best == ToText(b);
    var c: u64 :| u == ToText(c);
    PrintedOrderIsNumeric(b, a);
    PrintedOrderIsNumeric(b, c);
    PrintedOrderIsNumeric(a, c);
  }

  // ---------------------------------------------------------------- the search

  /** [s, e] is the first maximal unmarked interval of [from, through]. */
  ghost predicate FirstUnmarked(marked: set<u64>, from: u64, through: u64, x: Interval) {
    && from <= x.lo <= x.hi <= through
    && (forall h :: from <= h < x.lo ==> h in marked)
    && (forall h :: x.lo <= h <= x.hi ==> h !in marked)
    && (x.hi == through || x.hi + 1 in marked)
  }

  ghost predicate AllMarked(marked: set<u64>, from: u64, through: u64) {
    forall h :: from <= h <= through ==> h in marked
  }

  /** Successor texts that can start an unmarked interval in (from, through]. */
  function Candidates(rows: Rows, from: string, through: string): set<string> {
    set t | t in rows && rows[t].Some? && DecimalGt(rows[t].value, from)
            && !DecimalGt(rows[t].value, through) && rows[t].value !in rows :: rows[t].value
  }

  /** Marked height texts in (from, through]. */
  function LaterMarks(rows: Rows, from: string, through: string): set<string> {
    set t | t in rows && DecimalGt(t, from) && !DecimalGt(t, through)
  }

  lemma CandidateMeaning(marked: set<u64>, from: u64, through: u64, n: u64)
    ensures ToText(n) in Candidates(RowsOf(marked), ToText(from), ToText(through)) <==>
            n > 0 && n - 1 in marked && from < n <= through && n !in marked
  {
    var rows := RowsOf(marked);
    hide RowsOf, ToText, DecimalGt;
    PrintedOrderIsNumeric(n, from);
    PrintedOrderIsNumeric(n, through);
    RowsMembership(marked, n);
    if ToText(n) in Candidates(rows, ToText(from), ToText(through)) {
      var t :| t in rows && rows[t].Some? && rows[t].value == ToText(n);
      var m := RowText(marked, t);
      ToTextInjective(m + 1, n);
    }
    if n > 0 && n - 1 in marked {
      RowsMembership(marked, n - 1);
      assert rows[ToText(n - 1)] == Some(ToText(n));
    }
  }

  lemma CandidatesPrinted(marked: set<u64>, from: string, through: string)
    ensures AllPrinted(Candidates(RowsOf(marked), from, through))
    ensures AllPrinted(LaterMarks(RowsOf(marked), from, through))
  {
    var rows := RowsOf(marked);
    forall c | c in Candidates(rows, from, through) ensures exists n: u64 :: c == ToText(n) {
      var t :| t in rows && rows[t].Some? && rows[t].value == c;
      var m := RowText(marked, t);
      assert c == ToText(m + 1);
    }
    forall t | t in LaterMarks(rows, from, through) ensures exists n: u64 :: t == ToText(n) {
      var m := RowText(marked, t);
    }
  }

  lemma LaterMeaning(marked: set<u64>, from: u64, through: u64, n: u64)
    ensures ToText(n) in LaterMarks(RowsOf(marked), ToText(from), ToText(through)) <==>
            n in marked && from < n <= through
  {
    PrintedOrderIsNumeric(n, from);
    PrintedOrderIsNumeric(n, through);
    RowsMembership(marked, n);
  }

  /** From a marked height, everything up to the first unmarked successor is marked. */
  lemma {:induction false} MarkedRun(marked: set<u64>, from: u64, end: int, h: int)
    requires from in marked && from <= h < end
    requires forall n :: from < n < end && n - 1 in marked ==> n in marked
    ensures h in marked
    decreases h - from
  {
    if from < h {
      MarkedRun(marked, from, end, h - 1);
      assert h - 1 in marked;
    }
  }

  lemma FirstCandidateStartsRun(marked: set<u64>, from: u64, through: u64, s: u64)
    requires from in marked && from < s <= through
    requires ToText(s) in Candidates(RowsOf(marked), ToText(from), ToText(through))
    requires forall t :: t in Candidates(RowsOf(marked), ToText(from), ToText(through)) ==> !DecimalGt(ToText(s), t)
    ensures s !in marked && forall h :: from <= h < s ==> h in marked
  {
    hide Candidates, RowsOf, DecimalGt, ToText;
    CandidateMeaning(marked, from, through, s);
    forall n | from < n < s && n - 1 in marked ensures n in marked {
      CandidateMeaning(marked, from, through, n);
      PrintedOrderIsNumeric(s, n);
    }
    forall h | from <= h < s ensures h in marked {
      MarkedRun(marked, from, s, h);
    }
  }

  lemma NoCandidateAllMarked(marked: set<u64>, from: u64, through: u64)
    requires from in marked && from <= through
    requires Candidates(RowsOf(marked), ToText(from), ToText(through)) == {}
    ensures forall h :: from <= h <= through ==> h in marked
  {
    forall n | from < n <= through && n - 1 in marked ensures n in marked {
      CandidateMeaning(marked, from, through, n);
    }
    forall h | from <= h <= through ensures h in marked {
      MarkedRun(marked, from, through as int + 1, h);
    }
  }

  lemma FirstLaterMarkEndsRun(marked: set<u64>, start: u64, through: u64, first: Option<string>)
    requires start <= through
    requires var later := LaterMarks(RowsOf(marked), ToText(start), ToText(through));
             && (first.None? <==> later == {})
             && (first.Some? ==> first.value in later && forall t :: t in later ==> !DecimalGt(first.value, t))
    ensures first.None? ==> forall h :: start < h <= through ==> h !in marked
    ensures first.Some? ==>
              && Canonical(first.value) && start < Value(first.value) <= through && Value(first.value) in marked
              && forall h :: start < h < Value(first.value) ==> h !in marked
  {
    var rows := RowsOf(marked);
    var later := LaterMarks(rows, ToText(start), ToText(through));
    if first.None? {
      forall h: u64 | start < h <= through ensures h !in marked {
        LaterMeaning(marked, start, through, h);
      }
    } else {
      var m := RowText(marked, first.value);
      ToTextRoundTrip(m);
      LaterMeaning(marked, start, through, m);
      hide RowsOf, LaterMarks;
      forall h: u64 | start < h < m ensures h !in marked {
        LaterMeaning(marked, start, through, h);
        PrintedOrderIsNumeric(m, h);
      }
    }
  }

  /** The first query: is the height marked? */
  method IsUnavailable(rows: Rows, ghost marked: set<u64>, n: u64) returns (r: bool)
    requires rows == RowsOf(marked)
    ensures r <==> n in marked
  {
    RowsMembership(marked, n);
    return ToText(n) in rows;
  }

  /** The second query: the least stored successor in (from, through] that is not marked
      itself. After a marked `from` it starts the first unmarked interval. */
  method NextStart(rows: Rows, ghost marked: set<u64>, from: u64, through: u64) returns (r: Option<u64>)
    requires rows == RowsOf(marked) && from <= through
    ensures r.Some? ==> from < r.value <= through && r.value !in marked
    ensures from in marked ==> (r.None? <==> AllMarked(marked, from, through))
    ensures from in marked && r.Some? ==> forall h :: from <= h < r.value ==> h in marked
  {
    CandidatesPrinted(marked, ToText(from), ToText(through));
    var row := First(Candidates(rows, ToText(from), ToText(through)));
    if row.None? {
      if from in marked { NoCandidateAllMarked(marked, from, through); }
      return None;
    }
    ghost var s: u64 :| row.value == ToText(s);
    CandidateMeaning(marked, from, through, s);
    if from in marked { FirstCandidateStartsRun(marked, from, through, s); }
    ToTextRoundTrip(s);
    var parsed := ToU64(row.value);
    return Some(parsed.value);
  }

  /** The third query: the interval ends before the next marked height. */
  method EndOf(rows: Rows, ghost marked: set<u64>, start: u64, through: u64) returns (end: u64)
    requires rows == RowsOf(marked) && start <= through
    ensures start <= end <= through && (end == through || end + 1 in marked)
    ensures forall h :: start < h <= end ==> h !in marked
  {
    CandidatesPrinted(marked, ToText(start), ToText(through));
    var row := First(LaterMarks(rows, ToText(start), ToText(through)));
    FirstLaterMarkEndsRun(marked, start, through, row);
    hide RowsOf, LaterMarks, ToText;
    return if row.Some? then Value(row.value) - 1 else through;
  }

  /** The first maximal unmarked interval; nothing exactly when all is marked. */
  method RetryableRange(rows: Rows, ghost marked: set<u64>, from: u64, through: u64)
    returns (r: Result<Option<Interval>>)
    requires rows == RowsOf(marked)
    ensures r.Err? <==> from > through
    ensures r == Ok(None) <==> from <= through && AllMarked(marked, from, through)
    ensures r.Ok? && r.value.Some? ==> FirstUnmarked(marked, from, through, r.value.value)
  {
    hide RowsOf;
    if from > through {
      return Err(Invalid);
    }
    var start := from;
    var unavailable := IsUnavailable(rows, marked, from);
    if unavailable {
      var next := NextStart(rows, marked, from, through);
      if next.None? {
        return Ok(None);
      }
      start := next.value;
    }
    var end := EndOf(rows, marked, start, through);
    return Ok(Some(Interval(start, end)));
  }
}
