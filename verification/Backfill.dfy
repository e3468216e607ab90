/** What a chunk of backfill relies on: facts about the store that survive whatever other
    tasks commit, and the steps that carry them from one read or write to the next. */
module Backfill {
  import opened Prelude
  import opened Ordering
  import opened CoverageAlgebra
  import opened StoreModel
  import opened Protocol
  import opened DurableStore
  import Planning
  import Retry
  import E = Enumeration

  // ---------------------------------------------------------------- what is left to do

  /** Complete, or durably marked as having no retained data. */
  ghost predicate Handled(s: State, d: Domain, h: int) {
    CoveredIn(s.coverage, d, h) || (0 <= h <= U64_MAX && (d, Generation(s, d), h as u64) in s.unavailable)
  }

  /** Uncovered, unmarked heights up to the target. */
  ghost function Pending(s: State, d: Domain, target: u64): set<int> {
    set h | h in Planning.Range(0, target) && !Handled(s, d, h)
  }

  lemma HandledLater(s: State, t: State, d: Domain, h: int)
    requires Follows(s, t) && Generation(s, d) == Generation(t, d) && Handled(s, d, h)
    ensures Handled(t, d, h)
  {
    assert SameGenerationKeeps(s, t, d);
    hide CoveredIn, Follows, Generation;
  }

  /** While the generation lasts, work is never undone. */
  lemma PendingShrinks(s: State, t: State, d: Domain, target: u64)
    requires Follows(s, t) && Generation(s, d) == Generation(t, d)
    ensures Pending(t, d, target) <= Pending(s, d, target)
  {
    forall h | h in Pending(t, d, target) ensures h in Pending(s, d, target) {
      if Handled(s, d, h) {
        HandledLater(s, t, d, h);
      }
    }
  }

  lemma PendingDrops(s: State, t: State, d: Domain, target: u64, h: int)
    requires Follows(s, t) && Generation(s, d) == Generation(t, d)
    requires 0 <= h <= target && !Handled(s, d, h) && Handled(t, d, h)
    ensures |Pending(t, d, target)| < |Pending(s, d, target)|
  {
    PendingShrinks(s, t, d, target);
    hide Handled, Follows;
    assert h in Planning.Range(0, target) by { assert Planning.Between(0, h, target); }
    assert h in Pending(s, d, target) && h !in Pending(t, d, target);
    var rest := Pending(s, d, target) - {h};
    assert Pending(t, d, target) <= rest;
    SubsetSize(Pending(t, d, target), rest);
  }

  // ---------------------------------------------------------------- stable facts

  /** The scan was begun; as long as its generation lasts its row and the domain's coverage
      start stay. */
  ghost predicate Begun(s: State, scan: Scan, start: u64) {
    && s.genesis == Some(scan.genesis)
    && scan.expected <= Generation(s, scan.domain)
    && (Generation(s, scan.domain) == scan.expected ==>
          && scan.id in s.scans
          && s.scans[scan.id].(cursor := None, finished := false) == RowOf(scan)
          && scan.domain in s.coverage && s.coverage[scan.domain].start == start)
  }

  /** Moreover it is finished, with these discovered heights. */
  ghost predicate Frozen(s: State, scan: Scan, heights: set<nat>) {
    Generation(s, scan.domain) == scan.expected ==>
      scan.id in s.scans && s.scans[scan.id].finished && forall n: nat :: (scan.id, n) in s.scanWinners <==> n in heights
  }

  /** All of these heights are complete, as long as the generation lasts. */
  ghost predicate AllComplete(s: State, scan: Scan, heights: set<nat>) {
    Generation(s, scan.domain) == scan.expected ==> forall n :: n in heights ==> CoveredIn(s.coverage, scan.domain, n)
  }

  ghost predicate Settled(s: State, scan: Scan, h: int) {
    Generation(s, scan.domain) == scan.expected ==> Handled(s, scan.domain, h)
  }

  lemma BegunLater(s: State, t: State, scan: Scan, start: u64)
    requires Begun(s, scan, start) && Follows(s, t)
    ensures Begun(t, scan, start)
  {
    hide CoveredIn;
    if Generation(t, scan.domain) == scan.expected {
      assert SameGenerationKeeps(s, t, scan.domain);
      assert s.scans[scan.id].(cursor := None, finished := false).domain == scan.domain;
    }
  }

  lemma FrozenLater(s: State, t: State, scan: Scan, start: u64, heights: set<nat>)
    requires Begun(s, scan, start) && Frozen(s, scan, heights) && Follows(s, t)
    ensures Frozen(t, scan, heights)
  {
    hide CoveredIn;
    if Generation(t, scan.domain) == scan.expected {
      assert SameGenerationKeeps(s, t, scan.domain);
      assert s.scans[scan.id].(cursor := None, finished := false).domain == scan.domain;
    }
  }

  lemma CompleteLater(s: State, t: State, scan: Scan, heights: set<nat>)
    requires scan.expected <= Generation(s, scan.domain) && AllComplete(s, scan, heights) && Follows(s, t)
    ensures AllComplete(t, scan, heights)
  {
    hide CoveredIn;
    if Generation(t, scan.domain) == scan.expected {
      assert SameGenerationKeeps(s, t, scan.domain);
    }
  }

  lemma SettledLater(s: State, t: State, scan: Scan, h: int)
    requires scan.expected <= Generation(s, scan.domain) && Settled(s, scan, h) && Follows(s, t)
    ensures Settled(t, scan, h)
  {
    if Generation(t, scan.domain) == scan.expected {
      HandledLater(s, t, scan.domain, h);
    }
  }

  /** Discovered heights of an interval. */
  ghost function HeightsIn(heights: set<nat>, a: int, b: int): set<nat> {
    set n | n in heights && a <= n <= b
  }

  function Completion(scan: Scan, from: u64, through: u64): RangeCompletion {
    RangeCompletion(scan.genesis, scan.domain, scan.expected, from, through, scan.id)
  }

  /** A range whose discovered winners are complete passes every check of `commit_range`. */
  lemma RangeAccepted(s: State, scan: Scan, start: u64, heights: set<nat>, from: u64, through: u64)
    requires Inv(s) && Begun(s, scan, start) && Frozen(s, scan, heights) && scan.domain != Authorship
    requires start <= from <= through <= scan.finalizedHeight <= U64_MAX
    requires AllComplete(s, scan, HeightsIn(heights, from, through))
    ensures var (t, r) := CommitRange(s, Completion(scan, from, through));
            && r.Ok?
            && (Generation(s, scan.domain) == scan.expected ==>
                  forall n :: from <= n <= through ==> CoveredIn(t.coverage, scan.domain, n))
  {
    hide CommitRange;
    if Generation(s, scan.domain) == scan.expected {
      var c := s.coverage[scan.domain];
      NoneMissing(s, scan, heights, from, through);
      assert WellFormed(c) && c.gen == scan.expected;
      CoverIsUnion(c, from, through);
      CommitRangeCovers(s, Completion(scan, from, through), c);
      hide WellFormed, Covered, CoverValue, WinnerMissing;
    } else {
      StaleRange(s, Completion(scan, from, through));
    }
  }

  lemma NoneMissing(s: State, scan: Scan, heights: set<nat>, from: u64, through: u64)
    requires ScanInv(s) && Generation(s, scan.domain) == scan.expected && scan.id in s.scans && scan.domain in s.coverage
    requires s.scans[scan.id].(cursor := None, finished := false) == RowOf(scan) && scan.finalizedHeight <= U64_MAX
    requires Frozen(s, scan, heights) && AllComplete(s, scan, HeightsIn(heights, from, through))
    ensures !WinnerMissing(s, scan.id, s.coverage[scan.domain], from, through)
  {
    var row := s.scans[scan.id].(cursor := None, finished := false);
    forall n | (scan.id, n) in s.scanWinners ensures n <= U64_MAX && (from <= n <= through ==> Covered(s.coverage[scan.domain], n)) {
      assert (scan.id, n).1 <= s.scans[scan.id].finalizedHeight == row.finalizedHeight;
      if from <= n <= through {
        assert n in HeightsIn(heights, from, through);
        assert CoveredIn(s.coverage, scan.domain, n);
      }
    }
  }

  lemma StaleRange(s: State, r: RangeCompletion)
    requires r.from <= r.through <= U64_MAX && s.genesis == Some(r.genesis) && Generation(s, r.domain) != r.expected
    ensures CommitRange(s, r) == (s, Ok(StaleGeneration))
  {
  }

  /** A range completion all of whose checks pass. */
  lemma CommitRangeCovers(s: State, r: RangeCompletion, c: Coverage)
    requires r.from <= r.through <= U64_MAX && s.genesis == Some(r.genesis) && Generation(s, r.domain) == r.expected
    requires ScanProves(s, r.scanId, r.domain, r.expected, r.through) && s.scans[r.scanId].genesis == r.genesis
    requires r.domain != Authorship && r.domain in s.coverage && s.coverage[r.domain] == c && WellFormed(c) && c.gen == r.expected
    requires !WinnerMissing(s, r.scanId, c, r.from, r.through) && c.start <= r.from
    ensures var (t, result) := CommitRange(s, r);
            result.Ok? && forall n :: r.from <= n <= r.through ==> CoveredIn(t.coverage, r.domain, n)
  {
    CoverIsUnion(c, r.from, r.through);
    hide WellFormed, Covered, CoverValue, WinnerMissing, Generation;
  }

  /** What a store reached by the driver satisfies. */
  ghost predicate Good(s: State) {
    WinnersFit(s) && Inv(s)
  }

  lemma StepIsGood(s: State, op: Op)
    requires Good(s)
    ensures Good(Step(s, op)) && Follows(s, Step(s, op))
  {
    hide Inv, WinnersFit, Follows, Step;
    StepKeepsInv(s, op);
    StepFollows(s, op);
    StepKeepsFit(s, op);
  }

  /** `commit_range` after any interference, on a range whose winners were complete. */
  lemma RangeStep(first: State, s: State, scan: Scan, start: u64, heights: set<nat>, from: u64, through: u64)
    requires Good(s) && Follows(first, s)
    requires Begun(first, scan, start) && Frozen(first, scan, heights)
    requires scan.domain != Authorship && start <= from <= through <= scan.finalizedHeight <= U64_MAX
    requires AllComplete(first, scan, HeightsIn(heights, from, through))
    ensures var (t, r) := CommitRange(s, Completion(scan, from, through));
            && Good(t) && Follows(first, t) && r.Ok?
            && forall n :: from <= n <= through ==> Settled(t, scan, n)
  {
    hide CommitRange, Inv, WinnersFit, Good, Begun, Frozen, AllComplete, HeightsIn, Follows, CoveredIn, Generation;
    var r := Completion(scan, from, through);
    RangeIsGood(s, r);
    BegunLater(first, s, scan, start);
    FrozenLater(first, s, scan, start, heights);
    BegunGeneration(first, scan, start);
    CompleteLater(first, s, scan, HeightsIn(heights, from, through));
    assert Inv(s) by { GoodInv(s); }
    RangeAccepted(s, scan, start, heights, from, through);
    RangeKeepsGeneration(s, r, scan.domain);
    FollowsTransitive(first, s, CommitRange(s, r).0);
  }

  lemma GoodInv(s: State)
    requires Good(s)
    ensures Inv(s)
  {
  }

  lemma RangeIsGood(s: State, r: RangeCompletion)
    requires Good(s)
    ensures var t := CommitRange(s, r).0; Good(t) && Follows(s, t)
  {
    hide CommitRange, Good, Follows;
    StepIsGood(s, OpRange(r));
  }

  lemma BegunGeneration(s: State, scan: Scan, start: u64)
    requires Begun(s, scan, start)
    ensures scan.expected <= Generation(s, scan.domain)
  {
  }

  lemma RangeKeepsGeneration(s: State, r: RangeCompletion, d: Domain)
    ensures Generation(CommitRange(s, r).0, d) == Generation(s, d)
  {
    hide Load, WinnerMissing;
  }

  // ---------------------------------------------------------------- replaying discovered winners

  function Before(from: u64): Option<nat> {
    if from == 0 then None else Some(from - 1)
  }

  /** The cursor of the replay; past the last height there is none. */
  function CursorAt(c: int): Option<u64> {
    if 0 <= c <= U64_MAX then Some(c) else None
  }

  /** How far the first i rows reach. */
  ghost function Upto(from: u64, rows: seq<nat>, i: nat): int
    requires i <= |rows|
  {
    if i == 0 then from - 1 else rows[i - 1]
  }

  ghost predicate RowsFrom(from: u64, rows: seq<nat>) {
    Ordered(rows) && |rows| <= 16 && forall j :: 0 <= j < |rows| ==> from <= rows[j] <= U64_MAX
  }

  /** Everything from `from` up to below `c` is settled, except for discovered winners that
      processing did not handle. */
  ghost predicate Passed(s: State, scan: Scan, heights: set<nat>, from: int, c: int, handled: bool) {
    forall n :: from <= n < c && (handled || n !in heights) ==> Settled(s, scan, n)
  }

  /** The rows are the next discovered winners; those from the cursor on that have been
      visited are complete; and what the cursor has moved past is settled. */
  ghost predicate Replaying(s: State, scan: Scan, start: u64, heights: set<nat>, from: u64, rows: seq<nat>, i: nat,
                            c: int, handled: bool)
  {
    && Begun(s, scan, start) && Frozen(s, scan, heights)
    && RowsFrom(from, rows) && i <= |rows|
    && (Generation(s, scan.domain) == scan.expected ==> FirstAbove(heights, Before(from), 16, rows))
    && AllComplete(s, scan, HeightsIn(heights, c, Upto(from, rows, i)))
    && Passed(s, scan, heights, from, c, handled)
  }

  lemma PassedLater(s: State, t: State, scan: Scan, heights: set<nat>, from: int, c: int, handled: bool)
    requires scan.expected <= Generation(s, scan.domain) && Passed(s, scan, heights, from, c, handled) && Follows(s, t)
    ensures Passed(t, scan, heights, from, c, handled)
  {
    hide Settled, Follows, Generation;
    forall n | from <= n < c && (handled || n !in heights) ensures Settled(t, scan, n) {
      SettledLater(s, t, scan, n);
    }
  }

  /** What a replay settles: every height up to the ceiling below which at most fifteen
      discovered winners lie, except winners that processing did not handle. */
  ghost predicate Replayed(s: State, scan: Scan, heights: set<nat>, from: int, ceiling: int, handled: bool) {
    forall n :: from <= n <= ceiling && |HeightsIn(heights, from, n - 1)| < 16 && (handled || n !in heights) ==>
      Settled(s, scan, n)
  }

  lemma ReplayedStart(s: State, scan: Scan, heights: set<nat>, from: int, ceiling: int)
    requires Replayed(s, scan, heights, from, ceiling, true) && from <= ceiling
    ensures Settled(s, scan, from)
  {
    assert HeightsIn(heights, from, from - 1) == {};
  }

  /** Sixteen rows below a height are sixteen discovered winners below it. */
  lemma RowsCount(heights: set<nat>, from: u64, rows: seq<nat>, n: int)
    requires FirstAbove(heights, Before(from), 16, rows) && |rows| == 16 && rows[15] < n && RowsFrom(from, rows)
    ensures |HeightsIn(heights, from, n - 1)| >= 16
  {
    E.DistinctCount(rows);
    forall h | h in Elements(rows) ensures h in HeightsIn(heights, from, n - 1) {
      var j :| 0 <= j < |rows| && rows[j] == h;
      assert rows[j] <= rows[15];
    }
    SubsetSize(Elements(rows), HeightsIn(heights, from, n - 1));
  }

  lemma RowsFit(store: Store, scan: Scan, from: u64, rows: seq<nat>)
    requires WinnersFit(store.Value()) && FirstAbove(store.HeightsOf(scan.id), Before(from), 16, rows)
    ensures RowsFrom(from, rows)
  {
    forall j | 0 <= j < |rows| ensures from <= rows[j] <= U64_MAX {
      store.HeightsMember(scan.id, rows[j]);
    }
  }

  lemma ReplayBegins(store: Store, scan: Scan, start: u64, heights: set<nat>, from: u64, rows: seq<nat>)
    requires Begun(store.Value(), scan, start) && Frozen(store.Value(), scan, heights) && RowsFrom(from, rows)
    requires FirstAbove(store.HeightsOf(scan.id), Before(from), 16, rows)
    ensures forall handled :: Replaying(store.Value(), scan, start, heights, from, rows, 0, from, handled)
  {
    hide FirstAbove;
    var s := store.Value();
    if Generation(s, scan.domain) == scan.expected {
      forall n: nat ensures n in heights <==> n in store.HeightsOf(scan.id) { store.HeightsMember(scan.id, n); }
      assert heights == store.HeightsOf(scan.id);
    }
    assert HeightsIn(heights, from, from - 1) == {};
  }

  lemma ReplayLater(s: State, t: State, scan: Scan, start: u64, heights: set<nat>, from: u64, rows: seq<nat>, i: nat,
                    c: int, handled: bool)
    requires Replaying(s, scan, start, heights, from, rows, i, c, handled) && Follows(s, t)
    ensures Replaying(t, scan, start, heights, from, rows, i, c, handled)
  {
    BegunLater(s, t, scan, start);
    FrozenLater(s, t, scan, start, heights);
    BegunGeneration(s, scan, start);
    CompleteLater(s, t, scan, HeightsIn(heights, c, Upto(from, rows, i)));
    PassedLater(s, t, scan, heights, from, c, handled);
    assert Generation(s, scan.domain) <= Generation(t, scan.domain);
    hide Begun, Frozen, Follows, AllComplete, Passed, FirstAbove;
  }

  /** Missing coverage, or coverage of another generation, means a reindex came between. */
  lemma LostCoverage(s: State, scan: Scan, start: u64, heights: set<nat>, from: u64, rows: seq<nat>, i: nat,
                     c: int, handled: bool)
    requires Inv(s) && Replaying(s, scan, start, heights, from, rows, i, c, handled)
    requires scan.domain !in s.coverage || s.coverage[scan.domain].gen != scan.expected
    ensures Generation(s, scan.domain) != scan.expected
  {
    hide WellFormed, FirstAbove, Settled;
  }

  lemma CompleteMore(s: State, scan: Scan, a: set<nat>, b: set<nat>)
    requires AllComplete(s, scan, a)
    requires Generation(s, scan.domain) == scan.expected ==>
               forall n :: n in b ==> n in a || CoveredIn(s.coverage, scan.domain, n)
    ensures AllComplete(s, scan, b)
  {
  }

  lemma NoneBetween(heights: set<nat>, from: u64, rows: seq<nat>, i: nat, n: nat)
    requires FirstAbove(heights, Before(from), 16, rows) && i < |rows| && from <= n < rows[i] && n in heights
    ensures n <= Upto(from, rows, i)
  {
    var j :| 0 <= j < |rows| && rows[j] == n;
  }

  lemma ReplayCommitted(s: State, scan: Scan, start: u64, heights: set<nat>, from: u64, rows: seq<nat>, i: nat,
                        c: int, handled: bool)
    requires Inv(s) && i < |rows| && Replaying(s, scan, start, heights, from, rows, i, c, handled) && from <= c
    requires scan.domain in s.coverage && rows[i] <= U64_MAX && Contains(s.coverage[scan.domain], rows[i], rows[i])
    ensures Replaying(s, scan, start, heights, from, rows, i + 1, c, handled)
  {
    var a, b := HeightsIn(heights, c, Upto(from, rows, i)), HeightsIn(heights, c, Upto(from, rows, i + 1));
    assert CoveredIn(s.coverage, scan.domain, rows[i]) by {
      ContainsIsPointwise(s.coverage[scan.domain], rows[i], rows[i]);
    }
    hide Inv, Contains, CoveredIn, Begun, Frozen, Settled;
    if Generation(s, scan.domain) == scan.expected {
      forall n | n in b ensures n in a || CoveredIn(s.coverage, scan.domain, n) {
        if n < rows[i] {
          NoneBetween(heights, from, rows, i, n);
        }
      }
    }
    CompleteMore(s, scan, a, b);
  }

  lemma ReplayGap(s: State, scan: Scan, start: u64, heights: set<nat>, from: u64, rows: seq<nat>, i: nat,
                  c: int, handled: bool)
    requires i < |rows| && Replaying(s, scan, start, heights, from, rows, i, c, handled) && from <= c < rows[i]
    ensures Begun(s, scan, start) && Frozen(s, scan, heights)
    ensures AllComplete(s, scan, HeightsIn(heights, c, rows[i] - 1))
  {
    var a, b := HeightsIn(heights, c, Upto(from, rows, i)), HeightsIn(heights, c, rows[i] - 1);
    hide CoveredIn, Begun, Frozen, Settled;
    if Generation(s, scan.domain) == scan.expected {
      forall n | n in b ensures n in a {
        NoneBetween(heights, from, rows, i, n);
      }
    }
    CompleteMore(s, scan, a, b);
  }

  /** The cursor moves past an uncommitted height after the stretch before it is done. */
  lemma ReplaySkips(s: State, t: State, scan: Scan, start: u64, heights: set<nat>, from: u64, rows: seq<nat>, i: nat,
                    c: int, handled: bool)
    requires i < |rows| && Replaying(s, scan, start, heights, from, rows, i, c, handled) && Follows(s, t)
    requires from <= c <= Upto(from, rows, i) + 1
    requires handled ==> Settled(s, scan, rows[i])
    requires forall n :: c <= n < rows[i] ==> Settled(t, scan, n)
    ensures Replaying(t, scan, start, heights, from, rows, i + 1, rows[i] + 1, handled)
  {
    ReplayLater(s, t, scan, start, heights, from, rows, i, c, handled);
    BegunGeneration(s, scan, start);
    if handled {
      SettledLater(s, t, scan, rows[i]);
    }
    assert rows[i] in heights || Settled(t, scan, rows[i]);
    hide Begun, Frozen, Settled, FirstAbove, Follows;
    assert HeightsIn(heights, rows[i] + 1, rows[i]) == {};
    assert AllComplete(t, scan, {});
  }

  /** A short page was the last one; a full page proves only its own prefix. */
  lemma ReplayRest(s: State, scan: Scan, start: u64, heights: set<nat>, from: u64, rows: seq<nat>, i: nat,
                   c: int, handled: bool, end: u64)
    requires Replaying(s, scan, start, heights, from, rows, i, c, handled) && from <= c
    requires i < |rows| ==> end < rows[i]
    requires i == |rows| ==> |rows| < 16 || end <= rows[|rows| - 1]
    ensures Begun(s, scan, start) && Frozen(s, scan, heights)
    ensures AllComplete(s, scan, HeightsIn(heights, c, end))
  {
    var a, b := HeightsIn(heights, c, Upto(from, rows, i)), HeightsIn(heights, c, end);
    hide CoveredIn, Begun, Frozen, Settled;
    if Generation(s, scan.domain) == scan.expected {
      forall n | n in b ensures n in a {
        if i < |rows| {
          NoneBetween(heights, from, rows, i, n);
        } else if n in rows {
          var j :| 0 <= j < |rows| && rows[j] == n;
        }
      }
    }
    CompleteMore(s, scan, a, b);
  }

  lemma ReplayEnds(s: State, t: State, scan: Scan, start: u64, heights: set<nat>, from: u64, rows: seq<nat>, i: nat,
                   c: int, handled: bool, ceiling: u64, end: u64)
    requires Replaying(s, scan, start, heights, from, rows, i, c, handled) && Follows(s, t)
    requires forall n :: c <= n <= end ==> Settled(t, scan, n)
    requires end == ceiling || (|rows| == 16 && end == rows[15])
    ensures Replayed(t, scan, heights, from, ceiling, handled)
  {
    ReplayLater(s, t, scan, start, heights, from, rows, i, c, handled);
    hide Begun, Frozen, FirstAbove, Follows, AllComplete, Handled;
    forall n | from <= n <= ceiling && |HeightsIn(heights, from, n - 1)| < 16 && (handled || n !in heights)
      ensures Settled(t, scan, n)
    {
      if Generation(t, scan.domain) == scan.expected && n > end {
        RowsCount(heights, from, rows, n);
      }
    }
  }

  // ---------------------------------------------------------------- enumerating

  lemma GoneMeansReindexed(s: State, scan: Scan, start: u64)
    requires Begun(s, scan, start) && scan.id !in s.scans
    ensures Generation(s, scan.domain) != scan.expected
  {
  }

  lemma FinishedIsFrozen(store: Store, scan: Scan)
    requires scan.id in store.scans && store.scans[scan.id].finished
    ensures Frozen(store.Value(), scan, store.HeightsOf(scan.id))
  {
    forall n: nat ensures (scan.id, n) in store.scanWinners <==> n in store.HeightsOf(scan.id) {
      store.HeightsMember(scan.id, n);
    }
  }

  lemma PageConsistent(p: E.WinnerPage, keys: seq<Key>, limit: nat, decode: Key -> Option<nat>)
    requires E.PageOf(p, keys, limit, decode) && limit >= 1
    ensures p.exhausted <==> p.continuation.None?
  {
  }

  lemma AppendIsGood(s: State, p: Page)
    requires Good(s)
    ensures var t := AppendPage(s, p).0; Good(t) && Follows(s, t)
  {
    hide AppendPage, Good, Follows;
    StepIsGood(s, OpAppend(p));
  }

  // ---------------------------------------------------------------- picking a range

  /** The domain has coverage, as long as this generation lasts. */
  ghost predicate Initialized(s: State, d: Domain, gen: u64) {
    gen <= Generation(s, d) && (Generation(s, d) == gen ==> d in s.coverage)
  }

  lemma InitializedLater(s: State, t: State, d: Domain, gen: u64)
    requires Initialized(s, d, gen) && Follows(s, t)
    ensures Initialized(t, d, gen)
  {
    hide CoveredIn;
    assert Generation(s, d) <= Generation(t, d);
    if Generation(t, d) == gen {
      assert SameGenerationKeeps(s, t, d);
    }
  }

  /** Markers stay while the generation lasts. */
  lemma MarkedGrows(s: State, t: State, d: Domain, gen: u64)
    requires Initialized(s, d, gen) && Follows(s, t)
    ensures Generation(t, d) == gen ==> Marked(s, d, gen) <= Marked(t, d, gen)
  {
    assert Generation(s, d) <= Generation(t, d);
    if Generation(t, d) == gen {
      assert SameGenerationKeeps(s, t, d);
      hide Follows, Generation;
      forall h | h in Marked(s, d, gen) ensures h in Marked(t, d, gen) {
        MarkedMember(s, d, gen, h);
        MarkedMember(t, d, gen, h);
        var key: (Domain, u64, u64) := (d, gen, h);
        assert key in s.unavailable && key.0 == d;
      }
    }
  }

  /** The height was pending before and lies at or above the domain start now. */
  ghost predicate Wanted(s: State, t: State, d: Domain, gen: u64, h: u64) {
    && (Generation(s, d) == gen == Generation(t, d) ==> !Handled(s, d, h))
    && (Generation(t, d) == gen ==> d in t.coverage && t.coverage[d].start <= h)
  }

  /** Every height a plan for this coverage could name is handled. */
  ghost predicate Exhausted(c: Coverage, s: State, d: Domain, target: u64) {
    forall h :: Planning.Eligible(c, target, h) ==> Handled(s, d, h)
  }

  /** Nothing is left of what the stored coverage asks for. */
  ghost predicate Drained(s: State, d: Domain, target: u64) {
    d in s.coverage && Exhausted(s.coverage[d], s, d, target)
  }

  /** The store, as it was after the first k transactions of this generation, asked for
      nothing that is not handled after all of them. */
  ghost predicate DrainedSince(trace: seq<Op>, k: nat, d: Domain, target: u64)
    requires k <= |trace|
  {
    var s, t := After(FreshStore(), trace[..k]), After(FreshStore(), trace);
    d in s.coverage && Generation(s, d) == Generation(t, d) && Exhausted(s.coverage[d], t, d, target)
  }

  /** Nothing is left of what the store asked for at some moment since the first n
      transactions. */
  ghost predicate NothingLeft(trace: seq<Op>, n: nat, d: Domain, target: u64) {
    exists k :: n <= k <= |trace| && DrainedSince(trace, k, d, target)
  }

  lemma NothingLeftEarlier(trace: seq<Op>, m: nat, n: nat, d: Domain, target: u64)
    requires m <= n && NothingLeft(trace, n, d, target)
    ensures NothingLeft(trace, m, d, target)
  {
    hide DrainedSince;
  }

  lemma MissingMeansReindexed(s: State, d: Domain, gen: u64)
    requires Initialized(s, d, gen) && d !in s.coverage
    ensures Generation(s, d) != gen
  {
  }

  lemma StoredWellFormed(s: State, d: Domain)
    requires Inv(s) && d in s.coverage
    ensures WellFormed(s.coverage[d])
  {
  }

  lemma PlanProper(c: Coverage, target: u64, ranges: seq<Interval>)
    requires Planning.IsPlan(c, target, ranges)
    ensures forall k :: 0 <= k < |ranges| ==> ranges[k].lo <= ranges[k].hi
  {
  }

  /** A height of a planned interval is eligible and uncovered. */
  lemma PlanMember(c: Coverage, target: u64, ranges: seq<Interval>, k: nat, h: int)
    requires Planning.IsPlan(c, target, ranges) && k < |ranges| && ranges[k].lo <= h <= ranges[k].hi
    ensures Planning.Eligible(c, target, h) && !Covered(c, h)
  {
    assert CoverageAlgebra.Within(ranges[k], h);
    assert InAny(ranges, h);
  }

  ghost predicate RangesHandled(s: State, d: Domain, gen: u64, ranges: seq<Interval>) {
    Generation(s, d) == gen ==>
      forall k, h :: 0 <= k < |ranges| && ranges[k].lo <= h <= ranges[k].hi ==> Handled(s, d, h)
  }

  lemma NoRangesHandled(s: State, d: Domain, gen: u64, ranges: seq<Interval>)
    ensures RangesHandled(s, d, gen, ranges[..0])
  {
  }

  lemma RangesHandledNext(s: State, t: State, d: Domain, gen: u64, ranges: seq<Interval>, k: nat)
    requires k < |ranges| && Initialized(s, d, gen) && Follows(s, t)
    requires RangesHandled(s, d, gen, ranges[..k])
    requires Generation(t, d) == gen ==> Retry.AllMarked(Marked(t, d, gen), ranges[k].lo, ranges[k].hi)
    ensures RangesHandled(t, d, gen, ranges[..k + 1])
  {
    assert Generation(s, d) <= Generation(t, d);
    if Generation(t, d) == gen {
      forall j, h | 0 <= j < k + 1 && ranges[j].lo <= h <= ranges[j].hi ensures Handled(t, d, h) {
        if j < k {
          assert ranges[..k][j] == ranges[j];
          HandledLater(s, t, d, h);
        } else {
          MarkedMember(t, d, gen, h);
        }
      }
    }
  }

  lemma RetryIsWanted(first: State, s1: State, before: State, t: State, d: Domain, gen: u64, target: u64,
                      ranges: seq<Interval>, k: nat, y: Interval)
    requires Follows(first, s1) && Follows(first, before) && Follows(before, t) && Follows(s1, t)
    requires Initialized(t, d, gen) && Initialized(s1, d, gen) && Initialized(before, d, gen)
    requires d in s1.coverage && Planning.IsPlan(s1.coverage[d], target, ranges) && k < |ranges|
    requires ranges[k].lo <= y.lo <= y.hi <= ranges[k].hi
    requires Generation(t, d) == gen ==> y.lo !in Marked(before, d, gen)
    ensures y.lo <= y.hi <= target && Wanted(first, t, d, gen, y.lo)
  {
    PlanMember(s1.coverage[d], target, ranges, k, y.lo);
    PlanMember(s1.coverage[d], target, ranges, k, y.hi);
    LaterGeneration(s1, t, d);
    LaterGeneration(before, t, d);
    MarkedMember(before, d, gen, y.lo);
    if Generation(t, d) == gen {
      assert SameGenerationKeeps(s1, t, d);
      if Generation(first, d) == gen {
        NotHandledBefore(first, s1, before, d, gen, y.lo);
      }
    }
  }

  lemma NotHandledBefore(first: State, s1: State, t: State, d: Domain, gen: u64, h: u64)
    requires Follows(first, s1) && Follows(first, t)
    requires Generation(first, d) == gen == Generation(s1, d) && Generation(t, d) == gen
    requires !CoveredIn(s1.coverage, d, h) && (d, gen, h) !in t.unavailable
    ensures !Handled(first, d, h)
  {
    assert SameGenerationKeeps(first, s1, d) && SameGenerationKeeps(first, t, d);
    hide CoveredIn, Follows, Generation;
    var key: (Domain, u64, u64) := (d, gen, h);
    assert key !in first.unavailable;
  }

  /** A plan all of whose intervals are handled exhausts the coverage it was made from. */
  lemma PlanHandled(s1: State, t: State, d: Domain, gen: u64, target: u64, ranges: seq<Interval>)
    requires Follows(s1, t) && Initialized(s1, d, gen) && d in s1.coverage
    requires Planning.IsPlan(s1.coverage[d], target, ranges) && RangesHandled(t, d, gen, ranges)
    ensures Generation(t, d) == gen ==> Generation(s1, d) == gen && Exhausted(s1.coverage[d], t, d, target)
  {
    assert Generation(s1, d) <= Generation(t, d);
    if Generation(t, d) == gen {
      assert SameGenerationKeeps(s1, t, d);
      var c := s1.coverage[d];
      forall h | Planning.Eligible(c, target, h) ensures Handled(t, d, h) {
        if Covered(c, h) {
          assert CoveredIn(s1.coverage, d, h);
        } else {
          assert InAny(ranges, h);
          var k :| 0 <= k < |ranges| && CoverageAlgebra.Within(ranges[k], h);
        }
      }
    }
  }

  // ---------------------------------------------------------------- a whole chunk

  lemma LaterGeneration(s: State, t: State, d: Domain)
    requires Follows(s, t)
    ensures Generation(s, d) <= Generation(t, d)
  {
  }

  lemma InitializedGeneration(s: State, d: Domain, gen: u64)
    requires Initialized(s, d, gen)
    ensures gen <= Generation(s, d)
  {
  }

  lemma InitializeEffect(s: State, d: Domain, gen: u64)
    requires Good(s) && gen <= Generation(s, d)
    ensures var (t, r) := InitializeCoverage(s, d, gen, 0);
            && Good(t) && Follows(s, t) && Generation(t, d) == Generation(s, d)
            && (r.Ok? && r.value != StaleGeneration ==> Initialized(t, d, gen))
            && (r == Ok(StaleGeneration) ==> gen < Generation(t, d))
            && (s.genesis.Some? ==> r.Ok?)
            && (r.Ok? && Generation(s, d) == gen ==> d in t.coverage && (d !in s.coverage ==> t.coverage[d].start == 0))
            && (d in s.coverage ==> d in t.coverage)
  {
    InitializeIsGood(s, d, gen);
    InitializeRow(s, d, gen);
    hide InitializeCoverage, Good, Follows, Generation;
  }

  lemma InitializeRow(s: State, d: Domain, gen: u64)
    ensures var (t, r) := InitializeCoverage(s, d, gen, 0);
            && Generation(t, d) == Generation(s, d) && (s.genesis.Some? ==> r.Ok?)
            && (r.Ok? && Generation(s, d) == gen ==> d in t.coverage && (d !in s.coverage ==> t.coverage[d].start == 0))
            && (d in s.coverage ==> d in t.coverage)
            && (r.Ok? && r.value != StaleGeneration ==> Generation(s, d) == gen && d in t.coverage)
            && (r == Ok(StaleGeneration) ==> gen != Generation(s, d))
  {
  }

  lemma InitializeIsGood(s: State, d: Domain, gen: u64)
    requires Good(s)
    ensures var t := InitializeCoverage(s, d, gen, 0).0; Good(t) && Follows(s, t)
  {
    hide InitializeCoverage, Good, Follows;
    StepIsGood(s, OpInitialize(d, gen, 0));
  }

  lemma BeginIsGood(s: State, scan: Scan)
    requires Good(s)
    ensures var t := BeginScan(s, scan).0; Good(t) && Follows(s, t)
  {
    hide BeginScan, Good, Follows;
    StepIsGood(s, OpBegin(scan));
  }

  lemma BeginEffect(s: State, scan: Scan)
    requires Good(s) && Initialized(s, scan.domain, scan.expected)
    ensures var (t, r) := BeginScan(s, scan);
            && Good(t) && Follows(s, t)
            && (r == Ok(StaleGeneration) ==> scan.expected < Generation(t, scan.domain))
            && (r.Ok? && r.value != StaleGeneration ==>
                  scan.domain in t.coverage && Generation(t, scan.domain) == scan.expected
                  && Begun(t, scan, t.coverage[scan.domain].start))
  {
    BeginIsGood(s, scan);
    BeginRow(s, scan);
    hide Good, Follows, BeginScan, Generation, RowOf;
  }

  /** The coverage start of the scan's domain, if it has coverage. */
  function StartOf(s: State, d: Domain): u64 {
    if d in s.coverage then s.coverage[d].start else 0
  }

  /** What beginning a scan reports and leaves behind. */
  ghost predicate BeginReports(t: State, scan: Scan, r: Result<CommitResult>) {
    && (r == Ok(StaleGeneration) ==> scan.expected < Generation(t, scan.domain))
    && (r.Ok? && r.value != StaleGeneration ==>
          && Begun(t, scan, StartOf(t, scan.domain)) && Generation(t, scan.domain) == scan.expected
          && scan.domain in t.coverage)
  }

  /** `begin_scan` after any interference. */
  lemma BeginLater(first: State, s: State, scan: Scan)
    requires Good(s) && Follows(first, s) && Initialized(first, scan.domain, scan.expected)
    ensures var (t, r) := BeginScan(s, scan); Good(t) && Follows(first, t) && BeginReports(t, scan, r)
  {
    hide Good, Follows, Begun, Initialized, Generation, BeginScan;
    InitializedLater(first, s, scan.domain, scan.expected);
    BeginEffect(s, scan);
    FollowsTransitive(first, s, BeginScan(s, scan).0);
  }

  lemma BeginRow(s: State, scan: Scan)
    ensures var (t, r) := BeginScan(s, scan);
            && t.coverage == s.coverage && Generation(t, scan.domain) == Generation(s, scan.domain)
            && (r == Ok(StaleGeneration) ==> Generation(s, scan.domain) != scan.expected)
            && (r.Ok? && r.value != StaleGeneration ==>
                  Generation(s, scan.domain) == scan.expected && t.genesis == Some(scan.genesis)
                  && scan.id in t.scans && t.scans[scan.id].(cursor := None, finished := false) == RowOf(scan))
  {
    if BeginScan(s, scan).0 == s {
    } else {
      BeginShape(s, scan);
    }
  }

  /** The range starts at or above the domain start, as long as this generation lasts. */
  ghost predicate Reaches(s: State, d: Domain, gen: u64, from: u64) {
    Generation(s, d) == gen ==> d in s.coverage && s.coverage[d].start <= from
  }

  lemma WantedReaches(s: State, t: State, d: Domain, gen: u64, from: u64)
    requires Wanted(s, t, d, gen, from)
    ensures Reaches(t, d, gen, from)
  {
  }

  lemma StartBelow(s: State, t: State, d: Domain, gen: u64, from: u64)
    requires Initialized(s, d, gen) && Reaches(s, d, gen, from) && Follows(s, t)
    requires Generation(t, d) == gen && d in t.coverage
    ensures t.coverage[d].start <= from
  {
    LaterGeneration(s, t, d);
    assert SameGenerationKeeps(s, t, d);
    hide CoveredIn;
  }

  lemma WantedEarlier(s0: State, s1: State, t: State, d: Domain, gen: u64, h: u64)
    requires Follows(s0, s1) && Follows(s1, t) && Wanted(s1, t, d, gen, h)
    ensures Wanted(s0, t, d, gen, h)
  {
    LaterGeneration(s0, s1, d);
    LaterGeneration(s1, t, d);
    hide Follows, Generation, Handled;
    if Generation(s0, d) == gen == Generation(t, d) && Handled(s0, d, h) {
      HandledLater(s0, s1, d, h);
    }
  }

  /** Whatever others commit meanwhile: a chunk that handles the height it picked leaves
      strictly fewer pending. */
  lemma ChunkProgress(s: State, t: State, u: State, d: Domain, gen: u64, target: u64, from: u64)
    requires Follows(s, t) && Follows(t, u) && Follows(s, u)
    requires Generation(s, d) == Generation(u, d) && Generation(s, d) <= gen <= Generation(t, d)
    requires Wanted(s, t, d, gen, from) && from <= target
    requires Generation(u, d) == gen ==> Handled(u, d, from)
    ensures |Pending(u, d, target)| < |Pending(s, d, target)|
  {
    LaterGeneration(s, t, d);
    LaterGeneration(t, u, d);
    hide Handled, Follows, Generation;
    PendingDrops(s, u, d, target, from);
  }

  lemma PendingBound(s: State, d: Domain, target: u64)
    ensures |Pending(s, d, target)| <= target as int + 1
  {
    Planning.RangeSize(0, target);
    SubsetSize(Pending(s, d, target), Planning.Range(0, target));
  }

  lemma RoundShrinks(first: State, s: State, t: State, d: Domain, target: u64)
    requires Follows(first, s) && Follows(s, t)
    ensures Follows(first, t)
    ensures Generation(first, d) <= Generation(s, d) <= Generation(t, d)
    ensures Generation(s, d) == Generation(t, d) ==> |Pending(t, d, target)| <= |Pending(s, d, target)|
  {
    FollowsTransitive(first, s, t);
    LaterGeneration(first, s, d);
    LaterGeneration(s, t, d);
    if Generation(s, d) == Generation(t, d) {
      PendingShrinks(s, t, d, target);
      SubsetSize(Pending(t, d, target), Pending(s, d, target));
    }
  }

  lemma GoodMarks(s: State)
    requires Good(s)
    ensures MarkInv(s)
  {
  }

  lemma GoodFits(s: State)
    requires Good(s)
    ensures WinnersFit(s)
  {
  }

  lemma ReplayingBegun(s: State, scan: Scan, start: u64, heights: set<nat>, from: u64, rows: seq<nat>, i: nat,
                       c: int, handled: bool)
    requires Replaying(s, scan, start, heights, from, rows, i, c, handled)
    ensures Begun(s, scan, start)
  {
  }
}
