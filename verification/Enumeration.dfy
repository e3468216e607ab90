/** Paged enumeration of a pinned storage map in hash-key order, and why a finished scan
    holds exactly the heights of that map, whatever else happens to the store meanwhile. */
module Enumeration {
  import opened Prelude
  import opened Ordering
  import opened StoreModel
  import opened Protocol
  import opened Soundness

  // ---------------------------------------------------------------- one page

  /** Strictly after the cursor; no cursor means the beginning. */
  predicate Beyond(start: Option<Key>, k: Key) {
    start.None? || start.value < k
  }

  /** Strictly ascending keys, all beyond the cursor. */
  ghost predicate Ascending(start: Option<Key>, keys: seq<Key>) {
    && (forall i :: 0 <= i < |keys| ==> Beyond(start, keys[i]))
    && (forall i, j :: 0 <= i < j < |keys| ==> keys[i] < keys[j])
  }

  /** Entries of a response that are storage keys of the map (hex, with its prefix). */
  ghost predicate AllKeys(response: seq<Option<Key>>) {
    forall i :: 0 <= i < |response| ==> response[i].Some?
  }

  ghost function KeysOf(response: seq<Option<Key>>): seq<Key>
    requires AllKeys(response)
  {
    seq(|response|, i requires 0 <= i < |response| => response[i].value)
  }

  /** Accept a response only if it is bounded, in order and advancing. */
  method KeyPage(response: seq<Option<Key>>, start: Option<Key>, limit: nat) returns (r: Option<seq<Key>>)
    ensures r.Some? <==> |response| <= limit && AllKeys(response) && Ascending(start, KeysOf(response))
    ensures r.Some? ==> r.value == KeysOf(response)
  {
    if |response| > limit {
      return None;
    }
    var keys := [];
    var previous := start;
    for i := 0 to |response|
      invariant |keys| == i && forall j :: 0 <= j < i ==> response[j] == Some(keys[j])
      invariant Ascending(start, keys)
      invariant previous == if i == 0 then start else Some(keys[i - 1])
    {
      if response[i].None? || (previous.Some? && response[i].value <= previous.value) {
        assert AllKeys(response) && i > 0 ==> KeysOf(response)[i - 1] >= KeysOf(response)[i];
        assert AllKeys(response) ==> KeysOf(response)[i] == response[i].value;
        return None;
      }
      keys := keys + [response[i].value];
      previous := Some(keys[|keys| - 1]);
    }
    assert keys == KeysOf(response);
    return Some(keys);
  }

  datatype WinnerPage = WinnerPage(at: Hash, keys: seq<Key>, heights: seq<nat>, continuation: Option<Key>, exhausted: bool)

  /** A page's heights are those its keys spell; a short page ends the enumeration and a
      full one continues from its last key. */
  ghost predicate PageOf(p: WinnerPage, keys: seq<Key>, limit: nat, decode: Key -> Option<nat>) {
    && p.keys == keys
    && |p.heights| == |keys|
    && (forall i :: 0 <= i < |keys| ==> decode(keys[i]) == Some(p.heights[i]))
    && (p.exhausted <==> |keys| < limit)
    && p.continuation == if |keys| < limit || keys == [] then None else Some(keys[|keys| - 1])
  }

  /** Build a page at a snapshot from the node's response; any defect is an error. `decode`
      reads the height out of a key and fails when the key's hash does not match it. */
  method ReadPage(at: Hash, cursor: Option<(Hash, Key)>, limit: nat,
                  response: seq<Option<Key>>, decode: Key -> Option<nat>) returns (r: Option<WinnerPage>)
    ensures var start := if cursor.Some? then Some(cursor.value.1) else None;
            && (r.Some? <==>
                  && 1 <= limit <= 1000 && (cursor.Some? ==> cursor.value.0 == at)
                  && |response| <= limit && AllKeys(response) && Ascending(start, KeysOf(response))
                  && forall i :: 0 <= i < |response| ==> decode(KeysOf(response)[i]).Some?)
            && (r.Some? ==> r.value.at == at && PageOf(r.value, KeysOf(response), limit, decode))
  {
    if limit == 0 || limit > 1000 || (cursor.Some? && cursor.value.0 != at) {
      return None;
    }
    var start := if cursor.Some? then Some(cursor.value.1) else None;
    var page := KeyPage(response, start, limit);
    if page.None? {
      return None;
    }
    var keys := page.value;
    var heights := [];
    for i := 0 to |keys|
      invariant |heights| == i && forall j :: 0 <= j < i ==> decode(keys[j]) == Some(heights[j])
    {
      var height := decode(keys[i]);
      if height.None? {
        return None;
      }
      heights := heights + [height.value];
    }
    var exhausted := |keys| < limit;
    var continuation := if exhausted || keys == [] then None else Some(keys[|keys| - 1]);
    return Some(WinnerPage(at, keys, heights, continuation, exhausted));
  }

  // ---------------------------------------------------------------- an honest node

  /** What the node answers for a fixed snapshot: the next `limit` keys after the cursor. */
  ghost predicate IsNext(snapshot: set<Key>, start: Option<Key>, limit: nat, keys: seq<Key>) {
    && Ascending(start, keys)
    && |keys| <= limit
    && (forall i :: 0 <= i < |keys| ==> keys[i] in snapshot)
    && (forall k :: k in snapshot && Beyond(start, k) && k !in keys ==>
          |keys| == limit && forall i :: 0 <= i < |keys| ==> keys[i] < k)
  }

  ghost function Rest(snapshot: set<Key>, start: Option<Key>): set<Key> {
    set k | k in snapshot && Beyond(start, k)
  }

  lemma {:induction false} DistinctCount<T>(xs: seq<T>)
    requires forall i, j :: 0 <= i < j < |xs| ==> xs[i] != xs[j]
    ensures |Elements(xs)| == |xs|
  {
    if xs == [] {
      assert Elements(xs) == {};
    } else {
      var init, last := xs[..|xs| - 1], xs[|xs| - 1];
      DistinctCount(init);
      assert xs == init + [last];
      assert Elements(xs) == Elements(init) + {last};
      assert last !in Elements(init);
    }
  }

  /** A full page leaves exactly the keys after its last one. */
  lemma FullPageLeaves(snapshot: set<Key>, start: Option<Key>, limit: nat, keys: seq<Key>)
    requires IsNext(snapshot, start, limit, keys) && |keys| == limit >= 1
    ensures Rest(snapshot, Some(keys[|keys| - 1])) == Rest(snapshot, start) - Elements(keys)
  {
    var last := keys[|keys| - 1];
    forall k ensures k in Rest(snapshot, Some(last)) <==> k in Rest(snapshot, start) - Elements(keys) {
      if k in keys {
        var i :| 0 <= i < |keys| && keys[i] == k;
      }
    }
  }

  /** Every honest page removes exactly its keys from what remains, and it is the final
      page exactly when fewer than `limit` keys remained. */
  lemma PageProgress(snapshot: set<Key>, start: Option<Key>, limit: nat, keys: seq<Key>)
    requires IsNext(snapshot, start, limit, keys) && limit >= 1
    ensures |keys| < limit <==> |Rest(snapshot, start)| < limit
    ensures |keys| == limit ==> |Rest(snapshot, Some(keys[|keys| - 1]))| == |Rest(snapshot, start)| - limit
  {
    var rest, page := Rest(snapshot, start), Elements(keys);
    DistinctCount(keys);
    assert page <= rest;
    if |keys| < limit {
      assert rest == page;
    } else {
      FullPageLeaves(snapshot, start, limit, keys);
      assert |rest - page| == |rest| - |page|;
    }
  }

  /** The pages an honest node serves from a cursor until one is short. */
  ghost predicate Served(snapshot: set<Key>, start: Option<Key>, limit: nat, pages: seq<seq<Key>>)
    decreases |pages|
  {
    && pages != []
    && IsNext(snapshot, start, limit, pages[0])
    && (|pages[0]| < limit || |pages[0]| == 0 ==> |pages| == 1)
    && (|pages[0]| == limit > 0 ==> Served(snapshot, Some(pages[0][limit - 1]), limit, pages[1..]))
  }

  /** A map of n keys takes n / limit + 1 pages, also when n is a multiple of the limit
      (the last page is then empty). */
  lemma {:induction false} PagesServed(snapshot: set<Key>, start: Option<Key>, limit: nat, pages: seq<seq<Key>>)
    requires limit >= 1 && Served(snapshot, start, limit, pages)
    ensures (|pages| - 1) * limit <= |Rest(snapshot, start)| < |pages| * limit
    decreases |pages|
  {
    PageProgress(snapshot, start, limit, pages[0]);
    if |pages[0]| == limit {
      var rest := pages[1..];
      PagesServed(snapshot, Some(pages[0][limit - 1]), limit, rest);
      hide IsNext, Rest;
      assert |pages| * limit == |rest| * limit + limit;
      assert (|pages| - 1) * limit == (|rest| - 1) * limit + limit;
    }
  }

  // ---------------------------------------------------------------- runs

  /** The chain as the scans see it: one key set per snapshot, how keys spell heights, and
      the snapshot each scan identifier is pinned to (the identifier contains its hash). */
  datatype Chain = Chain(snapshot: Hash -> set<Key>, decode: Key -> Option<nat>, pinned: string -> Hash)

  /** Some key of the snapshot spells this height. */
  ghost predicate HeightAt(c: Chain, at: Hash, h: nat) {
    exists k :: k in c.snapshot(at) && c.decode(k) == Some(h)
  }

  /** The page an honest node leads the driver to append. */
  ghost predicate HonestPage(c: Chain, p: Page) {
    exists limit: nat, page: WinnerPage ::
      && 1 <= limit <= 1000
      && IsNext(c.snapshot(c.pinned(p.id)), p.expected, limit, page.keys)
      && PageOf(page, page.keys, limit, c.decode)
      && p.heights == page.heights && p.next == page.continuation
  }

  /** Nothing is assumed of any call but these: a scan is pinned to its own snapshot, and
      pages come from that snapshot. Calls may be repeated, lost, late or competing. */
  ghost predicate HonestOp(c: Chain, op: Op) {
    match op
    case OpBegin(scan) => scan.at == c.pinned(scan.id)
    case OpAppend(p) => HonestPage(c, p)
    case _ => true
  }

  ghost predicate HonestRun(c: Chain, ops: seq<Op>) {
    forall i :: 0 <= i < |ops| ==> HonestOp(c, ops[i])
  }

  /** The enumeration has passed this key. */
  ghost predicate Reached(row: ScanRow, k: Key) {
    row.finished || (row.cursor.Some? && k <= row.cursor.value)
  }

  ghost predicate ReachedHeight(c: Chain, row: ScanRow, h: nat) {
    exists k :: k in c.snapshot(row.at) && c.decode(k) == Some(h) && Reached(row, k)
  }

  /** Each scan holds exactly the heights of the keys its cursor has passed. */
  ghost predicate Enumerated(c: Chain, s: State) {
    forall id :: id in s.scans ==>
      && s.scans[id].at == c.pinned(id)
      && forall h: nat :: (id, h) in s.scanWinners <==> ReachedHeight(c, s.scans[id], h)
  }

  lemma PageReaches(c: Chain, row: ScanRow, next: ScanRow, limit: nat, p: WinnerPage, h: nat)
    requires !row.finished && 1 <= limit
    requires IsNext(c.snapshot(row.at), row.cursor, limit, p.keys) && PageOf(p, p.keys, limit, c.decode)
    requires next == row.(cursor := p.continuation, finished := p.continuation.None?)
    ensures ReachedHeight(c, next, h) <==> ReachedHeight(c, row, h) || h in p.heights
  {
    forall k | k in c.snapshot(row.at) ensures Reached(next, k) <==> Reached(row, k) || k in p.keys {
      if k in p.keys {
        var i :| 0 <= i < |p.keys| && p.keys[i] == k;
      }
    }
    if h in p.heights {
      var i :| 0 <= i < |p.heights| && p.heights[i] == h;
      assert p.keys[i] in c.snapshot(row.at) && c.decode(p.keys[i]) == Some(h) && Reached(next, p.keys[i]);
    }
    if ReachedHeight(c, row, h) {
      var k :| k in c.snapshot(row.at) && c.decode(k) == Some(h) && Reached(row, k);
      assert Reached(next, k);
    }
    if ReachedHeight(c, next, h) && h !in p.heights {
      var k :| k in c.snapshot(row.at) && c.decode(k) == Some(h) && Reached(next, k);
      assert k !in p.keys;
      assert Reached(row, k);
    }
  }

  lemma AppendedWinners(s: State, p: Page, t: State, id: string, h: nat)
    requires t.scanWinners == s.scanWinners + (set n | n in p.heights :: (p.id, n))
    ensures (id, h) in t.scanWinners <==> (id, h) in s.scanWinners || (id == p.id && h in p.heights)
  {
  }

  lemma PageKeepsEnumerated(c: Chain, s: State, p: Page, t: State, limit: nat, page: WinnerPage)
    requires Enumerated(c, s)
    requires 1 <= limit && IsNext(c.snapshot(c.pinned(p.id)), p.expected, limit, page.keys)
    requires PageOf(page, page.keys, limit, c.decode) && p.heights == page.heights && p.next == page.continuation
    requires p.id in s.scans && !s.scans[p.id].finished && s.scans[p.id].cursor == p.expected
    requires t.scanWinners == s.scanWinners + (set h | h in p.heights :: (p.id, h))
    requires t.scans == s.scans[p.id := s.scans[p.id].(cursor := p.next, finished := p.next.None?)]
    ensures Enumerated(c, t)
  {
    hide IsNext, PageOf, ReachedHeight;
    forall id, h: nat | id in t.scans ensures (id, h) in t.scanWinners <==> ReachedHeight(c, t.scans[id], h) {
      AppendedWinners(s, p, t, id, h);
      if id == p.id {
        PageReaches(c, s.scans[id], t.scans[id], limit, page, h);
      }
    }
  }

  lemma AppendKeepsEnumerated(c: Chain, s: State, p: Page)
    requires Enumerated(c, s) && HonestPage(c, p)
    ensures Enumerated(c, AppendPage(s, p).0)
  {
    var t := AppendPage(s, p).0;
    if t != s {
      AppendShape(s, p);
      hide AppendPage, Enumerated, IsNext, PageOf;
      var limit: nat, page: WinnerPage :|
        && 1 <= limit <= 1000
        && IsNext(c.snapshot(c.pinned(p.id)), p.expected, limit, page.keys)
        && PageOf(page, page.keys, limit, c.decode)
        && p.heights == page.heights && p.next == page.continuation;
      PageKeepsEnumerated(c, s, p, t, limit, page);
    }
  }

  lemma BeginKeepsEnumerated(c: Chain, s: State, scan: Scan)
    requires Inv(s) && Enumerated(c, s) && scan.at == c.pinned(scan.id)
    ensures Enumerated(c, BeginScan(s, scan).0)
  {
    var t := BeginScan(s, scan).0;
    if t != s {
      BeginShape(s, scan);
      hide BeginScan;
      assert forall h: nat :: (scan.id, h) !in s.scanWinners;
    }
  }

  lemma ReindexKeepsEnumerated(c: Chain, s: State, ds: set<Domain>)
    requires Enumerated(c, s)
    ensures Enumerated(c, Reindex(s, ds).0)
  {
    hide ReindexBlocked, ReindexCoverage, ReindexRecords, Generation, ReachedHeight;
  }

  lemma StepKeepsEnumerated(c: Chain, s: State, op: Op)
    requires Inv(s) && Enumerated(c, s) && HonestOp(c, op)
    ensures Enumerated(c, Step(s, op))
  {
    hide Inv, BeginScan, AppendPage, Reindex;
    match op
    case OpBegin(scan) => BeginKeepsEnumerated(c, s, scan);
    case OpAppend(p) => AppendKeepsEnumerated(c, s, p);
    case OpReindex(ds) => ReindexKeepsEnumerated(c, s, ds);
    case _ => OthersKeepScans(s, op); hide Step, ReachedHeight;
  }

  lemma {:induction false} EnumeratedOverRuns(c: Chain, ops: seq<Op>)
    requires HonestRun(c, ops)
    ensures Enumerated(c, After(FreshStore(), ops))
    decreases |ops|
  {
    hide Step, HonestOp;
    if ops != [] {
      var init := ops[..|ops| - 1];
      assert HonestRun(c, init);
      EnumeratedOverRuns(c, init);
      FreshInv();
      AfterKeepsInv(FreshStore(), init);
      StepKeepsEnumerated(c, After(FreshStore(), init), ops[|ops| - 1]);
    }
  }

  /** Completeness of enumeration: in every state of every run, a finished scan holds
      exactly the heights of its snapshot's map. */
  lemma FinishedScanIsComplete(c: Chain, ops: seq<Op>, id: string, h: nat)
    requires HonestRun(c, ops)
    requires var s := After(FreshStore(), ops); id in s.scans && s.scans[id].finished
    ensures var s := After(FreshStore(), ops);
            (id, h) in s.scanWinners <==> HeightAt(c, s.scans[id].at, h)
  {
    EnumeratedOverRuns(c, ops);
    var row := After(FreshStore(), ops).scans[id];
    hide After;
    if HeightAt(c, row.at, h) {
      var k :| k in c.snapshot(row.at) && c.decode(k) == Some(h);
      assert Reached(row, k);
    }
  }

  // ---------------------------------------------------------------- no winner is skipped

  /** The snapshot contains every winner up to the height the scan is pinned at. */
  ghost predicate SnapshotKnows(c: Chain, won: nat -> bool, at: Hash, finalizedHeight: nat) {
    forall h: nat :: h <= finalizedHeight && won(h) ==> HeightAt(c, at, h)
  }

  ghost predicate KnowingRun(c: Chain, won: nat -> bool, ops: seq<Op>) {
    forall i :: 0 <= i < |ops| && ops[i].OpBegin? ==>
      SnapshotKnows(c, won, ops[i].scan.at, ops[i].scan.finalizedHeight)
  }

  lemma StepScanRows(s: State, op: Op, id: string)
    requires id in Step(s, op).scans
    ensures || (op.OpBegin? && Step(s, op).scans[id] == RowOf(op.scan))
            || (id in s.scans && Step(s, op).scans[id].at == s.scans[id].at
                && Step(s, op).scans[id].finalizedHeight == s.scans[id].finalizedHeight)
  {
    if op.OpBegin? {
      if BeginScan(s, op.scan).0 != s {
        BeginShape(s, op.scan);
      }
      hide BeginScan;
    } else if op.OpAppend? {
      if AppendPage(s, op.page).0 != s {
        AppendShape(s, op.page);
      }
      hide AppendPage;
    } else if op.OpReindex? {
      hide ReindexBlocked, ReindexCoverage, ReindexRecords, Generation;
    } else {
      OthersKeepScans(s, op);
      hide Step;
    }
  }

  lemma {:induction false} ScansKnow(c: Chain, won: nat -> bool, ops: seq<Op>, id: string)
    requires KnowingRun(c, won, ops) && id in After(FreshStore(), ops).scans
    ensures var row := After(FreshStore(), ops).scans[id]; SnapshotKnows(c, won, row.at, row.finalizedHeight)
    decreases |ops|
  {
    hide Step, SnapshotKnows;
    if ops != [] {
      var init, op := ops[..|ops| - 1], ops[|ops| - 1];
      var s := After(FreshStore(), init);
      StepScanRows(s, op, id);
      if op.OpBegin? && Step(s, op).scans[id] == RowOf(op.scan) {
        assert ops[|ops| - 1].OpBegin?;
      } else {
        assert KnowingRun(c, won, init);
        ScansKnow(c, won, init, id);
      }
    }
  }

  /** The law the protocol exists for: along every run in which pages come from the pinned
      snapshots and those contain the winners they should, every covered height of a sparse
      domain that is a real winner was completed by a commit of the current generation. */
  lemma NoWinnerIsSkipped(c: Chain, won: nat -> bool, ops: seq<Op>, d: Domain, h: nat)
    requires HonestRun(c, ops) && KnowingRun(c, won, ops)
    requires d != Authorship && won(h) && CoveredIn(After(FreshStore(), ops).coverage, d, h)
    ensures CommittedBy(ops, d, Generation(After(FreshStore(), ops), d), h)
  {
    CoverageSoundness(ops, d, h);
    var s := After(FreshStore(), ops);
    if Excluded(s, d, h) {
      var id :| ScanProves(s, id, d, Generation(s, d), h) && (id, h) !in s.scanWinners;
      ScansKnow(c, won, ops, id);
      assert HeightAt(c, s.scans[id].at, h);
      FinishedScanIsComplete(c, ops, id, h);
    }
  }
}
