/** The store as an object whose methods update its tables, each proved to be exactly the
    transaction of the same name on the value of the store. A method works on copies and
    assigns the tables only where the transaction commits, so every early return leaves
    them as they were. */
module DurableStore {
  import opened Prelude
  import opened Ordering
  import opened CoverageAlgebra
  import opened StoreModel
  import S = StoreModel
  import opened Protocol
  import E = Enumeration
  import Retry
  import Decimal
  import W = WinnerTables
  import D = DifficultyTables
  import A = AuthorshipTables
  import P = ParticipationTables

  // ---------------------------------------------------------------- pieces of transactions

  method LoadCoverage(coverage: map<Domain, Coverage>, d: Domain, gen: u64, start: u64) returns (r: Result<Coverage>)
    ensures r == Load(coverage, d, gen, start)
  {
    if d !in coverage {
      return Ok(EmptyCoverage(gen, start));
    }
    var accepted := Validate(coverage[d], gen);
    return if accepted then Ok(coverage[d]) else Err(Invalid);
  }

  method CompleteDomain(coverage: map<Domain, Coverage>, d: Domain, gen: u64, n: u64)
    returns (r: Result<(map<Domain, Coverage>, bool)>)
    ensures r == Complete(coverage, d, gen, n)
  {
    hide WellFormed, CoverValue;
    var loaded := LoadCoverage(coverage, d, gen, FirstStart(d, n));
    if loaded.Err? {
      return Err(loaded.error);
    }
    var ledger := new Ledger(loaded.value);
    var changed := ledger.Cover(n, n);
    if changed.Err? {
      return Err(changed.error);
    }
    return Ok((if changed.value then coverage[d := ledger.Value()] else coverage, changed.value));
  }

  lemma {:induction false} CompletionErrorStays(s: State, ds: seq<Domain>, n: u64, k: nat)
    requires k <= |ds| && CompleteAll(s, ds[..k], n).Err?
    ensures CompleteAll(s, ds, n) == CompleteAll(s, ds[..k], n)
    decreases |ds| - k
  {
    hide Complete;
    if k == |ds| {
      assert ds[..k] == ds;
    } else {
      assert ds[..k + 1][..k] == ds[..k];
      CompletionErrorStays(s, ds, n, k + 1);
    }
  }

  /** The loop over `completed` in a block commit. */
  method CompleteDomains(s: State, ds: seq<Domain>, n: u64) returns (r: Result<(map<Domain, Coverage>, bool)>)
    ensures r == CompleteAll(s, ds, n)
  {
    hide Complete, Generation;
    var coverage, changed := s.coverage, false;
    for k := 0 to |ds|
      invariant CompleteAll(s, ds[..k], n) == Ok((coverage, changed))
    {
      assert ds[..k + 1][..k] == ds[..k];
      var one := CompleteDomain(coverage, ds[k], Generation(s, ds[k]), n);
      if one.Err? {
        CompletionErrorStays(s, ds, n, k + 1);
        return Err(one.error);
      }
      coverage := one.value.0;
      changed := changed || one.value.1;
    }
    assert ds[..|ds|] == ds;
    return Ok((coverage, changed));
  }

  lemma {:induction false} ParticipantErrorStays(rows: P.Rows, ps: seq<P.Participant>, k: nat)
    requires k <= |ps| && P.WriteAll(rows, ps[..k]).Err?
    ensures P.WriteAll(rows, ps) == P.WriteAll(rows, ps[..k])
    decreases |ps| - k
  {
    if k == |ps| {
      assert ps[..k] == ps;
    } else {
      assert ps[..k + 1][..k] == ps[..k];
      ParticipantErrorStays(rows, ps, k + 1);
    }
  }

  /** The loop over participation records in a block commit. */
  method WriteParticipants(rows: P.Rows, ps: seq<P.Participant>) returns (r: Result<(P.Rows, bool)>)
    ensures r == P.WriteAll(rows, ps)
  {
    hide P.Write;
    var now, changed := rows, false;
    for k := 0 to |ps|
      invariant P.WriteAll(rows, ps[..k]) == Ok((now, changed))
    {
      assert ps[..k + 1][..k] == ps[..k];
      var one := P.Write(now, ps[k]);
      if one.Err? {
        ParticipantErrorStays(rows, ps, k + 1);
        return Err(one.error);
      }
      now := one.value.0;
      changed := changed || one.value.1;
    }
    assert ps[..|ps|] == ps;
    return Ok((now, changed));
  }

  method WriteBatch(t: Records, b: BlockRecords) returns (r: Result<(Records, bool)>)
    requires b.difficulty.Some? ==> b.difficulty.value.source == D.Block
    ensures r == WriteRecords(t, b)
  {
    hide W.Write, D.WriteBlock, A.Commit, P.WriteAll;
    var winners, c1 := t.winners, false;
    if b.winner.Some? {
      winners, c1 := W.WriteWinner(t.winners, b.winner.value);
    }
    var difficulty := if b.difficulty.Some? then D.WriteBlock(t.difficulty, b.difficulty.value) else Ok((t.difficulty, false));
    if difficulty.Err? {
      return Err(difficulty.error);
    }
    var authorship := if b.authorship.Some? then A.Commit(t.authorship, b.authorship.value) else Ok((t.authorship, false));
    if authorship.Err? {
      return Err(authorship.error);
    }
    var participation := WriteParticipants(t.participation, b.participation);
    if participation.Err? {
      return Err(participation.error);
    }
    return Ok((Records(winners, difficulty.value.0, authorship.value.0, participation.value.0),
               c1 || difficulty.value.1 || authorship.value.1 || participation.value.1));
  }

  /** Collecting guards by domain fails on the first repeated domain. */
  method HasDuplicateGuards(guards: seq<Guard>) returns (r: bool)
    ensures r <==> DuplicateGuards(guards)
  {
    var seen: map<Domain, u64> := map[];
    for k := 0 to |guards|
      invariant !DuplicateGuards(guards[..k])
      invariant forall d :: d in seen <==> exists i :: 0 <= i < k && guards[i].domain == d
    {
      if guards[k].domain in seen {
        return true;
      }
      seen := seen[guards[k].domain := guards[k].expected];
      assert guards[..k + 1] == guards[..k] + [guards[k]];
    }
    assert guards[..|guards|] == guards;
    return false;
  }

  // ---------------------------------------------------------------- ordered reads

  /** The first `limit` of an ordered set of heights above a bound. */
  ghost predicate FirstAbove(heights: set<nat>, after: Option<nat>, limit: nat, rows: seq<nat>) {
    && Ordered(rows) && |rows| <= limit
    && (forall i :: 0 <= i < |rows| ==> rows[i] in heights && (after.Some? ==> after.value < rows[i]))
    && (forall h :: h in heights && (after.Some? ==> after.value < h) && h !in rows ==>
          |rows| == limit && forall i :: 0 <= i < |rows| ==> rows[i] < h)
  }

  method TakeFirst(heights: set<nat>, after: Option<nat>, limit: nat) returns (rows: seq<nat>)
    ensures FirstAbove(heights, after, limit, rows)
  {
    var wanted := set h | h in heights && (after.Some? ==> after.value < h);
    var all := Sorted(wanted);
    assert forall i :: 0 <= i < |all| ==> all[i] in all;
    rows := if |all| <= limit then all else all[..limit];
    assert forall j :: 0 <= j < |rows| ==> rows[j] == all[j];
    forall h | h in heights && (after.Some? ==> after.value < h) && h !in rows
      ensures |rows| == limit && forall i :: 0 <= i < |rows| ==> rows[i] < h
    {
      assert h in wanted && h in all;
      var k :| 0 <= k < |all| && all[k] == h;
    }
  }

  // ---------------------------------------------------------------- reindex, one domain at a time

  function KeptScans(scans: map<string, ScanRow>, ds: set<Domain>): map<string, ScanRow> {
    map id | id in scans && scans[id].domain !in ds :: scans[id]
  }

  function KeptWinners(winners: set<(string, nat)>, scans: map<string, ScanRow>, ds: set<Domain>): set<(string, nat)> {
    set p | p in winners && !(p.0 in scans && scans[p.0].domain in ds)
  }

  function KeptMarkers(markers: map<(Domain, u64, u64), Marker>, ds: set<Domain>): map<(Domain, u64, u64), Marker> {
    map k | k in markers && k.0 !in ds :: markers[k]
  }

  /** The coverage left for a domain by its reindex: a kept authorship start, or nothing. */
  function RestartedCoverage(coverage: map<Domain, Coverage>, d: Domain, next: u64, start: u64): map<Domain, Coverage> {
    if d == Authorship && start > 0 then (coverage - {d})[d := EmptyCoverage(next, start)] else coverage - {d}
  }

  /** What the loop body of `reindex` does to one domain. */
  function ReindexStep(s: State, d: Domain, next: u64, start: u64): State {
    s.(generations := s.generations[d := next],
       coverage := RestartedCoverage(s.coverage, d, next, start),
       unavailable := KeptMarkers(s.unavailable, {d}),
       records := ReindexRecords(s.records, {d}),
       scanWinners := KeptWinners(s.scanWinners, s.scans, {d}),
       scans := KeptScans(s.scans, {d}))
  }

  /** The start kept for a domain's next generation. */
  function OldStart(s: State, d: Domain): u64 {
    if d in s.coverage then s.coverage[d].start else 0
  }

  lemma ReindexShape(s: State, ds: set<Domain>)
    requires Reindex(s, ds).1.Ok?
    ensures s.genesis.Some? && !ReindexBlocked(s, ds)
    ensures var t := Reindex(s, ds).0;
            && t == State(s.genesis, s.generations + (map d | d in ds :: Generation(s, d) + 1),
                          ReindexCoverage(s, ds), KeptScans(s.scans, ds), KeptWinners(s.scanWinners, s.scans, ds),
                          KeptMarkers(s.unavailable, ds), s.finalized, s.target, ReindexRecords(s.records, ds))
  {
    hide ReindexCoverage, ReindexRecords, Load, Generation;
  }

  lemma ExtendScans(scans: map<string, ScanRow>, winners: set<(string, nat)>, ds: set<Domain>, d: Domain)
    ensures KeptScans(KeptScans(scans, ds), {d}) == KeptScans(scans, ds + {d})
    ensures KeptWinners(KeptWinners(winners, scans, ds), KeptScans(scans, ds), {d}) == KeptWinners(winners, scans, ds + {d})
  {
  }

  lemma ExtendMarkers(markers: map<(Domain, u64, u64), Marker>, ds: set<Domain>, d: Domain)
    ensures KeptMarkers(KeptMarkers(markers, ds), {d}) == KeptMarkers(markers, ds + {d})
  {
  }

  lemma ExtendRecords(t: Records, ds: set<Domain>, d: Domain)
    requires d !in ds
    ensures ReindexRecords(ReindexRecords(t, ds), {d}) == ReindexRecords(t, ds + {d})
  {
    hide D.Reindex, A.Reindex;
  }

  lemma ExtendCoverage(s: State, ds: set<Domain>, d: Domain)
    requires !ReindexBlocked(s, ds) && !ReindexBlocked(s, ds + {d}) && d !in ds
    ensures RestartedCoverage(ReindexCoverage(s, ds), d, Generation(s, d) + 1, OldStart(s, d)) == ReindexCoverage(s, ds + {d})
  {
    hide Load, Generation;
    assert s.coverage - (ds + {d}) == s.coverage - ds - {d};
  }

  lemma ExtendGenerations(s: State, ds: set<Domain>, d: Domain)
    requires !ReindexBlocked(s, ds + {d})
    ensures (s.generations + (map e | e in ds :: Generation(s, e) + 1))[d := Generation(s, d) + 1]
            == s.generations + (map e | e in ds + {d} :: Generation(s, e) + 1)
  {
    hide Load, Generation;
  }

  /** Reindexing one more domain continues a reindex, and whether it can depends only on
      that domain as it was at the start. */
  lemma ReindexExtends(s: State, ds: set<Domain>, d: Domain)
    requires Reindex(s, ds).1.Ok? && d !in ds
    ensures var w := Reindex(s, ds).0;
            && Generation(w, d) == Generation(s, d)
            && Load(w.coverage, d, Generation(w, d), 0) == Load(s.coverage, d, Generation(s, d), 0)
            && OldStart(w, d) == OldStart(s, d)
    ensures Reindex(s, ds + {d}).1.Ok? <==>
            Generation(s, d) != U64_MAX && Load(s.coverage, d, Generation(s, d), 0).Ok?
    ensures Reindex(s, ds + {d}).1.Ok? ==>
            Reindex(s, ds + {d}).0 == ReindexStep(Reindex(s, ds).0, d, Generation(s, d) + 1, OldStart(s, d))
  {
    ReindexSpared(s, ds, d);
    ReindexPossible(s, ds, d);
    if Reindex(s, ds + {d}).1.Ok? {
      ReindexShape(s, ds);
      ReindexShape(s, ds + {d});
      ExtendScans(s.scans, s.scanWinners, ds, d);
      ExtendMarkers(s.unavailable, ds, d);
      ExtendRecords(s.records, ds, d);
      ExtendCoverage(s, ds, d);
      assert !ReindexBlocked(s, ds + {d});
      hide Reindex, Generation, OldStart, KeptScans, KeptWinners, KeptMarkers, ReindexRecords, ReindexCoverage,
        RestartedCoverage, Load, ReindexBlocked;
      ExtendGenerations(s, ds, d);
    }
  }

  lemma ReindexSpared(s: State, ds: set<Domain>, d: Domain)
    requires Reindex(s, ds).1.Ok? && d !in ds
    ensures var w := Reindex(s, ds).0;
            && Generation(w, d) == Generation(s, d)
            && Load(w.coverage, d, Generation(w, d), 0) == Load(s.coverage, d, Generation(s, d), 0)
            && OldStart(w, d) == OldStart(s, d)
  {
    hide ReindexBlocked, ReindexRecords, WellFormed;
  }

  lemma ReindexPossible(s: State, ds: set<Domain>, d: Domain)
    requires Reindex(s, ds).1.Ok?
    ensures Reindex(s, ds + {d}).1.Ok? <==> Generation(s, d) != U64_MAX && Load(s.coverage, d, Generation(s, d), 0).Ok?
  {
    hide ReindexCoverage, ReindexRecords, Load, Generation;
    assert s.genesis.Some?;
    assert !ReindexBlocked(s, ds);
    assert d in ds + {d};
  }

  lemma ReindexNothing(s: State)
    requires s.genesis.Some?
    ensures Reindex(s, {}).1 == Ok({}) && Reindex(s, {}).0 == s
  {
    assert !ReindexBlocked(s, {});
    var t := Reindex(s, {}).0;
    assert Reindex(s, {}).1.value == {};
    hide ReindexBlocked, Generation, Load;
    assert t.generations == s.generations && t.coverage == s.coverage && t.unavailable == s.unavailable;
    assert t.scans == s.scans && t.scanWinners == s.scanWinners;
  }

  lemma ReindexErrorStays(s: State, ds: set<Domain>, more: set<Domain>)
    requires Reindex(s, ds).1.Err? && s.genesis.Some? && ds <= more
    ensures Reindex(s, more).1 == Err(Invalid) && Reindex(s, more).0 == s
  {
    hide ReindexCoverage, ReindexRecords, Load, Generation;
    assert ReindexBlocked(s, ds);
    var d :| d in ds && (Generation(s, d) == U64_MAX || Load(s.coverage, d, Generation(s, d), 0).Err?);
    assert d in more;
  }

  // ---------------------------------------------------------------- the object

  /** Order of the domains, in which sorting and deduplication leave a list of them. */
  const DOMAINS: seq<Domain> := [Winners, Difficulty, Participation, Authorship]

  lemma EveryDomain(d: Domain)
    ensures d in DOMAINS
  {
    assert DOMAINS[0] == Winners && DOMAINS[1] == Difficulty && DOMAINS[2] == Participation && DOMAINS[3] == Authorship;
  }

  class Store {
    var genesis: Option<Hash>
    var generations: map<Domain, u64>
    var coverage: map<Domain, Coverage>
    var scans: map<string, ScanRow>
    var scanWinners: set<(string, nat)>
    var unavailable: map<(Domain, u64, u64), Marker>
    var finalized: map<nat, Hash>
    var target: Option<(nat, Hash)>
    var records: Records

    function Value(): State
      reads this
    {
      State(genesis, generations, coverage, scans, scanWinners, unavailable, finalized, target, records)
    }

    constructor ()
      ensures Value() == FreshStore()
    {
      genesis, generations, coverage, scans, scanWinners := None, map[], map[], map[], {};
      unavailable, finalized, target := map[], map[], None;
      records := Records(W.EmptyTables(), D.EmptyTables(), A.EmptyTables(), map[]);
    }

    method CommitBlock(b: BlockCommit) returns (r: Result<CommitResult>)
      modifies `records, `coverage, `finalized
      ensures (Value(), r) == S.CommitBlock(old(Value()), b)
    {
      hide AllGuarded, DuplicateGuards, AnyStale, HashConflict, BadProvenance, WriteRecords, CompleteAll;
      var duplicate := HasDuplicateGuards(b.guards);
      if duplicate || !AllGuarded(b) || b.height > U64_MAX {
        return Err(Invalid);
      }
      if genesis != Some(b.genesis) {
        return Err(NetworkIdentity);
      }
      if AnyStale(Value(), b.guards) {
        return Ok(StaleGeneration);
      }
      if HashConflict(Value(), b.height, b.hash) {
        return Err(ConflictingHistory);
      }
      if BadProvenance(b) {
        return Err(Invalid);
      }
      assert b.records.difficulty.Some? ==> b.records.difficulty.value.source == D.Block by {
        BlockSource(b);
      }
      var written := WriteBatch(records, b.records);
      if written.Err? {
        return Err(written.error);
      }
      var completed := CompleteDomains(Value(), b.completed, b.height);
      if completed.Err? {
        return Err(completed.error);
      }
      records := written.value.0;
      coverage := completed.value.0;
      finalized := InsertHash(finalized, b.height, b.hash);
      return Ok(if written.value.1 || completed.value.1 then Applied else AlreadyApplied);
    }

    method BeginScan(scan: Scan) returns (r: Result<CommitResult>)
      modifies `scans
      ensures (Value(), r) == S.BeginScan(old(Value()), scan)
    {
      if scan.id == "" {
        return Err(Invalid);
      }
      if genesis != Some(scan.genesis) {
        return Err(NetworkIdentity);
      }
      if Generation(Value(), scan.domain) != scan.expected {
        return Ok(StaleGeneration);
      }
      if scan.id in scans {
        var row := scans[scan.id];
        if row.at != scan.at || row.genesis != scan.genesis || row.generation != scan.expected
           || row.domain != scan.domain || row.finalizedHeight != scan.finalizedHeight {
          return Err(Invalid);
        }
        return Ok(AlreadyApplied);
      }
      scans := scans[scan.id := RowOf(scan)];
      return Ok(Applied);
    }

    method AppendPage(p: Page) returns (r: Result<CommitResult>)
      modifies `scanWinners, `scans
      ensures (Value(), r) == S.AppendPage(old(Value()), p)
    {
      if |p.heights| > 1000 || (p.next.Some? && p.next == p.expected) {
        return Err(Invalid);
      }
      if genesis.None? {
        return Err(NetworkIdentity);
      }
      if p.id !in scans {
        return Err(IncompleteScan);
      }
      var row := scans[p.id];
      if Some(row.genesis) != genesis {
        return Err(NetworkIdentity);
      }
      if Generation(Value(), row.domain) != row.generation {
        return Ok(StaleGeneration);
      }
      if row.finished || row.cursor != p.expected || row.finalizedHeight > U64_MAX {
        return Err(IncompleteScan);
      }
      var found := CollectHeights(scanWinners, p.id, p.heights, row.finalizedHeight);
      if found.None? {
        return Err(Invalid);
      }
      scanWinners := found.value;
      scans := scans[p.id := row.(cursor := p.next, finished := p.next.None?)];
      return Ok(Applied);
    }

    /** Discovered heights of one scan. */
    function HeightsOf(id: string): set<nat>
      reads this
    {
      set p | p in scanWinners && p.0 == id :: p.1
    }

    lemma HeightsMember(id: string, h: nat)
      ensures h in HeightsOf(id) <==> (id, h) in scanWinners
    {
      if (id, h) in scanWinners {
        assert (id, h).1 in HeightsOf(id);
      }
    }

    /** The paged pass over all discovered winners: is one in the range not complete? */
    method AnyWinnerMissing(id: string, c: Coverage, from: u64, through: u64) returns (missing: bool)
      requires WellFormed(c)
      ensures missing <==> WinnerMissing(Value(), id, c, from, through)
    {
      var all := Sorted(HeightsOf(id));
      forall h: nat ensures h in all <==> (id, h) in scanWinners { HeightsMember(id, h); }
      forall h: u64 ensures Contains(c, h, h) <==> Covered(c, h) { ContainsIsPointwise(c, h, h); }
      hide WellFormed, Covered, Contains;
      var offset := 0;
      while true
        invariant offset <= |all|
        invariant forall i :: 0 <= i < offset ==> all[i] <= U64_MAX
        invariant forall i :: 0 <= i < offset && from <= all[i] <= through ==> Covered(c, all[i])
        decreases |all| - offset
      {
        var page := all[offset..Min(offset + 512, |all|)];
        if page == [] {
          break;
        }
        for k := 0 to |page|
          invariant forall i :: 0 <= i < offset + k ==> all[i] <= U64_MAX
          invariant forall i :: 0 <= i < offset + k && from <= all[i] <= through ==> Covered(c, all[i])
        {
          var n := page[k];
          assert n == all[offset + k] && n in all && (id, n) in scanWinners;
          if n > U64_MAX || (from <= n <= through && !Contains(c, n, n)) {
            return true;
          }
        }
        offset := offset + |page|;
      }
      return false;
    }

    method CommitRange(c: RangeCompletion) returns (r: Result<CommitResult>)
      modifies `coverage
      ensures (Value(), r) == S.CommitRange(old(Value()), c)
    {
      hide WinnerMissing, WellFormed, CoverValue;
      if c.from > U64_MAX || c.through > U64_MAX || c.from > c.through {
        return Err(Invalid);
      }
      if genesis != Some(c.genesis) {
        return Err(NetworkIdentity);
      }
      if Generation(Value(), c.domain) != c.expected {
        return Ok(StaleGeneration);
      }
      if c.scanId !in scans || !scans[c.scanId].finished {
        return Err(IncompleteScan);
      }
      var row := scans[c.scanId];
      if row.genesis != c.genesis || row.domain != c.domain || row.generation != c.expected
         || row.finalizedHeight > U64_MAX || row.finalizedHeight < c.through {
        return Err(IncompleteScan);
      }
      if c.domain == Authorship {
        return Err(Invalid);
      }
      var loaded := LoadCoverage(coverage, c.domain, c.expected, 0);
      if loaded.Err? {
        return Err(loaded.error);
      }
      LoadedIsWellFormed(coverage, c.domain, c.expected, 0);
      var missing := AnyWinnerMissing(c.scanId, loaded.value, c.from, c.through);
      if missing {
        return Err(IncompleteScan);
      }
      var ledger := new Ledger(loaded.value);
      var changed := ledger.Cover(c.from, c.through);
      if changed.Err? {
        return Err(changed.error);
      }
      if changed.value {
        coverage := coverage[c.domain := ledger.Value()];
        return Ok(Applied);
      }
      return Ok(AlreadyApplied);
    }

    method SetPrunedFloor(g: Guard, floor: Option<nat>) returns (r: Result<CommitResult>)
      modifies `coverage
      ensures (Value(), r) == S.SetPrunedFloor(old(Value()), g, floor)
    {
      if genesis.None? {
        return Err(NetworkIdentity);
      }
      if Generation(Value(), g.domain) != g.expected {
        return Ok(StaleGeneration);
      }
      var loaded := LoadCoverage(coverage, g.domain, g.expected, 0);
      if loaded.Err? {
        return Err(loaded.error);
      }
      if floor.Some? && floor.value > U64_MAX {
        return Err(Invalid);
      }
      var f: Option<u64> := if floor.Some? then Some(floor.value) else None;
      coverage := coverage[g.domain := loaded.value.(prunedFloor := f)];
      return Ok(Applied);
    }

    method InitializeCoverage(d: Domain, expected: u64, start: nat) returns (r: Result<CommitResult>)
      modifies `coverage
      ensures (Value(), r) == S.InitializeCoverage(old(Value()), d, expected, start)
    {
      if genesis.None? {
        return Err(NetworkIdentity);
      }
      if Generation(Value(), d) != expected {
        return Ok(StaleGeneration);
      }
      if d in coverage {
        return Ok(AlreadyApplied);
      }
      if start > U64_MAX {
        return Err(Invalid);
      }
      coverage := coverage[d := EmptyCoverage(expected, start)];
      return Ok(Applied);
    }

    method MarkUnavailable(network: Hash, b: Absence) returns (r: Result<CommitResult>)
      modifies `unavailable, `finalized
      ensures (Value(), r) == S.MarkUnavailable(old(Value()), network, b)
    {
      hide HashConflict, Contains, WellFormed;
      if b.guard.domain != ReasonDomain(b.reason) || b.height > U64_MAX {
        return Err(Invalid);
      }
      if genesis != Some(network) {
        return Err(NetworkIdentity);
      }
      if Generation(Value(), b.guard.domain) != b.guard.expected {
        return Ok(StaleGeneration);
      }
      if HashConflict(Value(), b.height, b.hash) {
        return Err(ConflictingHistory);
      }
      var loaded := LoadCoverage(coverage, b.guard.domain, b.guard.expected, 0);
      if loaded.Err? {
        return Err(loaded.error);
      }
      if Contains(loaded.value, b.height, b.height) {
        return Ok(AlreadyApplied);
      }
      var key: (Domain, u64, u64) := (b.guard.domain, b.guard.expected, b.height);
      var known := key in unavailable;
      if !known {
        unavailable := unavailable[key := Marker(b.hash, b.enrichmentAt, CheckedSucc(b.height))];
      }
      finalized := InsertHash(finalized, b.height, b.hash);
      return Ok(if known then AlreadyApplied else Applied);
    }

    method SetTarget(height: nat, hash: Hash) returns (r: Result<CommitResult>)
      modifies `target
      ensures (Value(), r) == S.SetTarget(old(Value()), height, hash)
    {
      if genesis.None? {
        return Err(NetworkIdentity);
      }
      if target.Some? {
        if target.value.0 > U64_MAX || height > U64_MAX {
          return Err(Invalid);
        }
        if target.value.0 > height {
          return Ok(AlreadyApplied);
        }
        if target.value.0 == height {
          return if target.value.1 != hash then Err(ConflictingHistory) else Ok(AlreadyApplied);
        }
      }
      target := Some((height, hash));
      return Ok(Applied);
    }

    method Reindex(indexables: seq<Domain>) returns (r: Result<seq<Guard>>)
      modifies this
      ensures var spec := S.Reindex(old(Value()), Elements(indexables));
              && Value() == spec.0
              && (spec.1.Err? ==> r == Err(spec.1.error))
              && (spec.1.Ok? ==> r.Ok? && Elements(r.value) == spec.1.value && InOrder(r.value, |DOMAINS|))
    {
      hide S.Reindex, Elements, InOrder;
      ReindexErrorKeeps(Value(), Elements(indexables));
      var done := ReindexDomains(Value(), indexables);
      if done.Err? {
        return Err(done.error);
      }
      var w := done.value.0;
      genesis, generations, coverage, scans, scanWinners := w.genesis, w.generations, w.coverage, w.scans, w.scanWinners;
      unavailable, finalized, target, records := w.unavailable, w.finalized, w.target, w.records;
      return Ok(done.value.1);
    }

    /** `insert_difficulty_snapshot`: compare with the latest poll row, read in the same
        transaction. */
    method InsertSnapshot(d: D.Row) returns (r: Result<CommitResult>, latest: Option<D.Row>)
      modifies `records
      ensures D.IsLatest(old(records.difficulty.polls), latest)
      ensures (Value(), r) == S.InsertSnapshot(old(Value()), d, latest)
    {
      latest := D.LatestPoll(records.difficulty.polls);
      r := RecordSnapshot(d, latest);
    }

    method RecordSnapshot(d: D.Row, latest: Option<D.Row>) returns (r: Result<CommitResult>)
      modifies `records
      ensures (Value(), r) == S.InsertSnapshot(old(Value()), d, latest)
    {
      hide D.WritePoll, D.SamePollValue;
      if d.source != D.Poll {
        return Err(Invalid);
      }
      if genesis.None? {
        return Err(NetworkIdentity);
      }
      var difficulty := D.Snapshot(records.difficulty, d, latest);
      records := records.(difficulty := difficulty.value);
      return Ok(Applied);
    }

    method TryCutover() returns (r: Result<bool>)
      modifies `records
      ensures (Value(), r) == S.TryCutover(old(Value()))
    {
      hide A.TryCutover;
      if genesis.None? {
        return Err(NetworkIdentity);
      }
      var authorship, done := A.AttemptCutover(records.authorship);
      records := records.(authorship := authorship);
      return Ok(done);
    }

    method BindNetwork(network: Hash) returns (r: Result<CommitResult>)
      modifies `genesis
      ensures (Value(), r) == S.BindNetwork(old(Value()), network)
    {
      if genesis.Some? {
        return if genesis.value == network then Ok(AlreadyApplied) else Err(NetworkIdentity);
      }
      genesis := Some(network);
      return Ok(Applied);
    }

    /** Any one transaction. */
    method Perform(op: Op)
      modifies this
      ensures Value() == Step(old(Value()), op)
    {
      hide S.CommitBlock, S.BeginScan, S.AppendPage, S.CommitRange, S.SetPrunedFloor, S.InitializeCoverage,
        S.MarkUnavailable, S.SetTarget, S.Reindex, S.InsertSnapshot, S.TryCutover, S.BindNetwork;
      match op {
        case OpBind(g) => var _ := BindNetwork(g);
        case OpCommit(b) => var _ := CommitBlock(b);
        case OpBegin(scan) => var _ := BeginScan(scan);
        case OpAppend(p) => var _ := AppendPage(p);
        case OpRange(c) => var _ := CommitRange(c);
        case OpFloor(g, f) => var _ := SetPrunedFloor(g, f);
        case OpInitialize(d, e, n) => var _ := InitializeCoverage(d, e, n);
        case OpMark(g, b) => var _ := MarkUnavailable(g, b);
        case OpTarget(n, h) => var _ := SetTarget(n, h);
        case OpReindex(ds) =>
          var list := ListOf(ds);
          var _ := Reindex(list);
        case OpSnapshot(d, latest) => var _ := RecordSnapshot(d, latest);
        case OpCutover => var _ := TryCutover();
      }
    }

    method Run(ops: seq<Op>)
      modifies this
      ensures Value() == After(old(Value()), ops)
    {
      hide Step;
      for k := 0 to |ops|
        invariant Value() == After(old(Value()), ops[..k])
      {
        assert ops[..k + 1][..k] == ops[..k];
        Perform(ops[k]);
      }
      assert ops[..|ops|] == ops;
    }

    // -------------------------------------------------------------- reads

    /** The most recent enumeration of a domain generation: greatest pinned height, then
        greatest identifier. */
    method ActiveScan(d: Domain, gen: u64) returns (r: Option<Scan>)
      ensures r.None? <==> ScansOf(Value(), d, gen) == {}
      ensures r.Some? ==> IsActive(Value(), d, gen, r.value.id) && scans[r.value.id].(cursor := None, finished := false) == RowOf(r.value)
    {
      var rest := ScansOf(Value(), d, gen);
      ghost var all := rest;
      var best: Option<string> := None;
      hide NotLater;
      while rest != {}
        invariant rest <= all
        invariant best.None? ==> rest == all
        invariant best.Some? ==> best.value in all && forall id :: id in all && id !in rest ==> NotLater(Value(), id, best.value)
        decreases |rest|
      {
        var id :| id in rest;
        assert id in scans;
        if best.None? || Later(Value(), best.value, id) {
          forall other | best.Some? && other in all && other !in rest ensures NotLater(Value(), other, id) {
            LaterTransitive(Value(), other, best.value, id);
          }
          best := Some(id);
        } else {
          LaterTotal(Value(), best.value, id);
        }
        LaterTotal(Value(), id, id);
        rest := rest - {id};
      }
      if best.None? {
        return None;
      }
      var row := scans[best.value];
      return Some(Scan(best.value, row.genesis, row.at, row.finalizedHeight, row.domain, row.generation));
    }

    /** Keyset page over discovered winner heights. */
    method ScanWinners(id: string, after: Option<nat>, limit: nat) returns (rows: seq<nat>)
      ensures FirstAbove(HeightsOf(id), after, Min(limit, 1000), rows)
    {
      rows := TakeFirst(HeightsOf(id), after, Min(limit, 1000));
    }

    // The three queries of `retryable_range`, over the stored heights and successors.

    method IsUnavailable(d: Domain, gen: u64, n: u64) returns (r: bool)
      requires MarkInv(Value())
      ensures r <==> n in Marked(Value(), d, gen)
    {
      StoredRowsAreRows(Value(), d, gen);
      r := Retry.IsUnavailable(StoredRows(Value(), d, gen), Marked(Value(), d, gen), n);
    }

    method NextRetryStart(d: Domain, gen: u64, from: u64, through: u64) returns (r: Option<u64>)
      requires MarkInv(Value()) && from <= through
      ensures r.Some? ==> from < r.value <= through && r.value !in Marked(Value(), d, gen)
      ensures from in Marked(Value(), d, gen) ==> (r.None? <==> Retry.AllMarked(Marked(Value(), d, gen), from, through))
      ensures from in Marked(Value(), d, gen) && r.Some? ==> forall h :: from <= h < r.value ==> h in Marked(Value(), d, gen)
    {
      StoredRowsAreRows(Value(), d, gen);
      r := Retry.NextStart(StoredRows(Value(), d, gen), Marked(Value(), d, gen), from, through);
    }

    method RetryEnd(d: Domain, gen: u64, start: u64, through: u64) returns (end: u64)
      requires MarkInv(Value()) && start <= through
      ensures start <= end <= through && (end == through || end + 1 in Marked(Value(), d, gen))
      ensures forall h :: start < h <= end ==> h !in Marked(Value(), d, gen)
    {
      StoredRowsAreRows(Value(), d, gen);
      end := Retry.EndOf(StoredRows(Value(), d, gen), Marked(Value(), d, gen), start, through);
    }
  }

  /** The loop over the heights of a page; one above the pinned height spoils all. */
  method CollectHeights(winners: set<(string, nat)>, id: string, heights: seq<nat>, bound: nat)
    returns (r: Option<set<(string, nat)>>)
    ensures r.None? <==> exists i :: 0 <= i < |heights| && heights[i] > bound
    ensures r.Some? ==> r.value == winners + (set h | h in heights :: (id, h))
  {
    var found := winners;
    for i := 0 to |heights|
      invariant found == winners + (set h | h in heights[..i] :: (id, h))
      invariant forall j :: 0 <= j < i ==> heights[j] <= bound
    {
      if heights[i] > bound {
        return None;
      }
      found := found + {(id, heights[i])};
      assert heights[..i + 1] == heights[..i] + [heights[i]];
      assert (set h | h in heights[..i + 1] :: (id, h)) == (set h | h in heights[..i] :: (id, h)) + {(id, heights[i])};
    }
    assert heights[..|heights|] == heights;
    return Some(found);
  }

  // ---------------------------------------------------------------- order of scans

  function ScansOf(s: State, d: Domain, gen: u64): set<string> {
    set id | id in s.scans && s.scans[id].domain == d && s.scans[id].generation == gen
  }

  /** The second scan sorts before the first in descending order of height and identifier. */
  predicate Later(s: State, a: string, b: string)
    requires a in s.scans && b in s.scans
  {
    s.scans[a].finalizedHeight < s.scans[b].finalizedHeight
    || (s.scans[a].finalizedHeight == s.scans[b].finalizedHeight && Decimal.TextLess(a, b))
  }

  predicate NotLater(s: State, a: string, b: string) {
    a in s.scans && b in s.scans && (a == b || Later(s, a, b))
  }

  lemma LaterTotal(s: State, a: string, b: string)
    requires a in s.scans && b in s.scans
    ensures NotLater(s, a, a) && (!Later(s, a, b) ==> NotLater(s, b, a))
    ensures NotLater(s, a, b) && NotLater(s, b, a) ==> a == b
  {
    Decimal.TextOrderIsTotal(a, b);
  }

  lemma LaterTransitive(s: State, a: string, b: string, c: string)
    requires NotLater(s, a, b) && c in s.scans && Later(s, b, c)
    ensures NotLater(s, a, c)
  {
    if a != b && s.scans[a].finalizedHeight == s.scans[c].finalizedHeight {
      Decimal.TextOrderIsTransitive(a, b, c);
    }
  }

  /** The scan that `active_scan` returns. */
  ghost predicate IsActive(s: State, d: Domain, gen: u64, id: string) {
    id in ScansOf(s, d, gen) && forall other :: other in ScansOf(s, d, gen) ==> NotLater(s, other, id)
  }

  lemma ActiveIsUnique(s: State, d: Domain, gen: u64, a: string, b: string)
    requires IsActive(s, d, gen, a) && IsActive(s, d, gen, b)
    ensures a == b
  {
    LaterTotal(s, a, b);
  }

  // ---------------------------------------------------------------- absence markers as rows

  function SuccessorText(next: Option<u64>): Option<string> {
    if next.None? then None else Some(Decimal.ToText(next.value))
  }

  lemma MarkerTextsDiffer()
    ensures forall k: (Domain, u64, u64), l: (Domain, u64, u64) ::
              k.0 == l.0 && k.1 == l.1 && Decimal.ToText(k.2) == Decimal.ToText(l.2) ==> k == l
  {
    forall k: (Domain, u64, u64), l: (Domain, u64, u64) |
      k.0 == l.0 && k.1 == l.1 && Decimal.ToText(k.2) == Decimal.ToText(l.2) ensures k == l {
      Decimal.ToTextInjective(k.2, l.2);
    }
  }

  /** The `height` and `next_height` columns as they are stored. */
  function StoredRows(s: State, d: Domain, gen: u64): Retry.Rows {
    MarkerTextsDiffer();
    map k | k in s.unavailable && k.0 == d && k.1 == gen :: Decimal.ToText(k.2) := SuccessorText(s.unavailable[k].next)
  }

  /** Markers built by `mark_unavailable` hold exactly the successors the search relies on. */
  lemma StoredRowsAreRows(s: State, d: Domain, gen: u64)
    requires MarkInv(s)
    ensures StoredRows(s, d, gen) == Retry.RowsOf(Marked(s, d, gen))
  {
    var rows, marked := StoredRows(s, d, gen), Marked(s, d, gen);
    MarkerTextsDiffer();
    hide Retry.RowsOf, Decimal.ToText;
    forall t | t in rows
      ensures t in Retry.RowsOf(marked) && Retry.RowsOf(marked)[t] == rows[t]
    {
      var k: (Domain, u64, u64) :| k in s.unavailable && k.0 == d && k.1 == gen && t == Decimal.ToText(k.2);
      assert k.2 in marked;
      Retry.RowsMembership(marked, k.2);
      assert s.unavailable[k].next == CheckedSucc(k.2);
    }
    forall t | t in Retry.RowsOf(marked) ensures t in rows {
      var n := Retry.RowText(marked, t);
      MarkedMember(s, d, gen, n);
      var k: (Domain, u64, u64) := (d, gen, n);
      assert k in s.unavailable && t == Decimal.ToText(k.2);
    }
  }

  /** Heights with an absence marker of this domain generation. */
  function Marked(s: State, d: Domain, gen: u64): set<u64> {
    set k | k in s.unavailable && k.0 == d && k.1 == gen :: k.2
  }

  lemma MarkedMember(s: State, d: Domain, gen: u64, h: u64)
    ensures h in Marked(s, d, gen) <==> (d, gen, h) in s.unavailable
  {
    var key: (Domain, u64, u64) := (d, gen, h);
    if key in s.unavailable {
      assert key.2 in Marked(s, d, gen);
    }
  }

  /** Stored winner heights fit the program's integers. */
  ghost predicate WinnersFit(s: State) {
    forall p :: p in s.scanWinners ==> p.1 <= U64_MAX
  }

  lemma StepKeepsFit(s: State, op: Op)
    requires WinnersFit(s)
    ensures WinnersFit(Step(s, op))
  {
    if op.OpAppend? {
      AppendKeepsFit(s, op.page);
    } else if op.OpBegin? {
    } else if op.OpReindex? {
      hide ReindexBlocked, ReindexCoverage, ReindexRecords, Generation;
    } else {
      OthersKeepScans(s, op);
      hide Step;
    }
  }

  lemma AppendKeepsFit(s: State, p: Page)
    requires WinnersFit(s)
    ensures WinnersFit(AppendPage(s, p).0)
  {
    var t := AppendPage(s, p).0;
    if t != s {
      AppendShape(s, p);
      AppendBound(s, p);
      hide AppendPage;
      forall q | q in t.scanWinners ensures q.1 <= U64_MAX {
        if q !in s.scanWinners {
          var h :| h in p.heights && q == (p.id, h);
        }
      }
    }
  }

  lemma AppendBound(s: State, p: Page)
    requires AppendPage(s, p).0 != s
    ensures p.id in s.scans && s.scans[p.id].finalizedHeight <= U64_MAX
  {
  }

  method ListOf(ds: set<Domain>) returns (list: seq<Domain>)
    ensures Elements(list) == ds
  {
    list := [];
    for k := 0 to |DOMAINS|
      invariant forall d :: d in list <==> d in ds && d in DOMAINS[..k]
    {
      if DOMAINS[k] in ds {
        list := list + [DOMAINS[k]];
      }
    }
    forall d | d in ds ensures d in list { EveryDomain(d); }
  }

  lemma ReindexErrorKeeps(s: State, ds: set<Domain>)
    ensures Reindex(s, ds).1.Err? ==> Reindex(s, ds).0 == s
  {
    hide ReindexBlocked, ReindexCoverage, ReindexRecords, Generation;
  }

  /** The requested domains among the first k. */
  ghost function Picked(indexables: seq<Domain>, k: nat): set<Domain>
    requires k <= |DOMAINS|
  {
    set d | d in indexables && d in DOMAINS[..k]
  }

  lemma PickedNext(indexables: seq<Domain>, k: nat)
    requires k < |DOMAINS|
    ensures var d := DOMAINS[k];
            && d !in Picked(indexables, k)
            && Picked(indexables, k + 1) == (if d in indexables then Picked(indexables, k) + {d} else Picked(indexables, k))
  {
    assert DOMAINS[..k + 1] == DOMAINS[..k] + [DOMAINS[k]];
    assert DOMAINS[k] !in DOMAINS[..k];
  }

  lemma PickedBounds(indexables: seq<Domain>)
    ensures Picked(indexables, 0) == {} && Picked(indexables, |DOMAINS|) == Elements(indexables)
    ensures forall k :: 0 <= k <= |DOMAINS| ==> Picked(indexables, k) <= Elements(indexables)
  {
    forall d: Domain ensures d in DOMAINS { EveryDomain(d); }
    assert DOMAINS[..|DOMAINS|] == DOMAINS;
  }

  /** Move one domain to its next generation, if it can be. */
  method ReindexOne(w: State, d: Domain) returns (r: Result<(State, Guard)>)
    ensures r.Ok? <==> CanReindex(w, d)
    ensures r.Ok? ==> r.value == (ReindexStep(w, d, Generation(w, d) + 1, OldStart(w, d)), Guard(d, Generation(w, d) + 1))
    ensures r.Err? ==> r.error == Invalid
  {
    hide Load, ReindexStep;
    var loaded := LoadCoverage(w.coverage, d, Generation(w, d), 0);
    if Generation(w, d) == U64_MAX || loaded.Err? {
      return Err(Invalid);
    }
    var next := Generation(w, d) + 1;
    return Ok((ReindexStep(w, d, next, OldStart(w, d)), Guard(d, next)));
  }

  /** A domain that can move to its next generation. */
  ghost predicate CanReindex(w: State, d: Domain) {
    Generation(w, d) != U64_MAX && Load(w.coverage, d, Generation(w, d), 0).Ok?
  }

  /** The first k domains are reindexed as far as they were asked for. */
  ghost predicate Progress(s: State, indexables: seq<Domain>, k: nat, w: State, result: seq<Guard>)
    requires k <= |DOMAINS|
  {
    var spec := Reindex(s, Picked(indexables, k));
    spec.1.Ok? && w == spec.0 && Elements(result) == spec.1.value && InOrder(result, k)
  }

  /** Guards in the order of their domains, each once, for the first k domains. */
  ghost predicate InOrder(guards: seq<Guard>, k: nat) {
    && (forall i :: 0 <= i < |guards| ==> Rank(guards[i].domain) < k)
    && (forall i, j :: 0 <= i < j < |guards| ==> Rank(guards[i].domain) < Rank(guards[j].domain))
  }

  function Rank(d: Domain): nat {
    match d
    case Winners => 0
    case Difficulty => 1
    case Participation => 2
    case Authorship => 3
  }

  lemma RankOfDomain(k: nat)
    requires k < |DOMAINS|
    ensures Rank(DOMAINS[k]) == k
  {
  }

  lemma ProgressBegins(s: State, indexables: seq<Domain>)
    requires s.genesis.Some?
    ensures Progress(s, indexables, 0, s, [])
  {
    PickedBounds(indexables);
    ReindexNothing(s);
    NoElements();
    hide Reindex;
  }

  lemma ProgressSkips(s: State, indexables: seq<Domain>, k: nat, w: State, result: seq<Guard>)
    requires k < |DOMAINS| && Progress(s, indexables, k, w, result) && DOMAINS[k] !in indexables
    ensures Progress(s, indexables, k + 1, w, result)
  {
    PickedNext(indexables, k);
    hide Reindex, Picked, Elements;
  }

  lemma ProgressMoves(s: State, indexables: seq<Domain>, k: nat, w: State, result: seq<Guard>)
    requires k < |DOMAINS| && Progress(s, indexables, k, w, result) && DOMAINS[k] in indexables
    requires CanReindex(w, DOMAINS[k])
    ensures var d := DOMAINS[k];
            Progress(s, indexables, k + 1, ReindexStep(w, d, Generation(w, d) + 1, OldStart(w, d)),
                     result + [Guard(d, Generation(w, d) + 1)])
  {
    var d := DOMAINS[k];
    PickedNext(indexables, k);
    ReindexExtends(s, Picked(indexables, k), d);
    ReindexGuards(s, Picked(indexables, k), d);
    ElementsPush(result, Guard(d, Generation(w, d) + 1));
    InOrderPush(result, k, Generation(w, d) + 1);
    hide Reindex, Picked, Elements, Generation, Load, ReindexStep, OldStart, InOrder;
  }

  lemma InOrderPush(result: seq<Guard>, k: nat, gen: u64)
    requires k < |DOMAINS| && InOrder(result, k)
    ensures InOrder(result + [Guard(DOMAINS[k], gen)], k + 1)
  {
    RankOfDomain(k);
    hide Rank;
  }

  lemma ProgressFails(s: State, indexables: seq<Domain>, k: nat, w: State, result: seq<Guard>)
    requires k < |DOMAINS| && Progress(s, indexables, k, w, result) && DOMAINS[k] in indexables
    requires !CanReindex(w, DOMAINS[k])
    ensures Reindex(s, Elements(indexables)).1 == Err(Invalid)
  {
    PickedNext(indexables, k);
    PickedBounds(indexables);
    ReindexExtends(s, Picked(indexables, k), DOMAINS[k]);
    assert s.genesis.Some?;
    hide Reindex, Picked, Elements, Generation, Load;
    ReindexErrorStays(s, Picked(indexables, k + 1), Elements(indexables));
  }

  lemma ProgressEnds(s: State, indexables: seq<Domain>, w: State, result: seq<Guard>)
    requires Progress(s, indexables, |DOMAINS|, w, result)
    ensures var spec := Reindex(s, Elements(indexables)); spec.1.Ok? && w == spec.0 && Elements(result) == spec.1.value
    ensures InOrder(result, |DOMAINS|)
  {
    PickedBounds(indexables);
  }

  /** Domains are taken in order, each at most once; an error part-way changes nothing. */
  method ReindexDomains(s: State, indexables: seq<Domain>) returns (r: Result<(State, seq<Guard>)>)
    ensures var spec := Reindex(s, Elements(indexables));
            && (spec.1.Err? ==> r == Err(spec.1.error))
            && (spec.1.Ok? ==> r.Ok? && r.value.0 == spec.0 && Elements(r.value.1) == spec.1.value
                               && InOrder(r.value.1, |DOMAINS|))
  {
    if s.genesis.None? {
      return Err(NetworkIdentity);
    }
    var w := s;
    var result: seq<Guard> := [];
    ProgressBegins(s, indexables);
    hide Reindex, Progress, CanReindex, ReindexStep, Elements, OldStart, Generation, InOrder;
    for k := 0 to |DOMAINS|
      invariant Progress(s, indexables, k, w, result)
    {
      var d := DOMAINS[k];
      if d in indexables {
        var one := ReindexOne(w, d);
        if one.Err? {
          ProgressFails(s, indexables, k, w, result);
          return Err(Invalid);
        }
        ProgressMoves(s, indexables, k, w, result);
        w := one.value.0;
        result := result + [one.value.1];
      } else {
        ProgressSkips(s, indexables, k, w, result);
      }
    }
    ProgressEnds(s, indexables, w, result);
    return Ok((w, result));
  }

  lemma NoElements()
    ensures Elements<Guard>([]) == {}
  {
  }

  lemma ReindexGuards(s: State, ds: set<Domain>, d: Domain)
    requires Reindex(s, ds).1.Ok? && Reindex(s, ds + {d}).1.Ok?
    ensures Reindex(s, ds + {d}).1.value == Reindex(s, ds).1.value + {Guard(d, Generation(s, d) + 1)}
  {
    hide ReindexCoverage, ReindexRecords, Load, Generation;
  }

  lemma BlockSource(b: BlockCommit)
    requires !BadProvenance(b)
    ensures b.records.difficulty.Some? ==> b.records.difficulty.value.source == D.Block
  {
  }

  lemma LoadedIsWellFormed(coverage: map<Domain, Coverage>, d: Domain, gen: u64, start: u64)
    requires Load(coverage, d, gen, start).Ok?
    ensures WellFormed(Load(coverage, d, gen, start).value)
  {
  }
}
