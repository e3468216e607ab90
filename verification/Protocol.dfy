/** What every transaction keeps, and what therefore holds over whole runs: fencing by
    generation, immutability of finalized identity, frozen scans and growing coverage. */
module Protocol {
  import opened Prelude
  import opened CoverageAlgebra
  import opened StoreModel
  import W = WinnerTables
  import D = DifficultyTables
  import A = AuthorshipTables
  import P = ParticipationTables

  // ---------------------------------------------------------------- invariant

  /** Every stored coverage would be accepted when it is read back. */
  ghost predicate CoverageInv(s: State) {
    forall d :: d in s.coverage ==> WellFormed(s.coverage[d]) && s.coverage[d].gen == Generation(s, d)
  }

  /** Scan rows belong to the current generation; winners belong to a scan and its bound. */
  ghost predicate ScanInv(s: State) {
    && (forall id :: id in s.scans ==>
          s.scans[id].generation == Generation(s, s.scans[id].domain) && s.genesis == Some(s.scans[id].genesis))
    && (forall p :: p in s.scanWinners ==> p.0 in s.scans && p.1 <= s.scans[p.0].finalizedHeight)
  }

  /** Absence markers belong to the current generation and carry their successor. */
  ghost predicate MarkInv(s: State) {
    forall k :: k in s.unavailable ==> k.1 == Generation(s, k.0) && s.unavailable[k].next == CheckedSucc(k.2)
  }

  /** Every stored winner row agrees with the finalized hash of its height. */
  ghost predicate IdentityInv(s: State) {
    forall h :: h in s.records.winners.blocks ==>
      var row := s.records.winners.blocks[h];
      row.number in s.finalized && s.finalized[row.number] == row.substrateHash
  }

  ghost predicate Inv(s: State) {
    CoverageInv(s) && ScanInv(s) && MarkInv(s) && IdentityInv(s)
  }

  lemma ScanFrame(s: State, t: State)
    requires ScanInv(s) && t.scans == s.scans && t.scanWinners == s.scanWinners
    requires t.generations == s.generations && t.genesis == s.genesis
    ensures ScanInv(t)
  {
  }

  lemma MarkFrame(s: State, t: State)
    requires MarkInv(s) && t.unavailable == s.unavailable && t.generations == s.generations
    ensures MarkInv(t)
  {
  }

  lemma CoverageFrame(s: State, t: State)
    requires CoverageInv(s) && t.coverage == s.coverage && t.generations == s.generations
    ensures CoverageInv(t)
  {
    hide WellFormed;
  }

  lemma IdentityFrame(s: State, t: State)
    requires IdentityInv(s) && t.records.winners == s.records.winners
    requires forall n :: n in s.finalized ==> n in t.finalized && t.finalized[n] == s.finalized[n]
    ensures IdentityInv(t)
  {
  }

  lemma FreshInv()
    ensures Inv(FreshStore())
  {
  }

  // ---------------------------------------------------------------- completing domains

  ghost predicate CoveredIn(m: map<Domain, Coverage>, d: Domain, h: int) {
    d in m && Covered(m[d], h)
  }

  /** `after` is `before` with the domains also complete at `n`. Coverage that did not exist
      starts at the height itself for authorship and at zero otherwise. */
  ghost predicate Completed(s: State, before: map<Domain, Coverage>, after: map<Domain, Coverage>, ds: set<Domain>, n: u64) {
    && after.Keys == before.Keys + ds
    && (forall d :: d in after ==> WellFormed(after[d]) && after[d].gen == Generation(s, d))
    && (forall d :: d in before ==> after[d].start == before[d].start && after[d].prunedFloor == before[d].prunedFloor)
    && (forall d :: d in after && d !in before ==>
          after[d].start == (if d == Authorship then n else 0) && after[d].prunedFloor.None?)
    && (forall d, h :: CoveredIn(after, d, h) <==> CoveredIn(before, d, h) || (d in ds && h == n))
  }

  lemma PutCovered(s: State, m: map<Domain, Coverage>, d: Domain, c: Coverage, n: u64)
    requires forall e :: e in m ==> WellFormed(m[e]) && m[e].gen == Generation(s, e)
    requires WellFormed(c) && c.gen == Generation(s, d)
    requires d in m ==> c.start == m[d].start && c.prunedFloor == m[d].prunedFloor
    requires d !in m ==> c.start == (if d == Authorship then n else 0) && c.prunedFloor.None?
    requires forall h :: Covered(c, h) <==> CoveredIn(m, d, h) || h == n
    ensures Completed(s, m, m[d := c], {d}, n)
  {
    hide WellFormed, Covered, Generation;
    forall e, h ensures CoveredIn(m[d := c], e, h) <==> CoveredIn(m, e, h) || (e in {d} && h == n) {
    }
  }

  lemma NothingToComplete(s: State, m: map<Domain, Coverage>, d: Domain, n: u64)
    requires forall e :: e in m ==> WellFormed(m[e]) && m[e].gen == Generation(s, e)
    requires CoveredIn(m, d, n)
    ensures Completed(s, m, m, {d}, n)
  {
    hide WellFormed, Covered, Generation;
  }

  lemma CompleteOne(s: State, m: map<Domain, Coverage>, d: Domain, n: u64)
    requires forall e :: e in m ==> WellFormed(m[e]) && m[e].gen == Generation(s, e)
    requires Complete(m, d, Generation(s, d), n).Ok?
    ensures var r := Complete(m, d, Generation(s, d), n).value;
            Completed(s, m, r.0, {d}, n) && (r.1 <==> !CoveredIn(m, d, n)) && (!r.1 ==> r.0 == m)
  {
    hide Generation;
    var c := Load(m, d, Generation(s, d), FirstStart(d, n)).value;
    CoverIsUnion(c, n, n);
    assert forall h :: Covered(c, h) <==> CoveredIn(m, d, h);
    var r := CoverValue(c, n, n).value;
    assert r.1 <==> !Covered(c, n);
    hide Completed;
    if r.1 {
      PutCovered(s, m, d, r.0, n);
    } else {
      NothingToComplete(s, m, d, n);
    }
  }

  lemma CompletedNone(s: State, n: u64)
    requires CoverageInv(s)
    ensures Completed(s, s.coverage, s.coverage, {}, n)
  {
    hide WellFormed, CoveredIn, Generation;
  }

  lemma CompletedValid(s: State, before: map<Domain, Coverage>, after: map<Domain, Coverage>, ds: set<Domain>, n: u64)
    requires Completed(s, before, after, ds, n)
    ensures forall d :: d in after ==> WellFormed(after[d]) && after[d].gen == Generation(s, d)
  {
    hide WellFormed, CoveredIn, Generation;
  }

  lemma CompletedCompose(s: State, m: map<Domain, Coverage>, m1: map<Domain, Coverage>, m2: map<Domain, Coverage>,
                         ds: set<Domain>, d: Domain, n: u64)
    requires Completed(s, m, m1, ds, n) && Completed(s, m1, m2, {d}, n)
    ensures Completed(s, m, m2, ds + {d}, n)
  {
    hide WellFormed, Covered;
    forall e, h ensures CoveredIn(m2, e, h) <==> CoveredIn(m, e, h) || (e in ds + {d} && h == n) {
      assert CoveredIn(m2, e, h) <==> CoveredIn(m1, e, h) || (e == d && h == n);
    }
  }

  lemma {:induction false} CompleteAllSpec(s: State, ds: seq<Domain>, n: u64)
    requires CoverageInv(s) && CompleteAll(s, ds, n).Ok?
    ensures Completed(s, s.coverage, CompleteAll(s, ds, n).value.0, (set d | d in ds), n)
  {
    hide WellFormed, Complete, Generation, Completed;
    if ds == [] {
      CompletedNone(s, n);
      assert (set d | d in ds) == {};
    } else {
      var init, d := ds[..|ds| - 1], ds[|ds| - 1];
      CompleteAllSpec(s, init, n);
      var m := CompleteAll(s, init, n).value.0;
      CompletedValid(s, s.coverage, m, (set e | e in init), n);
      CompleteOne(s, m, d, n);
      CompletedCompose(s, s.coverage, m, CompleteAll(s, ds, n).value.0, (set e | e in init), d, n);
      assert (set e | e in ds) == (set e | e in init) + {d};
    }
  }

  /** A commit changes coverage exactly when some completed domain lacked the height. */
  lemma {:induction false} CompleteAllChanges(s: State, ds: seq<Domain>, n: u64)
    requires CoverageInv(s) && CompleteAll(s, ds, n).Ok?
    ensures CompleteAll(s, ds, n).value.1 <==> exists d :: d in ds && !CoveredIn(s.coverage, d, n)
    ensures !CompleteAll(s, ds, n).value.1 ==> CompleteAll(s, ds, n).value.0 == s.coverage
  {
    if ds != [] {
      var init, d := ds[..|ds| - 1], ds[|ds| - 1];
      CompleteAllSpec(s, init, n);
      CompleteAllChanges(s, init, n);
      var m := CompleteAll(s, init, n).value.0;
      CompleteOne(s, m, d, n);
      hide WellFormed, CoveredIn, Complete, Generation;
      assert forall e :: e in ds <==> e in init || e == d;
      assert CoveredIn(m, d, n) <==> CoveredIn(s.coverage, d, n) || d in init;
    }
  }

  // ---------------------------------------------------------------- every step keeps the invariant

  /** What a commit that changes anything can change. */
  lemma CommitShape(s: State, b: BlockCommit)
    requires CommitBlock(s, b).0 != s
    ensures b.height <= U64_MAX && CompleteAll(s, b.completed, b.height).Ok?
    ensures !HashConflict(s, b.height, b.hash) && !BadProvenance(b)
    ensures WriteRecords(s.records, b.records).Ok?
    ensures CommitBlock(s, b).0 ==
            s.(records := WriteRecords(s.records, b.records).value.0,
               coverage := CompleteAll(s, b.completed, b.height).value.0,
               finalized := InsertHash(s.finalized, b.height, b.hash))
  {
    hide CompleteAll, HashConflict, AllGuarded, DuplicateGuards, AnyStale, WriteRecords;
  }

  lemma WinnersWritten(t: Records, r: BlockRecords)
    requires r.difficulty.Some? ==> r.difficulty.value.source == D.Block
    requires WriteRecords(t, r).Ok?
    ensures WriteRecords(t, r).value.0.winners ==
            if r.winner.Some? then W.Write(t.winners, r.winner.value).0 else t.winners
  {
    hide W.Write, D.WriteBlock, A.Commit, P.WriteAll;
  }

  lemma CommitKeepsInv(s: State, b: BlockCommit)
    requires Inv(s)
    ensures Inv(CommitBlock(s, b).0)
  {
    var t := CommitBlock(s, b).0;
    if t != s {
      CommitShape(s, b);
      hide CommitBlock;
      CommitKeepsIdentityInv(s, b, t);
      ScanFrame(s, t);
      MarkFrame(s, t);
      CompleteAllSpec(s, b.completed, b.height);
      hide CompleteAll, HashConflict, BadProvenance, IdentityInv, ScanInv, MarkInv, WellFormed, WriteRecords;
      assert forall d :: Generation(t, d) == Generation(s, d);
      assert CoverageInv(t);
    }
  }

  lemma CommitKeepsIdentityInv(s: State, b: BlockCommit, t: State)
    requires IdentityInv(s) && !HashConflict(s, b.height, b.hash) && !BadProvenance(b)
    requires WriteRecords(s.records, b.records).Ok?
    requires t.records == WriteRecords(s.records, b.records).value.0
    requires t.finalized == InsertHash(s.finalized, b.height, b.hash)
    ensures IdentityInv(t)
  {
    WinnersWritten(s.records, b.records);
    hide WriteRecords;
    if b.records.winner.Some? {
      CommitKeepsIdentity(s, b, b.records.winner.value);
    } else {
      IdentityFrame(s, t);
    }
  }

  lemma CommitKeepsIdentity(s: State, b: BlockCommit, w: W.BlockRecord)
    requires IdentityInv(s) && b.records.winner == Some(w)
    requires !HashConflict(s, b.height, b.hash) && !BadProvenance(b)
    ensures var blocks := W.Write(s.records.winners, w).0.blocks;
            var known := InsertHash(s.finalized, b.height, b.hash);
            forall h :: h in blocks ==> blocks[h].number in known && known[blocks[h].number] == blocks[h].substrateHash
  {
    var blocks := W.Write(s.records.winners, w).0.blocks;
    var known := InsertHash(s.finalized, b.height, b.hash);
    forall h | h in blocks ensures blocks[h].number in known && known[blocks[h].number] == blocks[h].substrateHash {
      W.WriteIdentity(s.records.winners, w, h);
    }
  }

  lemma AppendShape(s: State, p: Page)
    requires AppendPage(s, p).0 != s
    ensures p.id in s.scans && !s.scans[p.id].finished && s.scans[p.id].cursor == p.expected
    ensures forall i :: 0 <= i < |p.heights| ==> p.heights[i] <= s.scans[p.id].finalizedHeight
    ensures AppendPage(s, p).0 ==
            s.(scanWinners := s.scanWinners + (set h | h in p.heights :: (p.id, h)),
               scans := s.scans[p.id := s.scans[p.id].(cursor := p.next, finished := p.next.None?)])
  {
  }

  lemma AppendKeepsInv(s: State, p: Page)
    requires Inv(s)
    ensures Inv(AppendPage(s, p).0)
  {
    var t := AppendPage(s, p).0;
    if t != s {
      AppendShape(s, p);
      hide AppendPage;
      MarkFrame(s, t);
      CoverageFrame(s, t);
      IdentityFrame(s, t);
      hide MarkInv, CoverageInv, IdentityInv;
      assert forall d :: Generation(t, d) == Generation(s, d);
      forall q | q in t.scanWinners ensures q.0 in t.scans && q.1 <= t.scans[q.0].finalizedHeight {
        if q !in s.scanWinners {
          var h :| h in p.heights && q == (p.id, h);
        }
      }
    }
  }

  /** Replacing one domain's coverage by a valid one keeps the invariant. */
  lemma CoverageStepKeepsInv(s: State, d: Domain, c: Coverage)
    requires Inv(s) && WellFormed(c) && c.gen == Generation(s, d)
    ensures Inv(s.(coverage := s.coverage[d := c]))
  {
    var t := s.(coverage := s.coverage[d := c]);
    ScanFrame(s, t);
    MarkFrame(s, t);
    IdentityFrame(s, t);
    hide WellFormed, ScanInv, MarkInv, IdentityInv;
    assert forall e :: Generation(t, e) == Generation(s, e);
  }

  lemma RangeKeepsInv(s: State, r: RangeCompletion)
    requires Inv(s)
    ensures Inv(CommitRange(s, r).0)
  {
    var t := CommitRange(s, r).0;
    if t != s {
      CoverIsUnion(Load(s.coverage, r.domain, r.expected, 0).value, r.from, r.through);
      CoverageStepKeepsInv(s, r.domain, t.coverage[r.domain]);
    }
  }

  lemma FloorKeepsInv(s: State, g: Guard, floor: Option<nat>)
    requires Inv(s)
    ensures Inv(SetPrunedFloor(s, g, floor).0)
  {
    var t := SetPrunedFloor(s, g, floor).0;
    if t != s {
      CoverageStepKeepsInv(s, g.domain, t.coverage[g.domain]);
    }
  }

  lemma InitializeKeepsInv(s: State, d: Domain, e: u64, n: nat)
    requires Inv(s)
    ensures Inv(InitializeCoverage(s, d, e, n).0)
  {
    var t := InitializeCoverage(s, d, e, n).0;
    if t != s {
      CoverageStepKeepsInv(s, d, t.coverage[d]);
    }
  }

  /** What an absence call that changes anything can change. */
  lemma MarkShape(s: State, g: Hash, b: Absence)
    requires MarkUnavailable(s, g, b).0 != s
    ensures b.height <= U64_MAX && Generation(s, b.guard.domain) == b.guard.expected
    ensures var key: (Domain, u64, u64) := (b.guard.domain, b.guard.expected, b.height);
            var marker := Marker(b.hash, b.enrichmentAt, CheckedSucc(b.height));
            MarkUnavailable(s, g, b).0 ==
            s.(unavailable := if key in s.unavailable then s.unavailable else s.unavailable[key := marker],
               finalized := InsertHash(s.finalized, b.height, b.hash))
  {
    hide WellFormed, Contains, HashConflict, Load;
  }

  lemma MarkKeepsInv(s: State, g: Hash, b: Absence)
    requires Inv(s)
    ensures Inv(MarkUnavailable(s, g, b).0)
  {
    var t := MarkUnavailable(s, g, b).0;
    if t != s {
      MarkShape(s, g, b);
      hide MarkUnavailable;
      ScanFrame(s, t);
      CoverageFrame(s, t);
      IdentityFrame(s, t);
      hide ScanInv, CoverageInv, IdentityInv;
      assert forall d :: Generation(t, d) == Generation(s, d);
    }
  }

  lemma BeginShape(s: State, scan: Scan)
    requires BeginScan(s, scan).0 != s
    ensures BeginScan(s, scan).0 == s.(scans := s.scans[scan.id := RowOf(scan)])
    ensures scan.id !in s.scans && s.genesis == Some(scan.genesis) && Generation(s, scan.domain) == scan.expected
  {
  }

  lemma BeginKeepsInv(s: State, scan: Scan)
    requires Inv(s)
    ensures Inv(BeginScan(s, scan).0)
  {
    var t := BeginScan(s, scan).0;
    if t != s {
      BeginShape(s, scan);
      hide BeginScan;
      MarkFrame(s, t);
      CoverageFrame(s, t);
      IdentityFrame(s, t);
      hide MarkInv, CoverageInv, IdentityInv;
      assert forall d :: Generation(t, d) == Generation(s, d);
    }
  }

  /** Binding, the target and the other record writers leave the protocol tables alone. */
  ghost predicate LeavesProtocol(s: State, t: State) {
    && t == s.(genesis := t.genesis, target := t.target, records := t.records)
    && t.records.winners == s.records.winners
    && (s.genesis.Some? ==> t.genesis == s.genesis)
    && TargetKept(s, t)
  }

  lemma SnapshotLeavesProtocol(s: State, d: D.Row, latest: Option<D.Row>)
    ensures LeavesProtocol(s, InsertSnapshot(s, d, latest).0)
  {
    hide D.Snapshot;
  }

  lemma CutoverLeavesProtocol(s: State)
    ensures LeavesProtocol(s, TryCutover(s).0)
  {
    hide A.TryCutover;
  }

  lemma OthersLeaveProtocol(s: State, op: Op)
    requires op.OpBind? || op.OpTarget? || op.OpSnapshot? || op.OpCutover?
    ensures LeavesProtocol(s, Step(s, op))
  {
    if op.OpSnapshot? {
      SnapshotLeavesProtocol(s, op.row, op.latest);
    } else if op.OpCutover? {
      CutoverLeavesProtocol(s);
    }
    hide InsertSnapshot, TryCutover;
  }

  /** Only beginning a scan, appending a page and reindexing touch the scans. */
  lemma OthersKeepScans(s: State, op: Op)
    requires !op.OpBegin? && !op.OpAppend? && !op.OpReindex?
    ensures Step(s, op).scans == s.scans && Step(s, op).scanWinners == s.scanWinners
  {
    if op.OpCommit? {
      if CommitBlock(s, op.batch).0 != s {
        CommitShape(s, op.batch);
      }
      hide CommitBlock;
    } else if op.OpMark? {
      if MarkUnavailable(s, op.markGenesis, op.absence).0 != s {
        MarkShape(s, op.markGenesis, op.absence);
      }
      hide MarkUnavailable;
    } else if op.OpRange? || op.OpFloor? || op.OpInitialize? {
      hide Load, WinnerMissing;
    } else {
      OthersLeaveProtocol(s, op);
      hide Step;
    }
  }

  lemma OthersKeepInv(s: State, t: State)
    requires Inv(s) && LeavesProtocol(s, t)
    ensures Inv(t)
  {
    MarkFrame(s, t);
    CoverageFrame(s, t);
    IdentityFrame(s, t);
    hide MarkInv, CoverageInv, IdentityInv;
    assert forall d :: Generation(t, d) == Generation(s, d);
  }

  lemma ReindexGenerations(s: State, ds: set<Domain>, d: Domain)
    requires s.genesis.Some? && !ReindexBlocked(s, ds)
    ensures Generation(Reindex(s, ds).0, d) == Generation(s, d) + if d in ds then 1 else 0
  {
  }

  lemma ReindexKeepsInv(s: State, ds: set<Domain>)
    requires Inv(s)
    ensures Inv(Reindex(s, ds).0)
  {
    var t := Reindex(s, ds).0;
    if t != s {
      forall d ensures Generation(t, d) == Generation(s, d) + if d in ds then 1 else 0 {
        ReindexGenerations(s, ds, d);
      }
      ReindexKeepsScans(s, ds);
      ReindexKeepsCoverage(s, ds);
      ReindexKeepsMarks(s, ds);
      hide ScanInv, CoverageInv, MarkInv;
    }
  }

  lemma ReindexKeepsCoverage(s: State, ds: set<Domain>)
    requires CoverageInv(s) && Reindex(s, ds).1.Ok?
    requires forall d :: Generation(Reindex(s, ds).0, d) == Generation(s, d) + if d in ds then 1 else 0
    ensures CoverageInv(Reindex(s, ds).0)
  {
    hide ReindexRecords, Generation;
  }

  lemma ReindexKeepsMarks(s: State, ds: set<Domain>)
    requires MarkInv(s) && Reindex(s, ds).1.Ok?
    requires forall d :: Generation(Reindex(s, ds).0, d) == Generation(s, d) + if d in ds then 1 else 0
    ensures MarkInv(Reindex(s, ds).0)
  {
    hide ReindexBlocked, ReindexCoverage, ReindexRecords, Generation;
  }

  lemma ReindexKeepsScans(s: State, ds: set<Domain>)
    requires ScanInv(s)
    requires Reindex(s, ds).1.Ok?
    requires forall d :: Generation(Reindex(s, ds).0, d) == Generation(s, d) + if d in ds then 1 else 0
    ensures ScanInv(Reindex(s, ds).0)
  {
    hide ReindexBlocked, ReindexCoverage, ReindexRecords, Generation;
  }

  /** Every transaction keeps the invariant. */
  lemma StepKeepsInv(s: State, op: Op)
    requires Inv(s)
    ensures Inv(Step(s, op))
  {
    hide Inv, CommitBlock, BeginScan, AppendPage, CommitRange, SetPrunedFloor, InitializeCoverage, MarkUnavailable, Reindex;
    match op
    case OpCommit(b) => CommitKeepsInv(s, b);
    case OpBegin(scan) => BeginKeepsInv(s, scan);
    case OpAppend(p) => AppendKeepsInv(s, p);
    case OpRange(r) => RangeKeepsInv(s, r);
    case OpFloor(g, f) => FloorKeepsInv(s, g, f);
    case OpInitialize(d, e, n) => InitializeKeepsInv(s, d, e, n);
    case OpMark(g, b) => MarkKeepsInv(s, g, b);
    case OpReindex(ds) => ReindexKeepsInv(s, ds);
    case _ => OthersLeaveProtocol(s, op); OthersKeepInv(s, Step(s, op));
  }

  lemma {:induction false} AfterKeepsInv(s: State, ops: seq<Op>)
    requires Inv(s)
    ensures Inv(After(s, ops))
  {
    if ops != [] {
      AfterKeepsInv(s, ops[..|ops| - 1]);
      StepKeepsInv(After(s, ops[..|ops| - 1]), ops[|ops| - 1]);
    }
  }

  // ---------------------------------------------------------------- what later states keep

  /** While a domain stays in its generation: coverage and markers only grow, the start is
      fixed, scans keep their identity, and a finished scan is frozen with its winners. */
  ghost predicate SameGenerationKeeps(s: State, t: State, d: Domain) {
    && (d in s.coverage ==> d in t.coverage && t.coverage[d].start == s.coverage[d].start)
    && (forall h :: CoveredIn(s.coverage, d, h) ==> CoveredIn(t.coverage, d, h))
    && (forall k :: k in s.unavailable && k.0 == d ==> k in t.unavailable && t.unavailable[k] == s.unavailable[k])
    && (forall id :: id in s.scans && s.scans[id].domain == d ==>
          && id in t.scans
          && t.scans[id].(cursor := None, finished := false) == s.scans[id].(cursor := None, finished := false)
          && (s.scans[id].finished ==> t.scans[id] == s.scans[id]
                                       && forall n :: (id, n) in t.scanWinners <==> (id, n) in s.scanWinners))
  }

  /** The finalized target never moves down, nor changes hash at its height. */
  ghost predicate TargetKept(s: State, t: State) {
    s.target.Some? ==> t.target.Some? && (t.target == s.target || t.target.value.0 > s.target.value.0)
  }

  /** `t` can follow `s`. */
  ghost predicate Follows(s: State, t: State) {
    && (s.genesis.Some? ==> t.genesis == s.genesis)
    && TargetKept(s, t)
    && (forall n :: n in s.finalized ==> n in t.finalized && t.finalized[n] == s.finalized[n])
    && (forall d :: Generation(s, d) <= Generation(t, d))
    && (forall d :: Generation(s, d) == Generation(t, d) ==> SameGenerationKeeps(s, t, d))
  }

  lemma FollowsTransitive(s: State, t: State, u: State)
    requires Follows(s, t) && Follows(t, u)
    ensures Follows(s, u)
  {
    forall d | Generation(s, d) == Generation(u, d) ensures SameGenerationKeeps(s, u, d) {
      assert Generation(s, d) == Generation(t, d) == Generation(u, d);
      SameGenerationTransitive(s, t, u, d);
    }
  }

  lemma SameGenerationTransitive(s: State, t: State, u: State, d: Domain)
    requires SameGenerationKeeps(s, t, d) && SameGenerationKeeps(t, u, d)
    ensures SameGenerationKeeps(s, u, d)
  {
    forall id | id in s.scans && s.scans[id].domain == d
      ensures && id in u.scans
              && u.scans[id].(cursor := None, finished := false) == s.scans[id].(cursor := None, finished := false)
              && (s.scans[id].finished ==> u.scans[id] == s.scans[id]
                                           && forall n :: (id, n) in u.scanWinners <==> (id, n) in s.scanWinners)
    {
      assert t.scans[id].(cursor := None, finished := false).domain == d;
    }
  }

  /** A step that only grows coverage and identity and touches no scan. */
  lemma CoverageStepFollows(s: State, t: State)
    requires t == s.(coverage := t.coverage, finalized := t.finalized, records := t.records)
    requires forall n :: n in s.finalized ==> n in t.finalized && t.finalized[n] == s.finalized[n]
    requires forall d :: d in s.coverage ==> d in t.coverage && t.coverage[d].start == s.coverage[d].start
    requires forall d, h :: CoveredIn(s.coverage, d, h) ==> CoveredIn(t.coverage, d, h)
    ensures Follows(s, t)
  {
    hide CoveredIn;
  }

  lemma CommitFollows(s: State, b: BlockCommit)
    requires Inv(s)
    ensures Follows(s, CommitBlock(s, b).0)
  {
    var t := CommitBlock(s, b).0;
    if t != s {
      CommitShape(s, b);
      CompleteAllSpec(s, b.completed, b.height);
      hide WellFormed, Covered, CompleteAll, HashConflict, BadProvenance, CommitBlock, Inv, WriteRecords;
      CoverageStepFollows(s, t);
    } else {
      SameFollows(s);
    }
  }

  lemma SameFollows(s: State)
    ensures Follows(s, s)
  {
    hide CoveredIn;
  }

  lemma BeginFollows(s: State, scan: Scan)
    ensures Follows(s, BeginScan(s, scan).0)
  {
    hide CoveredIn;
    var t := BeginScan(s, scan).0;
    if t == s {
      SameFollows(s);
    } else {
      BeginShape(s, scan);
      hide BeginScan;
    }
  }

  lemma AppendFollows(s: State, p: Page)
    ensures Follows(s, AppendPage(s, p).0)
  {
    hide CoveredIn;
    var t := AppendPage(s, p).0;
    if t == s {
      SameFollows(s);
    } else {
      AppendShape(s, p);
      hide AppendPage;
      forall q | q in t.scanWinners && q !in s.scanWinners ensures q.0 == p.id {
        var h :| h in p.heights && q == (p.id, h);
      }
    }
  }

  /** Replacing one domain's coverage by one that covers at least as much. */
  lemma OneCoverageFollows(s: State, d: Domain, c: Coverage)
    requires d in s.coverage ==> c.start == s.coverage[d].start
    requires forall h :: CoveredIn(s.coverage, d, h) ==> Covered(c, h)
    ensures Follows(s, s.(coverage := s.coverage[d := c]))
  {
    hide Covered;
    var t := s.(coverage := s.coverage[d := c]);
    forall e, h | CoveredIn(s.coverage, e, h) ensures CoveredIn(t.coverage, e, h) {
    }
    CoverageStepFollows(s, t);
  }

  lemma RangeFollows(s: State, r: RangeCompletion)
    requires Inv(s)
    ensures Follows(s, CommitRange(s, r).0)
  {
    var t := CommitRange(s, r).0;
    if t != s {
      CoverIsUnion(Load(s.coverage, r.domain, r.expected, 0).value, r.from, r.through);
      OneCoverageFollows(s, r.domain, t.coverage[r.domain]);
    } else {
      SameFollows(s);
    }
  }

  lemma FloorFollows(s: State, g: Guard, floor: Option<nat>)
    ensures Follows(s, SetPrunedFloor(s, g, floor).0)
  {
    var t := SetPrunedFloor(s, g, floor).0;
    if t != s {
      OneCoverageFollows(s, g.domain, t.coverage[g.domain]);
    } else {
      SameFollows(s);
    }
  }

  lemma InitializeFollows(s: State, d: Domain, e: u64, n: nat)
    ensures Follows(s, InitializeCoverage(s, d, e, n).0)
  {
    var t := InitializeCoverage(s, d, e, n).0;
    if t != s {
      OneCoverageFollows(s, d, t.coverage[d]);
    } else {
      SameFollows(s);
    }
  }

  lemma MarkFollows(s: State, g: Hash, b: Absence)
    ensures Follows(s, MarkUnavailable(s, g, b).0)
  {
    hide CoveredIn;
    var t := MarkUnavailable(s, g, b).0;
    if t == s {
      SameFollows(s);
    } else {
      MarkShape(s, g, b);
      hide MarkUnavailable;
      assert forall d :: Generation(t, d) == Generation(s, d);
      hide Generation;
    }
  }

  /** A reindex does not touch the domains it was not asked for. */
  lemma ReindexSpares(s: State, ds: set<Domain>, d: Domain)
    requires d !in ds
    ensures SameGenerationKeeps(s, Reindex(s, ds).0, d)
  {
    hide Covered, ReindexBlocked, ReindexRecords, Generation, Load;
  }

  lemma ReindexBasics(s: State, ds: set<Domain>)
    ensures var t := Reindex(s, ds).0; t.genesis == s.genesis && t.target == s.target && t.finalized == s.finalized
  {
    hide ReindexBlocked, ReindexRecords, ReindexCoverage, Generation;
  }

  lemma ReindexFollows(s: State, ds: set<Domain>)
    ensures Follows(s, Reindex(s, ds).0)
  {
    var t := Reindex(s, ds).0;
    if t != s {
      ReindexBasics(s, ds);
      forall d ensures Generation(t, d) == Generation(s, d) + if d in ds then 1 else 0 {
        ReindexGenerations(s, ds, d);
      }
      hide Reindex, Generation, SameGenerationKeeps;
      forall d | d !in ds ensures SameGenerationKeeps(s, t, d) {
        ReindexSpares(s, ds, d);
      }
    } else {
      SameFollows(s);
    }
  }

  lemma OthersFollow(s: State, t: State)
    requires LeavesProtocol(s, t)
    ensures Follows(s, t)
  {
    hide CoveredIn;
    assert forall d :: Generation(t, d) == Generation(s, d);
    hide Generation;
  }

  lemma StepFollows(s: State, op: Op)
    requires Inv(s)
    ensures Follows(s, Step(s, op))
  {
    hide Inv, Follows, CommitBlock, BeginScan, AppendPage, CommitRange, SetPrunedFloor, InitializeCoverage, MarkUnavailable, Reindex;
    match op
    case OpCommit(b) => CommitFollows(s, b);
    case OpBegin(scan) => BeginFollows(s, scan);
    case OpAppend(p) => AppendFollows(s, p);
    case OpRange(r) => RangeFollows(s, r);
    case OpFloor(g, f) => FloorFollows(s, g, f);
    case OpInitialize(d, e, n) => InitializeFollows(s, d, e, n);
    case OpMark(g, b) => MarkFollows(s, g, b);
    case OpReindex(ds) => ReindexFollows(s, ds);
    case _ => OthersLeaveProtocol(s, op); OthersFollow(s, Step(s, op));
  }

  /** Every later state of a run follows every earlier one. */
  lemma {:induction false} AfterFollows(s: State, ops: seq<Op>)
    requires Inv(s)
    ensures Inv(After(s, ops)) && Follows(s, After(s, ops))
  {
    AfterKeepsInv(s, ops);
    if ops != [] {
      var init := ops[..|ops| - 1];
      AfterFollows(s, init);
      StepFollows(After(s, init), ops[|ops| - 1]);
      FollowsTransitive(s, After(s, init), After(s, ops));
    }
  }
}
