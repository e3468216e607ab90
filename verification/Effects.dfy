/** What each call answers and what it leaves behind, in terms of its arguments and of what
    the store held: when exactly it is accepted, stale or refused, and which values it stores. */
module Effects {
  import opened Prelude
  import opened CoverageAlgebra
  import opened StoreModel
  import opened Protocol
  import opened Idempotence
  import W = WinnerTables
  import D = DifficultyTables
  import A = AuthorshipTables
  import P = ParticipationTables

  /** A stored positive generation is read as it is; absent and zero read as one. */
  lemma GenerationIsPositive(s: State, d: Domain)
    ensures Generation(s, d) >= 1
    ensures d in s.generations && s.generations[d] >= 1 ==> Generation(s, d) == s.generations[d]
    ensures d !in s.generations || s.generations[d] == 0 ==> Generation(s, d) == 1
  {
  }

  // ---------------------------------------------------------------- commit_block

  /** The batch writes a record of the domain or completes it. */
  predicate Touches(b: BlockCommit, d: Domain) {
    || d in b.completed
    || match d
       case Winners => b.records.winner.Some?
       case Difficulty => b.records.difficulty.Some?
       case Participation => b.records.participation != []
       case Authorship => b.records.authorship.Some?
  }

  ghost predicate GuardFor(b: BlockCommit, d: Domain, gen: u64) {
    exists i :: 0 <= i < |b.guards| && b.guards[i] == Guard(d, gen)
  }

  ghost predicate HasGuard(b: BlockCommit, d: Domain) {
    exists gen: u64 :: GuardFor(b, d, gen)
  }

  /** Each touched domain has one guard, and something is touched. */
  ghost predicate WellGuarded(b: BlockCommit) {
    && b.height <= U64_MAX
    && (forall i, j :: 0 <= i < j < |b.guards| ==> b.guards[i].domain != b.guards[j].domain)
    && (exists d :: Touches(b, d))
    && (forall d :: Touches(b, d) ==> HasGuard(b, d))
  }

  ghost predicate AllCurrent(s: State, b: BlockCommit) {
    forall i :: 0 <= i < |b.guards| ==> b.guards[i].expected == Generation(s, b.guards[i].domain)
  }

  /** The height has, or had a winner row with, no other hash. */
  ghost predicate HashAgrees(s: State, height: nat, hash: Hash) {
    && (height in s.finalized ==> s.finalized[height] == hash)
    && (forall h :: h in s.records.winners.blocks && s.records.winners.blocks[h].number == height ==>
          s.records.winners.blocks[h].substrateHash == hash)
  }

  /** Every record belongs to the committed block. */
  ghost predicate OfThisBlock(b: BlockCommit) {
    && (forall w :: b.records.winner == Some(w) ==> w.number == b.height && w.substrateHash == b.hash && w.finalized)
    && (forall d :: b.records.difficulty == Some(d) ==> d.block == b.height && d.source == D.Block)
    && (forall a :: b.records.authorship == Some(a) ==> a.number == b.height)
  }

  /** No stored record contradicts the batch, and its budgets can be stored. */
  ghost predicate RecordsFit(s: State, b: BlockCommit) {
    && (forall d :: b.records.difficulty == Some(d) ==>
          D.HasBlockRow(s.records.difficulty, d.block) ==> D.Compatible(s.records.difficulty.visible[d.block], d))
    && (forall a :: b.records.authorship == Some(a) ==>
          forall k :: k in s.records.authorship.facts && k.1 == a.number ==>
            k.0 == a.account && s.records.authorship.facts[k].timestamp == a.timestamp)
    && (forall i :: 0 <= i < |b.records.participation| ==> P.ValidBudget(b.records.participation[i]))
  }

  ghost predicate AboveStarts(s: State, b: BlockCommit) {
    forall d :: d in b.completed && d in s.coverage ==> s.coverage[d].start <= b.height
  }

  lemma AffectedIsTouched(b: BlockCommit, d: Domain)
    ensures d in Affected(b) <==> Touches(b, d)
  {
  }

  lemma GuardedMeans(b: BlockCommit)
    ensures !DuplicateGuards(b.guards) && AllGuarded(b) && b.height <= U64_MAX <==> WellGuarded(b)
  {
    forall d ensures d in Affected(b) <==> Touches(b, d) { AffectedIsTouched(b, d); }
    hide Affected, Touches;
    forall d ensures HasGuard(b, d) <==> exists i :: 0 <= i < |b.guards| && b.guards[i].domain == d {
      if i :| 0 <= i < |b.guards| && b.guards[i].domain == d {
        assert b.guards[i] == Guard(d, b.guards[i].expected);
        assert GuardFor(b, d, b.guards[i].expected);
      }
    }
    assert Affected(b) != {} <==> exists d :: d in Affected(b);
  }

  lemma ProvenanceMeans(b: BlockCommit)
    ensures !BadProvenance(b) <==> OfThisBlock(b)
  {
  }

  lemma RecordsAccepted(s: State, b: BlockCommit)
    requires OfThisBlock(b)
    ensures WriteRecords(s.records, b.records).Ok? <==> RecordsFit(s, b)
    ensures WriteRecords(s.records, b.records).Err? ==> WriteRecords(s.records, b.records).error == Invalid
  {
    var r := b.records;
    if r.difficulty.Some? { D.WriteBlockRefuses(s.records.difficulty, r.difficulty.value); }
    if r.authorship.Some? { A.WriteLearns(s.records.authorship, r.authorship.value); }
    P.WriteAllAccepts(s.records.participation, r.participation);
    WriteErrors(s, b);
    hide W.Write, D.WriteBlock, D.Compatible, A.Write, P.WriteAll, P.ValidBudget;
  }

  lemma WriteErrors(s: State, b: BlockCommit)
    requires OfThisBlock(b)
    ensures b.records.difficulty.Some? && D.WriteBlock(s.records.difficulty, b.records.difficulty.value).Err? ==>
            D.WriteBlock(s.records.difficulty, b.records.difficulty.value).error == Invalid
    ensures b.records.authorship.Some? && A.Write(s.records.authorship, b.records.authorship.value).Err? ==>
            A.Write(s.records.authorship, b.records.authorship.value).error == Invalid
    ensures P.WriteAll(s.records.participation, b.records.participation).Err? ==>
            P.WriteAll(s.records.participation, b.records.participation).error == Invalid
  {
    ParticipationErrors(s.records.participation, b.records.participation);
  }

  lemma {:induction false} ParticipationErrors(rows: P.Rows, ps: seq<P.Participant>)
    ensures P.WriteAll(rows, ps).Err? ==> P.WriteAll(rows, ps).error == Invalid
  {
    if ps != [] { ParticipationErrors(rows, ps[..|ps| - 1]); }
  }

  lemma {:induction false} CompletionAccepted(s: State, ds: seq<Domain>, n: u64)
    requires CoverageInv(s)
    ensures CompleteAll(s, ds, n).Ok? <==> forall d :: d in ds && d in s.coverage ==> s.coverage[d].start <= n
    ensures CompleteAll(s, ds, n).Err? ==> CompleteAll(s, ds, n).error == Invalid
  {
    if ds != [] {
      var init, d := ds[..|ds| - 1], ds[|ds| - 1];
      CompletionAccepted(s, init, n);
      assert forall e :: e in ds <==> e in init || e == d;
      if CompleteAll(s, init, n).Ok? {
        CompleteAllSpec(s, init, n);
        CompleteOneAccepted(s, CompleteAll(s, init, n).value.0, d, n);
      }
      hide Complete, WellFormed, CoveredIn, Generation;
    }
  }

  lemma CompleteOneAccepted(s: State, m: map<Domain, Coverage>, d: Domain, n: u64)
    requires forall e :: e in m ==> WellFormed(m[e]) && m[e].gen == Generation(s, e)
    ensures Complete(m, d, Generation(s, d), n).Ok? <==> (d in m ==> m[d].start <= n)
    ensures Complete(m, d, Generation(s, d), n).Err? ==> Complete(m, d, Generation(s, d), n).error == Invalid
  {
    hide Generation;
    var c := Load(m, d, Generation(s, d), FirstStart(d, n)).value;
    CoverIsUnion(c, n, n);
    hide WellFormed, Covered, Contains;
  }

  lemma AdmittedMeans(s: State, b: BlockCommit)
    ensures Admitted(s, b) <==>
            && WellGuarded(b) && s.genesis == Some(b.genesis) && AllCurrent(s, b)
            && HashAgrees(s, b.height, b.hash) && OfThisBlock(b)
  {
    GuardedMeans(b);
    ProvenanceMeans(b);
    hide WellGuarded, DuplicateGuards, AllGuarded, OfThisBlock, BadProvenance;
  }

  /** A commit succeeds exactly when every domain it touches carries one current guard, the
      network and the hash of the height agree, its records belong to the block and
      contradict nothing stored, and no completed domain starts above it. */
  lemma CommitAcceptedIff(s: State, b: BlockCommit)
    requires Inv(s)
    ensures Succeeds(s, b) <==>
            && WellGuarded(b) && s.genesis == Some(b.genesis) && AllCurrent(s, b)
            && HashAgrees(s, b.height, b.hash) && OfThisBlock(b) && RecordsFit(s, b) && AboveStarts(s, b)
  {
    SucceedsShape(s, b);
    AdmittedMeans(s, b);
    hide CommitBlock, Admitted, HashAgrees, AllCurrent, WriteRecords, CompleteAll;
    if Admitted(s, b) {
      RecordsAccepted(s, b);
      CompletionAccepted(s, b.completed, b.height);
      hide OfThisBlock, RecordsFit, WellGuarded, Inv;
    }
  }

  /** Every other commit changes nothing, and this is what it answers. */
  lemma CommitRefusals(s: State, b: BlockCommit)
    requires Inv(s)
    ensures !Succeeds(s, b) ==> CommitBlock(s, b).0 == s
    ensures CommitBlock(s, b).1 == Ok(StaleGeneration) <==>
            WellGuarded(b) && s.genesis == Some(b.genesis) && !AllCurrent(s, b)
    ensures CommitBlock(s, b).1 == Err(NetworkIdentity) <==> WellGuarded(b) && s.genesis != Some(b.genesis)
    ensures CommitBlock(s, b).1 == Err(ConflictingHistory) <==>
            WellGuarded(b) && s.genesis == Some(b.genesis) && AllCurrent(s, b) && !HashAgrees(s, b.height, b.hash)
    ensures CommitBlock(s, b).1 != Err(IncompleteScan)
  {
    GuardedMeans(b);
    ProvenanceMeans(b);
    if !BadProvenance(b) {
      RecordsAccepted(s, b);
      if b.height <= U64_MAX { CompletionAccepted(s, b.completed, b.height); }
    }
    assert AllCurrent(s, b) <==> !AnyStale(s, b.guards);
    assert HashAgrees(s, b.height, b.hash) <==> !HashConflict(s, b.height, b.hash);
    hide WellGuarded, DuplicateGuards, AllGuarded, OfThisBlock, BadProvenance, AllCurrent, AnyStale, HashAgrees, HashConflict,
      WriteRecords, CompleteAll, RecordsFit, Inv;
  }

  /** Coverage or records of the domain differ. */
  ghost predicate Changed(s: State, t: State, d: Domain) {
    || (d in s.coverage <==> d !in t.coverage)
    || (d in s.coverage && d in t.coverage && s.coverage[d] != t.coverage[d])
    || match d
       case Winners => t.records.winners != s.records.winners
       case Difficulty => t.records.difficulty != s.records.difficulty
       case Participation => t.records.participation != s.records.participation
       case Authorship => t.records.authorship != s.records.authorship
  }

  lemma UntouchedIsUnchanged(s: State, b: BlockCommit, d: Domain)
    requires Inv(s) && Succeeds(s, b) && !Touches(b, d)
    ensures !Changed(s, CommitBlock(s, b).0, d)
  {
    SucceedsShape(s, b);
    AdmittedMeans(s, b);
    hide CommitBlock, Admitted, WriteRecords, CompleteAll, OfThisBlock, Touches, Inv, Succeeds;
    UntouchedStays(s, b, d);
  }

  /** What a commit changes carries the current generation of its domain. */
  lemma ChangedIsGuarded(s: State, b: BlockCommit, d: Domain)
    requires Inv(s) && Changed(s, CommitBlock(s, b).0, d)
    ensures GuardFor(b, d, Generation(s, d))
  {
    CommitAcceptedIff(s, b);
    CommitRefusals(s, b);
    if Succeeds(s, b) && !Touches(b, d) {
      UntouchedIsUnchanged(s, b, d);
    }
    hide CommitBlock, Inv, OfThisBlock, RecordsFit, HashAgrees, Touches, Succeeds;
    assert HasGuard(b, d);
    var gen: u64 :| GuardFor(b, d, gen);
    var i :| 0 <= i < |b.guards| && b.guards[i] == Guard(d, gen);
    assert b.guards[i].expected == Generation(s, b.guards[i].domain);
  }

  lemma UntouchedStays(s: State, b: BlockCommit, d: Domain)
    requires Inv(s) && OfThisBlock(b) && b.height <= U64_MAX && !Touches(b, d)
    requires WriteRecords(s.records, b.records).Ok? && CompleteAll(s, b.completed, b.height).Ok?
    ensures var u, m := WriteRecords(s.records, b.records).value.0, CompleteAll(s, b.completed, b.height).value.0;
            && (d in m <==> d in s.coverage) && (d in m ==> m[d] == s.coverage[d])
            && match d
               case Winners => u.winners == s.records.winners
               case Difficulty => u.difficulty == s.records.difficulty
               case Participation => u.participation == s.records.participation
               case Authorship => u.authorship == s.records.authorship
  {
    UncompletedStays(s, b.completed, b.height, d);
    hide CompleteAll, W.Write, D.WriteBlock, A.Commit, Inv;
  }

  lemma {:induction false} UncompletedStays(s: State, ds: seq<Domain>, n: u64, d: Domain)
    requires CompleteAll(s, ds, n).Ok? && d !in ds
    ensures var m := CompleteAll(s, ds, n).value.0; d in m <==> d in s.coverage
    ensures var m := CompleteAll(s, ds, n).value.0; d in m ==> m[d] == s.coverage[d]
  {
    if ds != [] {
      UncompletedStays(s, ds[..|ds| - 1], n, d);
      hide Load, CoverValue, Generation;
    }
  }

  /** A successful commit fixes the hash of its height, and reports `Applied` unless it finds
      everything as it is. */
  lemma CommitReports(s: State, b: BlockCommit)
    requires Inv(s) && A.Valid(s.records.authorship) && Succeeds(s, b)
    ensures var (t, r) := CommitBlock(s, b);
            && t.finalized == (if b.height in s.finalized then s.finalized else s.finalized[b.height := b.hash])
            && b.height in t.finalized && t.finalized[b.height] == b.hash
            && (r == Ok(AlreadyApplied) ==> t.records == s.records && t.coverage == s.coverage)
            && (t.records == s.records && t.coverage == s.coverage && P.Consistent(b.records.participation) ==>
                  r == Ok(AlreadyApplied))
  {
    SucceedsShape(s, b);
    AdmittedMeans(s, b);
    hide CommitBlock, WriteRecords, CompleteAll, Admitted;
    WriteReports(s.records, b.records);
    CompleteAllChanges(s, b.completed, b.height);
    CompleteAllSpec(s, b.completed, b.height);
    hide Inv, OfThisBlock, WellGuarded, P.Consistent, A.Valid;
  }

  lemma WriteReports(t: Records, r: BlockRecords)
    requires r.difficulty.Some? ==> r.difficulty.value.source == D.Block
    requires WriteRecords(t, r).Ok? && A.Valid(t.authorship)
    ensures var (u, changed) := WriteRecords(t, r).value;
            (!changed ==> u == t) && (u == t && P.Consistent(r.participation) ==> !changed)
  {
    if r.winner.Some? { W.WriteStores(t.winners, r.winner.value); }
    if r.difficulty.Some? { D.WriteBlockRefuses(t.difficulty, r.difficulty.value); }
    if r.authorship.Some? { AuthorshipReports(t.authorship, r.authorship.value); }
    ParticipationReports(t, r);
    hide W.Write, D.WriteBlock, A.Commit, P.WriteAll, P.Consistent, A.Valid, D.Compatible, D.HasBlockRow;
  }

  lemma ParticipationReports(t: Records, r: BlockRecords)
    requires P.WriteAll(t.participation, r.participation).Ok?
    ensures var (u, changed) := P.WriteAll(t.participation, r.participation).value;
            (!changed ==> u == t.participation) && (u == t.participation && P.Consistent(r.participation) ==> !changed)
  {
    P.UnchangedIffPresent(t.participation, r.participation);
    P.PresentAfterwards(t.participation, r.participation);
  }

  lemma AuthorshipReports(t: A.Tables, a: A.Record)
    requires A.Commit(t, a).Ok? && A.Valid(t)
    ensures var (u, changed) := A.Commit(t, a).value; (!changed ==> u == t) && (u == t ==> !changed)
  {
    A.WriteLearns(t, a);
    var w := A.Write(t, a).value.0;
    hide A.Write;
    if t.cutover && w == t {
      forall v | v in A.Authors(t.facts) ensures v in t.summary && t.summary[v] == A.FromFacts(t.facts, v) {
        A.AuthorHasFacts(t.facts, v);
      }
      assert A.Recompute(t).summary == t.summary;
    }
  }

  // ---------------------------------------------------------------- scans and ranges

  /** `begin_scan`: what it answers and the row it stores. */
  lemma BeginAnswers(s: State, scan: Scan)
    ensures var (t, r) := BeginScan(s, scan);
            var known := scan.id in s.scans;
            var bound := scan.id != "" && s.genesis == Some(scan.genesis);
            var current := bound && Generation(s, scan.domain) == scan.expected;
            && (r == Ok(Applied) <==> current && !known)
            && (r == Ok(AlreadyApplied) <==> current && known && SameScan(s.scans[scan.id], scan))
            && (r == Ok(StaleGeneration) <==> bound && !current)
            && (r == Err(NetworkIdentity) <==> scan.id != "" && !bound)
            && (r == Err(Invalid) <==> scan.id == "" || (current && known && !SameScan(s.scans[scan.id], scan)))
            && (r != Ok(Applied) ==> t == s)
            && (r == Ok(Applied) ==>
                  && t == s.(scans := t.scans) && t.scans.Keys == s.scans.Keys + {scan.id}
                  && (forall id :: id in s.scans ==> t.scans[id] == s.scans[id])
                  && SameScan(t.scans[scan.id], scan) && t.scans[scan.id].cursor.None? && !t.scans[scan.id].finished)
  {
  }

  /** The row is of this very scan, column by column. */
  predicate SameScan(row: ScanRow, scan: Scan) {
    && row.genesis == scan.genesis && row.at == scan.at && row.finalizedHeight == scan.finalizedHeight
    && row.domain == scan.domain && row.generation == scan.expected
  }

  /** `append_scan_page`: exactly the next page of a current, unfinished scan is stored. */
  lemma AppendAnswers(s: State, p: Page)
    requires Inv(s)
    ensures var (t, r) := AppendPage(s, p);
            var sane := |p.heights| <= 1000 && (p.next.Some? ==> p.next != p.expected);
            var known := sane && s.genesis.Some? && p.id in s.scans;
            && (r == Ok(Applied) <==>
                  && known && !s.scans[p.id].finished && s.scans[p.id].cursor == p.expected
                  && s.scans[p.id].finalizedHeight <= U64_MAX && forall h :: h in p.heights ==> h <= s.scans[p.id].finalizedHeight)
            && r != Ok(StaleGeneration) && r != Ok(AlreadyApplied) && r != Err(ConflictingHistory)
            && (r == Err(NetworkIdentity) <==> sane && s.genesis.None?)
            && (r == Err(IncompleteScan) <==>
                  && sane && s.genesis.Some?
                  && (p.id !in s.scans || s.scans[p.id].finished || s.scans[p.id].cursor != p.expected
                      || s.scans[p.id].finalizedHeight > U64_MAX))
            && (r != Ok(Applied) ==> t == s)
            && (r == Ok(Applied) ==>
                  && t == s.(scans := t.scans, scanWinners := t.scanWinners) && t.scans.Keys == s.scans.Keys
                  && (forall id :: id in s.scans && id != p.id ==> t.scans[id] == s.scans[id])
                  && t.scans[p.id] == s.scans[p.id].(cursor := p.next, finished := p.next.None?)
                  && (forall id, n :: (id, n) in t.scanWinners <==> (id, n) in s.scanWinners || (id == p.id && n in p.heights)))
  {
    if p.id in s.scans {
      assert s.genesis == Some(s.scans[p.id].genesis) && Generation(s, s.scans[p.id].domain) == s.scans[p.id].generation;
      NoneAbove(p.heights, s.scans[p.id].finalizedHeight);
    }
    hide Inv, Generation;
  }

  lemma NoneAbove(heights: seq<nat>, bound: nat)
    ensures (forall h :: h in heights ==> h <= bound) <==> !(exists i :: 0 <= i < |heights| && heights[i] > bound)
  {
    if i :| 0 <= i < |heights| && heights[i] > bound {
      assert heights[i] in heights;
    }
  }

  /** `commit_range`: a current range is completed exactly when a finished scan of the domain
      and generation reaches its end, every discovered winner in it is complete, and it lies
      at or above the start. */
  lemma RangeAnswers(s: State, r: RangeCompletion)
    requires Inv(s)
    ensures var (t, answer) := CommitRange(s, r);
            var bound := r.from <= r.through <= U64_MAX && s.genesis == Some(r.genesis);
            var current := bound && Generation(s, r.domain) == r.expected;
            var proved := current && Proved(s, r);
            var sparse := proved && r.domain != Authorship;
            && (answer == Ok(StaleGeneration) <==> bound && !current)
            && (answer == Err(NetworkIdentity) <==> r.from <= r.through <= U64_MAX && !bound)
            && (answer == Err(IncompleteScan) <==> (current && !proved) || (sparse && !AllWinnersComplete(s, r)))
            && (answer == Ok(Applied) || answer == Ok(AlreadyApplied) <==>
                  sparse && AllWinnersComplete(s, r) && StartAtMost(s, r.domain, r.from))
            && answer != Err(ConflictingHistory)
            && (answer != Ok(Applied) ==> t == s)
            && (answer == Ok(Applied) ==> exists h :: r.from <= h <= r.through && !CoveredIn(s.coverage, r.domain, h))
            && (answer == Ok(AlreadyApplied) ==> forall h :: r.from <= h <= r.through ==> CoveredIn(s.coverage, r.domain, h))
  {
    hide WinnerMissing, Generation, CoverValue, AllWinnersComplete;
    if r.from <= r.through <= U64_MAX && Generation(s, r.domain) == r.expected {
      RangeCovers(s, r);
    }
    hide Inv, WellFormed, CoveredIn;
  }

  /** The coverage that `commit_range` loads, and what covering the range would do to it. */
  lemma RangeCovers(s: State, r: RangeCompletion)
    requires CoverageInv(s) && r.from <= r.through <= U64_MAX && Generation(s, r.domain) == r.expected
    ensures Load(s.coverage, r.domain, r.expected, 0).Ok?
    ensures var c := Load(s.coverage, r.domain, r.expected, 0).value;
            && (WinnerMissing(s, r.scanId, c, r.from, r.through) <==> !AllWinnersComplete(s, r))
            && (CoverValue(c, r.from, r.through).Ok? <==> StartAtMost(s, r.domain, r.from))
            && (CoverValue(c, r.from, r.through).Err? ==> CoverValue(c, r.from, r.through).error == Invalid)
            && (CoverValue(c, r.from, r.through).Ok? ==>
                  (!CoverValue(c, r.from, r.through).value.1 <==>
                     forall h :: r.from <= h <= r.through ==> CoveredIn(s.coverage, r.domain, h)))
  {
    var c := Load(s.coverage, r.domain, r.expected, 0).value;
    CoverIsUnion(c, r.from, r.through);
    assert forall h :: Covered(c, h) <==> CoveredIn(s.coverage, r.domain, h);
    MissingMeans(s, r, c);
    hide WellFormed, Covered, CoveredIn, AllWinnersComplete, WinnerMissing, Generation, Contains;
  }

  ghost predicate StartAtMost(s: State, d: Domain, h: nat) {
    d in s.coverage ==> s.coverage[d].start <= h
  }

  /** A finished scan of this network, domain and generation, pinned at or above the end. */
  ghost predicate Proved(s: State, r: RangeCompletion) {
    && r.scanId in s.scans && s.scans[r.scanId].finished && s.scans[r.scanId].genesis == r.genesis
    && s.scans[r.scanId].domain == r.domain && s.scans[r.scanId].generation == r.expected
    && r.through <= s.scans[r.scanId].finalizedHeight <= U64_MAX
  }

  /** Every winner the scan discovered in the range is complete, and none is beyond `u64`. */
  ghost predicate AllWinnersComplete(s: State, r: RangeCompletion) {
    forall n :: (r.scanId, n) in s.scanWinners ==>
      n <= U64_MAX && (r.from <= n <= r.through ==> CoveredIn(s.coverage, r.domain, n))
  }

  lemma MissingMeans(s: State, r: RangeCompletion, c: Coverage)
    requires forall h :: Covered(c, h) <==> CoveredIn(s.coverage, r.domain, h)
    ensures WinnerMissing(s, r.scanId, c, r.from, r.through) <==> !AllWinnersComplete(s, r)
  {
    hide Covered, CoveredIn;
  }

  // ---------------------------------------------------------------- floors, markers, target

  /** `set_pruned_floor`: the floor stored is the floor given, and nothing else changes. */
  lemma FloorAnswers(s: State, g: Guard, floor: Option<nat>)
    requires Inv(s)
    ensures var (t, r) := SetPrunedFloor(s, g, floor);
            var current := s.genesis.Some? && Generation(s, g.domain) == g.expected;
            && (r == Err(NetworkIdentity) <==> s.genesis.None?)
            && (r == Ok(StaleGeneration) <==> s.genesis.Some? && !current)
            && (r == Ok(Applied) <==> current && (floor.Some? ==> floor.value <= U64_MAX))
            && (r == Err(Invalid) <==> current && floor.Some? && floor.value > U64_MAX)
            && (r != Ok(Applied) ==> t == s)
            && (r == Ok(Applied) ==>
                  && t == s.(coverage := t.coverage) && t.coverage.Keys == s.coverage.Keys + {g.domain}
                  && (forall d :: d in s.coverage && d != g.domain ==> t.coverage[d] == s.coverage[d])
                  && t.coverage[g.domain].prunedFloor == floor
                  && (g.domain in s.coverage ==>
                        t.coverage[g.domain].(prunedFloor := None) == s.coverage[g.domain].(prunedFloor := None))
                  && (g.domain !in s.coverage ==> Unstarted(t.coverage[g.domain], g.expected, 0)))
  {
    hide WellFormed, Generation;
  }

  /** Coverage of a generation that holds no height yet. */
  ghost predicate Unstarted(c: Coverage, gen: u64, start: nat) {
    c.gen == gen && c.start == start && c.low.None? && c.high.None? && c.gaps == []
  }

  /** `initialize_coverage`: empty coverage with the start given, once. */
  lemma InitializeAnswers(s: State, d: Domain, expected: u64, start: nat)
    ensures var (t, r) := InitializeCoverage(s, d, expected, start);
            var current := s.genesis.Some? && Generation(s, d) == expected;
            && (r == Err(NetworkIdentity) <==> s.genesis.None?)
            && (r == Ok(StaleGeneration) <==> s.genesis.Some? && !current)
            && (r == Ok(AlreadyApplied) <==> current && d in s.coverage)
            && (r == Err(Invalid) <==> current && d !in s.coverage && start > U64_MAX)
            && (r == Ok(Applied) <==> current && d !in s.coverage && start <= U64_MAX)
            && (r != Ok(Applied) ==> t == s)
            && (r == Ok(Applied) ==>
                  && t == s.(coverage := t.coverage) && t.coverage.Keys == s.coverage.Keys + {d}
                  && (forall e :: e in s.coverage ==> t.coverage[e] == s.coverage[e])
                  && Unstarted(t.coverage[d], expected, start) && t.coverage[d].prunedFloor.None?)
  {
  }

  /** `mark_unavailable`: an incomplete height of the domain that the reason belongs to is
      marked once, with its own evidence and the exact successor. */
  lemma MarkAnswers(s: State, genesis: Hash, b: Absence)
    requires Inv(s)
    ensures var (t, r) := MarkUnavailable(s, genesis, b);
            var d := b.guard.domain;
            var sane := b.height <= U64_MAX && d == (if b.reason.MissingRetainedNonce? then Winners else Difficulty);
            var current := sane && s.genesis == Some(genesis) && Generation(s, d) == b.guard.expected;
            var fits := current && HashAgrees(s, b.height, b.hash);
            && (r == Err(Invalid) <==> !sane)
            && (r == Err(NetworkIdentity) <==> sane && s.genesis != Some(genesis))
            && (r == Ok(StaleGeneration) <==> sane && s.genesis == Some(genesis) && !current)
            && (r == Err(ConflictingHistory) <==> current && !fits)
            && (fits && CoveredIn(s.coverage, d, b.height) ==> r == Ok(AlreadyApplied) && t == s)
            && (fits && !CoveredIn(s.coverage, d, b.height) ==> MarkLeft(s, t, b) && (r == Ok(Applied) <==> !MarkedAlready(s, b))
                                                                && (r == Ok(AlreadyApplied) <==> MarkedAlready(s, b)))
            && (!fits ==> t == s)
  {
    assert HashAgrees(s, b.height, b.hash) <==> !HashConflict(s, b.height, b.hash);
    hide Generation, HashAgrees, HashConflict, Contains, CoveredIn, MarkLeft;
    if b.height <= U64_MAX && Generation(s, b.guard.domain) == b.guard.expected {
      MarkChecks(s, b);
      hide Load, Inv;
      var key: (Domain, u64, u64) := (b.guard.domain, b.guard.expected, b.height);
      var marker := Marker(b.hash, b.enrichmentAt, CheckedSucc(b.height));
      var t := s.(unavailable := if key in s.unavailable then s.unavailable else s.unavailable[key := marker],
                  finalized := InsertHash(s.finalized, b.height, b.hash));
      assert MarkLeft(s, t, b) by { MarkStores(s, t, b); }
    }
  }

  lemma MarkChecks(s: State, b: Absence)
    requires CoverageInv(s) && b.height <= U64_MAX && Generation(s, b.guard.domain) == b.guard.expected
    ensures Load(s.coverage, b.guard.domain, b.guard.expected, 0).Ok?
    ensures Contains(Load(s.coverage, b.guard.domain, b.guard.expected, 0).value, b.height, b.height) <==>
            CoveredIn(s.coverage, b.guard.domain, b.height)
  {
    var c := Load(s.coverage, b.guard.domain, b.guard.expected, 0).value;
    ContainsIsPointwise(c, b.height, b.height);
    assert forall h :: Covered(c, h) <==> CoveredIn(s.coverage, b.guard.domain, h);
    hide Contains, Covered, WellFormed, Generation;
  }

  lemma MarkStores(s: State, t: State, b: Absence)
    requires b.height <= U64_MAX
    requires var key: (Domain, u64, u64) := (b.guard.domain, b.guard.expected, b.height);
             var marker := Marker(b.hash, b.enrichmentAt, CheckedSucc(b.height));
             t == s.(unavailable := if key in s.unavailable then s.unavailable else s.unavailable[key := marker],
                     finalized := InsertHash(s.finalized, b.height, b.hash))
    ensures MarkLeft(s, t, b)
  {
  }

  ghost predicate MarkedAlready(s: State, b: Absence)
    requires b.height <= U64_MAX
  {
    var key: (Domain, u64, u64) := (b.guard.domain, b.guard.expected, b.height);
    key in s.unavailable
  }

  ghost predicate MarkLeft(s: State, t: State, b: Absence)
    requires b.height <= U64_MAX
  {
    var key: (Domain, u64, u64) := (b.guard.domain, b.guard.expected, b.height);
    && t == s.(unavailable := t.unavailable, finalized := t.finalized)
    && t.unavailable.Keys == s.unavailable.Keys + {key}
    && (forall k :: k in s.unavailable ==> t.unavailable[k] == s.unavailable[k])
    && (key !in s.unavailable ==>
          && t.unavailable[key].hash == b.hash && t.unavailable[key].enrichmentAt == b.enrichmentAt
          && t.unavailable[key].next == (if b.height < U64_MAX then Some(b.height + 1) else None))
    && t.finalized == (if b.height in s.finalized then s.finalized else s.finalized[b.height := b.hash])
  }

  /** `set_finalized_target`: `Applied` means that exactly this pair is the target now. */
  lemma TargetAnswers(s: State, height: nat, hash: Hash)
    ensures var (t, r) := SetTarget(s, height, hash);
            var fits := s.genesis.Some? && (s.target.Some? ==> s.target.value.0 <= U64_MAX && height <= U64_MAX);
            && (r == Err(NetworkIdentity) <==> s.genesis.None?)
            && (r == Err(Invalid) <==> s.genesis.Some? && !fits)
            && (r == Ok(Applied) <==> fits && (s.target.Some? ==> s.target.value.0 < height))
            && (r == Ok(AlreadyApplied) <==> fits && s.target.Some? && (s.target.value.0 > height || s.target.value == (height, hash)))
            && (r == Err(ConflictingHistory) <==> fits && s.target.Some? && s.target.value.0 == height && s.target.value.1 != hash)
            && (r == Ok(Applied) ==> t == s.(target := t.target) && t.target == Some((height, hash)))
            && (r != Ok(Applied) ==> t == s)
  {
  }

  /** `bind_network`: once, to the first genesis given. */
  lemma BindAnswers(s: State, genesis: Hash)
    ensures var (t, r) := BindNetwork(s, genesis);
            && (r == Ok(Applied) <==> s.genesis.None?)
            && (r == Ok(AlreadyApplied) <==> s.genesis == Some(genesis))
            && (r == Err(NetworkIdentity) <==> s.genesis.Some? && s.genesis.value != genesis)
            && (r == Ok(Applied) ==> t == s.(genesis := t.genesis) && t.genesis == Some(genesis))
            && (r != Ok(Applied) ==> t == s)
  {
  }

  // ---------------------------------------------------------------- other record writers

  /** `insert_difficulty_snapshot`: a value that differs from the latest one is recorded at its
      height, unless the height already has a row; nothing else changes. */
  lemma SnapshotAnswers(s: State, row: D.Row, latest: Option<D.Row>)
    ensures var (t, r) := InsertSnapshot(s, row, latest);
            var before, after := s.records.difficulty, t.records.difficulty;
            && (r == Err(Invalid) <==> row.source == D.Block)
            && (r == Err(NetworkIdentity) <==> row.source == D.Poll && s.genesis.None?)
            && (r == Ok(Applied) <==> row.source == D.Poll && s.genesis.Some?)
            && t == s.(records := s.records.(difficulty := after))
            && (r.Err? || (latest.Some? && D.ValueOf(latest.value) == D.ValueOf(row)) ==> t == s)
            && (r.Ok? && (latest.Some? ==> D.ValueOf(latest.value) != D.ValueOf(row)) ==>
                  && after.polls == (if row.block in before.polls then before.polls else before.polls[row.block := row])
                  && after.visible == (if row.block in before.visible then before.visible else before.visible[row.block := row]))
  {
  }

  /** `try_authorship_cutover`: done exactly when it was done already or every legacy count is
      reached by facts; otherwise nothing changes. */
  lemma CutoverAnswers(s: State)
    ensures var (t, r) := TryCutover(s);
            var before, after := s.records.authorship, t.records.authorship;
            var reached := before.cutover || forall v :: v in before.summary ==> before.summary[v].blocks <= |A.FactsOf(before.facts, v)|;
            && (r == Err(NetworkIdentity) <==> s.genesis.None?)
            && (r == Ok(true) <==> s.genesis.Some? && reached)
            && (r == Ok(false) <==> s.genesis.Some? && !reached)
            && t == s.(records := s.records.(authorship := after))
            && after.facts == before.facts
            && (r == Ok(true) ==> after.cutover) && (r != Ok(true) ==> t == s)
            && (r == Ok(true) && !before.cutover ==>
                  forall v :: (v in after.summary <==> v in before.summary || v in A.Authors(before.facts))
                              && (v in A.Authors(before.facts) ==> after.summary[v] == A.FromFacts(before.facts, v)))
  {
  }

  // ---------------------------------------------------------------- reindex

  /** What a reindex leaves of the domains it was asked for. Their coverage is gone, except
      that authorship keeps a start above zero, as coverage of the next generation without
      any height; their records, scans, discovered winners and absence markers are gone,
      except preserved poll rows and the authorship floor. */
  ghost predicate Restarted(s: State, t: State, ds: set<Domain>) {
    && (forall d :: d in ds ==> Generation(t, d) == Generation(s, d) + 1)
    && (forall d :: d in ds && !(d == Authorship && d in s.coverage && s.coverage[d].start > 0) ==> d !in t.coverage)
    && (Authorship in ds && Authorship in s.coverage && s.coverage[Authorship].start > 0 ==>
          && Authorship in t.coverage && t.coverage[Authorship].prunedFloor.None?
          && Unstarted(t.coverage[Authorship], Generation(s, Authorship) + 1, s.coverage[Authorship].start))
    && (forall id :: id in t.scans ==> t.scans[id].domain !in ds)
    && (forall k :: k in t.unavailable ==> k.0 !in ds)
    && (Winners in ds ==> t.records.winners.blocks == map[] && t.records.winners.summary == map[])
    && (Participation in ds ==> t.records.participation == map[])
    && (Authorship in ds ==>
          && t.records.authorship.facts == map[] && !t.records.authorship.cutover
          && t.records.authorship.summary == s.records.authorship.summary)
    && (Difficulty in ds ==> WithoutBlockRows(s.records.difficulty, t.records.difficulty))
  }

  /** Block rows are gone, poll rows are not. */
  ghost predicate WithoutBlockRows(t: D.Tables, u: D.Tables) {
    && u.polls == t.polls
    && (forall n :: n in u.visible <==> n in t.polls || (n in t.visible && !D.HasBlockRow(t, n)))
    && (forall n :: n in t.visible && !D.HasBlockRow(t, n) ==> u.visible[n] == t.visible[n])
    && (forall n :: n in t.polls && (n !in t.visible || D.HasBlockRow(t, n)) ==> u.visible[n] == t.polls[n])
  }

  /** The other domains, and what belongs to no domain, stay as they are. */
  ghost predicate Unaffected(s: State, t: State, ds: set<Domain>) {
    && t.genesis == s.genesis && t.finalized == s.finalized && t.target == s.target
    && (forall d :: d !in ds ==> Generation(t, d) == Generation(s, d))
    && (forall d :: d !in ds ==> (d in t.coverage <==> d in s.coverage) && (d in s.coverage ==> t.coverage[d] == s.coverage[d]))
    && (forall id :: id in s.scans && s.scans[id].domain !in ds ==> id in t.scans && t.scans[id] == s.scans[id])
    && (forall id, n :: id in s.scans && s.scans[id].domain !in ds ==> ((id, n) in t.scanWinners <==> (id, n) in s.scanWinners))
    && (forall k :: k in s.unavailable && k.0 !in ds ==> k in t.unavailable && t.unavailable[k] == s.unavailable[k])
    && (Winners !in ds ==> t.records.winners == s.records.winners)
    && (Difficulty !in ds ==> t.records.difficulty == s.records.difficulty)
    && (Participation !in ds ==> t.records.participation == s.records.participation)
    && (Authorship !in ds ==> t.records.authorship == s.records.authorship)
  }

  /** A reindex fails only on an unbound store or an exhausted generation, and then changes
      nothing; the guards it returns are the generations to write with from now on. */
  lemma ReindexAnswers(s: State, ds: set<Domain>)
    requires Inv(s)
    ensures var (t, r) := Reindex(s, ds);
            && (r == Err(NetworkIdentity) <==> s.genesis.None?)
            && (r.Ok? <==> s.genesis.Some? && forall d :: d in ds ==> Generation(s, d) < U64_MAX)
            && (r.Err? ==> t == s && (r.error == NetworkIdentity || r.error == Invalid))
            && (r.Ok? ==> Restarted(s, t, ds) && Unaffected(s, t, ds))
            && (r.Ok? ==> forall g :: g in r.value <==> g.domain in ds && g.expected == Generation(t, g.domain))
  {
    assert ReindexBlocked(s, ds) <==> exists d :: d in ds && Generation(s, d) == U64_MAX by { hide Generation, WellFormed; }
    if s.genesis.Some? && !ReindexBlocked(s, ds) {
      ReindexRestarts(s, ds);
      ReindexSpares(s, ds);
      forall d ensures Generation(Reindex(s, ds).0, d) == Generation(s, d) + if d in ds then 1 else 0 {
        ReindexGenerations(s, ds, d);
      }
    }
    hide Inv, ReindexBlocked, ReindexCoverage, ReindexRecords, Restarted, Unaffected, Generation;
  }

  lemma ReindexRestarts(s: State, ds: set<Domain>)
    requires s.genesis.Some? && !ReindexBlocked(s, ds)
    ensures Restarted(s, Reindex(s, ds).0, ds)
  {
    forall d ensures Generation(Reindex(s, ds).0, d) == Generation(s, d) + if d in ds then 1 else 0 {
      ReindexGenerations(s, ds, d);
    }
    CoverageRestarts(s, ds);
    RecordsRestart(s.records, ds);
    hide Generation, ReindexBlocked, ReindexCoverage, ReindexRecords, Unstarted, WithoutBlockRows;
  }

  lemma CoverageRestarts(s: State, ds: set<Domain>)
    requires !ReindexBlocked(s, ds)
    ensures var m := ReindexCoverage(s, ds);
            && (forall d :: d in ds && !(d == Authorship && d in s.coverage && s.coverage[d].start > 0) ==> d !in m)
            && (Authorship in ds && Authorship in s.coverage && s.coverage[Authorship].start > 0 ==>
                  && Authorship in m && m[Authorship].prunedFloor.None?
                  && Unstarted(m[Authorship], Generation(s, Authorship) + 1, s.coverage[Authorship].start))
  {
    hide Generation;
  }

  lemma RecordsRestart(t: Records, ds: set<Domain>)
    ensures var u := ReindexRecords(t, ds);
            && (Winners in ds ==> u.winners.blocks == map[] && u.winners.summary == map[])
            && (Participation in ds ==> u.participation == map[])
            && (Authorship in ds ==>
                  u.authorship.facts == map[] && !u.authorship.cutover && u.authorship.summary == t.authorship.summary)
            && (Difficulty in ds ==> WithoutBlockRows(t.difficulty, u.difficulty))
  {
  }

  lemma ReindexSpares(s: State, ds: set<Domain>)
    requires s.genesis.Some? && !ReindexBlocked(s, ds)
    ensures Unaffected(s, Reindex(s, ds).0, ds)
  {
    forall d ensures Generation(Reindex(s, ds).0, d) == Generation(s, d) + if d in ds then 1 else 0 {
      ReindexGenerations(s, ds, d);
    }
    hide Generation, ReindexBlocked, D.Reindex, A.Reindex, EmptyCoverage;
  }
}
