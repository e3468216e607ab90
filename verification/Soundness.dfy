/** Whole-run guarantees: where covered heights come from, fencing and identity. */
module Soundness {
  import opened Prelude
  import opened CoverageAlgebra
  import opened StoreModel
  import opened Protocol
  import D = DifficultyTables
  import A = AuthorshipTables

  // ---------------------------------------------------------------- completions of a run

  type Completion = (Domain, u64, int)

  /** What one transaction completes: the domains of a commit that took effect, in the
      generation they had, at the commit's height. */
  ghost function Completions(s: State, op: Op): set<Completion> {
    if op.OpCommit? && (CommitBlock(s, op.batch).1 == Ok(Applied) || CommitBlock(s, op.batch).1 == Ok(AlreadyApplied))
    then set d | d in op.batch.completed :: (d, Generation(s, d), op.batch.height as int)
    else {}
  }

  /** Everything completed by the commits of a run from the fresh store. */
  ghost function History(ops: seq<Op>): set<Completion> {
    if ops == [] then {}
    else
      var init := ops[..|ops| - 1];
      History(init) + Completions(After(FreshStore(), init), ops[|ops| - 1])
  }

  /** A finished scan of the domain's generation, pinned at or above the height, found no
      winner there. */
  ghost predicate Excluded(s: State, d: Domain, h: int) {
    exists id :: 0 <= h && ScanProves(s, id, d, Generation(s, d), h) && (id, h) !in s.scanWinners
  }

  /** Every covered height was completed by a commit of this generation or, for sparse
      domains, is excluded by a finished scan. */
  ghost predicate Sound(s: State, history: set<Completion>) {
    forall d, h :: CoveredIn(s.coverage, d, h) ==>
      (d, Generation(s, d), h) in history || (d != Authorship && Excluded(s, d, h))
  }

  /** Nothing completed in the current generation is ever lost from coverage. */
  ghost predicate Retained(s: State, history: set<Completion>) {
    && (forall c :: c in history ==> c.1 <= Generation(s, c.0))
    && (forall c :: c in history && c.1 == Generation(s, c.0) ==> CoveredIn(s.coverage, c.0, c.2))
  }

  // ---------------------------------------------------------------- one step

  lemma ExcludedPersists(s: State, t: State, d: Domain, h: int)
    requires Excluded(s, d, h) && Generation(s, d) == Generation(t, d) && SameGenerationKeeps(s, t, d)
    ensures Excluded(t, d, h)
  {
    var id :| 0 <= h && ScanProves(s, id, d, Generation(s, d), h) && (id, h) !in s.scanWinners;
    assert t.scans[id] == s.scans[id];
    assert ScanProves(t, id, d, Generation(t, d), h);
  }

  lemma CommitOrigin(s: State, b: BlockCommit, d: Domain, h: int)
    requires Inv(s) && CoveredIn(CommitBlock(s, b).0.coverage, d, h)
    ensures Generation(CommitBlock(s, b).0, d) == Generation(s, d)
    ensures CoveredIn(s.coverage, d, h) || (d, Generation(s, d), h) in Completions(s, OpCommit(b))
  {
    var t := CommitBlock(s, b).0;
    if t != s {
      CommitShape(s, b);
      CompleteAllSpec(s, b.completed, b.height);
      CommitSucceeds(s, b);
      hide CommitBlock, CompleteAll, WriteRecords, WellFormed, Covered, HashConflict, BadProvenance, Inv;
    }
  }

  lemma CommitSucceeds(s: State, b: BlockCommit)
    requires CommitBlock(s, b).0 != s
    ensures CommitBlock(s, b).1 == Ok(Applied) || CommitBlock(s, b).1 == Ok(AlreadyApplied)
  {
    hide CompleteAll, HashConflict, AllGuarded, DuplicateGuards, AnyStale, WriteRecords, BadProvenance;
  }

  lemma RangeOrigin(s: State, r: RangeCompletion, d: Domain, h: int)
    requires Inv(s) && CoveredIn(CommitRange(s, r).0.coverage, d, h)
    ensures Generation(CommitRange(s, r).0, d) == Generation(s, d)
    ensures CoveredIn(s.coverage, d, h) || (d != Authorship && Excluded(CommitRange(s, r).0, d, h))
  {
    var t := CommitRange(s, r).0;
    if t != s && !CoveredIn(s.coverage, d, h) {
      var c := Load(s.coverage, r.domain, r.expected, 0).value;
      CoverIsUnion(c, r.from, r.through);
      assert t == s.(coverage := s.coverage[r.domain := CoverValue(c, r.from, r.through).value.0]);
      assert d == r.domain && r.from <= h <= r.through;
      assert ScanProves(t, r.scanId, d, Generation(t, d), h);
      assert !Covered(c, h);
      assert (r.scanId, h) !in t.scanWinners;
    }
  }

  lemma ReindexOrigin(s: State, ds: set<Domain>, d: Domain, h: int)
    requires Inv(s) && CoveredIn(Reindex(s, ds).0.coverage, d, h)
    ensures Generation(Reindex(s, ds).0, d) == Generation(s, d)
    ensures CoveredIn(s.coverage, d, h)
  {
    var t := Reindex(s, ds).0;
    if t != s {
      ReindexGenerations(s, ds, d);
    }
  }

  lemma CoverageWritersOrigin(s: State, op: Op, d: Domain, h: int)
    requires op.OpFloor? || op.OpInitialize?
    requires CoveredIn(Step(s, op).coverage, d, h)
    ensures Generation(Step(s, op), d) == Generation(s, d) && CoveredIn(s.coverage, d, h)
  {
    hide WellFormed;
  }

  lemma OthersOrigin(s: State, op: Op)
    requires !op.OpCommit? && !op.OpRange? && !op.OpReindex? && !op.OpFloor? && !op.OpInitialize?
    ensures Step(s, op).coverage == s.coverage && Step(s, op).generations == s.generations
  {
    if op.OpBegin? || op.OpAppend? || op.OpMark? {
      hide WellFormed, Contains, HashConflict, Load;
    } else {
      OthersLeaveProtocol(s, op);
      hide Step;
    }
  }

  /** Where a covered height comes from, for every kind of transaction. */
  lemma CoverageOrigin(s: State, op: Op, d: Domain, h: int)
    requires Inv(s) && CoveredIn(Step(s, op).coverage, d, h)
    ensures Generation(Step(s, op), d) == Generation(s, d)
    ensures || CoveredIn(s.coverage, d, h)
            || (d, Generation(s, d), h) in Completions(s, op)
            || (d != Authorship && Excluded(Step(s, op), d, h))
  {
    if op.OpFloor? || op.OpInitialize? {
      CoverageWritersOrigin(s, op, d, h);
      hide Step;
    } else if op.OpCommit? || op.OpRange? || op.OpReindex? {
      hide CommitBlock, CommitRange, Reindex, Inv;
      if op.OpCommit? {
        CommitOrigin(s, op.batch, d, h);
      } else if op.OpRange? {
        RangeOrigin(s, op.range, d, h);
      } else {
        ReindexOrigin(s, op.domains, d, h);
      }
    } else {
      OthersOrigin(s, op);
      hide Step;
    }
  }

  lemma StepSound(s: State, history: set<Completion>, op: Op)
    requires Inv(s) && Sound(s, history)
    ensures Sound(Step(s, op), history + Completions(s, op))
  {
    var t := Step(s, op);
    StepFollows(s, op);
    forall d, h | CoveredIn(t.coverage, d, h)
      ensures (d, Generation(t, d), h) in history + Completions(s, op) || (d != Authorship && Excluded(t, d, h))
    {
      CoverageOrigin(s, op, d, h);
      hide Step, Inv, CoveredIn, Completions;
      if CoveredIn(s.coverage, d, h) && (d, Generation(s, d), h) !in history {
        ExcludedPersists(s, t, d, h);
      }
    }
  }

  lemma CommitCompletes(s: State, b: BlockCommit, d: Domain)
    requires Inv(s) && (d, Generation(s, d), b.height as int) in Completions(s, OpCommit(b))
    ensures Generation(CommitBlock(s, b).0, d) == Generation(s, d)
    ensures CoveredIn(CommitBlock(s, b).0.coverage, d, b.height)
  {
    assert d in b.completed;
    var t := CommitBlock(s, b).0;
    CommitEffect(s, b);
    CompleteAllSpec(s, b.completed, b.height);
    hide CommitBlock, CompleteAll, WriteRecords, WellFormed, Covered, Inv;
  }

  lemma CommitEffect(s: State, b: BlockCommit)
    requires CommitBlock(s, b).1 == Ok(Applied) || CommitBlock(s, b).1 == Ok(AlreadyApplied)
    ensures b.height <= U64_MAX && CompleteAll(s, b.completed, b.height).Ok?
    ensures CommitBlock(s, b).0.coverage == CompleteAll(s, b.completed, b.height).value.0
    ensures CommitBlock(s, b).0.generations == s.generations
  {
    hide CompleteAll, HashConflict, AllGuarded, DuplicateGuards, AnyStale, WriteRecords, BadProvenance;
  }

  lemma StepRetains(s: State, history: set<Completion>, op: Op)
    requires Inv(s) && Retained(s, history)
    ensures Retained(Step(s, op), history + Completions(s, op))
  {
    var t := Step(s, op);
    StepFollows(s, op);
    forall c | c in history + Completions(s, op)
      ensures c.1 <= Generation(t, c.0)
      ensures c.1 == Generation(t, c.0) ==> CoveredIn(t.coverage, c.0, c.2)
    {
      if c !in history {
        CommitCompletes(s, op.batch, c.0);
      } else {
        assert SameGenerationKeeps(s, t, c.0) || Generation(s, c.0) < Generation(t, c.0);
      }
    }
  }

  // ---------------------------------------------------------------- whole runs

  lemma {:induction false} RunSound(ops: seq<Op>)
    ensures var s := After(FreshStore(), ops); Inv(s) && Sound(s, History(ops)) && Retained(s, History(ops))
  {
    FreshInv();
    AfterKeepsInv(FreshStore(), ops);
    if ops != [] {
      var init := ops[..|ops| - 1];
      RunSound(init);
      StepSound(After(FreshStore(), init), History(init), ops[|ops| - 1]);
      StepRetains(After(FreshStore(), init), History(init), ops[|ops| - 1]);
    }
  }

  /** Completed by a commit of the run, in this generation. */
  ghost predicate CommittedBy(ops: seq<Op>, d: Domain, gen: u64, h: int) {
    exists k :: 0 <= k < |ops| && (d, gen, h) in Completions(After(FreshStore(), ops[..k]), ops[k])
  }

  lemma {:induction false} HistoryIsCommits(ops: seq<Op>, d: Domain, gen: u64, h: int)
    ensures (d, gen, h) in History(ops) <==> CommittedBy(ops, d, gen, h)
  {
    hide Completions, After;
    if ops != [] {
      var init := ops[..|ops| - 1];
      HistoryIsCommits(init, d, gen, h);
      if CommittedBy(init, d, gen, h) {
        var k :| 0 <= k < |init| && (d, gen, h) in Completions(After(FreshStore(), init[..k]), init[k]);
        assert ops[..k] == init[..k] && ops[k] == init[k];
      }
      if CommittedBy(ops, d, gen, h) && (d, gen, h) !in Completions(After(FreshStore(), init), ops[|ops| - 1]) {
        var k :| 0 <= k < |ops| && (d, gen, h) in Completions(After(FreshStore(), ops[..k]), ops[k]);
        assert ops[..k] == init[..k] && ops[k] == init[k];
      }
    }
  }

  /** Soundness of coverage over whole runs: a covered height of a sparse domain was
      completed by a commit of the current generation, or a finished scan of that domain
      and generation, pinned at or above it, holds no winner there. */
  lemma CoverageSoundness(ops: seq<Op>, d: Domain, h: int)
    requires CoveredIn(After(FreshStore(), ops).coverage, d, h)
    ensures var s := After(FreshStore(), ops);
            CommittedBy(ops, d, Generation(s, d), h) || (d != Authorship && Excluded(s, d, h))
  {
    RunSound(ops);
    HistoryIsCommits(ops, d, Generation(After(FreshStore(), ops), d), h);
  }

  /** Authorship coverage is exactly what the commits of the generation completed. */
  lemma AuthorshipCoverageIsCommits(ops: seq<Op>, h: int)
    ensures var s := After(FreshStore(), ops);
            CoveredIn(s.coverage, Authorship, h) <==> CommittedBy(ops, Authorship, Generation(s, Authorship), h)
  {
    RunSound(ops);
    HistoryIsCommits(ops, Authorship, Generation(After(FreshStore(), ops), Authorship), h);
  }

  // ---------------------------------------------------------------- fencing and identity

  /** The call carries this generation of this domain. */
  ghost predicate Carries(op: Op, d: Domain, gen: u64) {
    match op
    case OpCommit(b) => Guard(d, gen) in b.guards
    case OpBegin(scan) => scan.domain == d && scan.expected == gen
    case OpRange(r) => r.domain == d && r.expected == gen
    case OpFloor(g, _) => g == Guard(d, gen)
    case OpInitialize(e, expected, _) => e == d && expected == gen
    case OpMark(_, b) => b.guard == Guard(d, gen)
    case _ => false
  }

  lemma StaleCallChangesNothing(s: State, op: Op, d: Domain, gen: u64)
    requires Carries(op, d, gen) && Generation(s, d) != gen
    ensures Step(s, op) == s
  {
    hide Load, HashConflict, WriteRecords, CompleteAll, Generation, AllGuarded, DuplicateGuards, BadProvenance;
  }

  /** A call that carries an outdated generation changes nothing, however the run goes on. */
  lemma FencedForever(s: State, later: seq<Op>, op: Op, d: Domain, gen: u64)
    requires Inv(s) && Carries(op, d, gen) && gen < Generation(s, d)
    ensures Step(After(s, later), op) == After(s, later)
  {
    AfterFollows(s, later);
    StaleCallChangesNothing(After(s, later), op, d, gen);
  }

  /** Generations move only by a successful reindex of the domain, one at a time. */
  lemma GenerationMovesByOne(s: State, op: Op, d: Domain)
    ensures Generation(Step(s, op), d) == Generation(s, d) +
            if op.OpReindex? && Reindex(s, op.domains).1.Ok? && d in op.domains then 1 else 0
  {
    match op
    case OpReindex(ds) => if Reindex(s, ds).1.Ok? { ReindexGenerations(s, ds, d); }
    case OpCommit(b) => if CommitBlock(s, b).0 != s { CommitShape(s, b); hide CommitBlock, CompleteAll, WriteRecords; }
    case OpFloor(_, _) => hide Load;
    case OpInitialize(_, _, _) =>
    case OpRange(_) => hide Load, WinnerMissing;
    case _ => OthersOrigin(s, op);
  }

  /** An identifier that no call begins stays absent. */
  lemma StepKeepsAbsent(s: State, op: Op, id: string)
    requires id !in s.scans && !(op.OpBegin? && op.scan.id == id && id != "")
    ensures id !in Step(s, op).scans
  {
    if op.OpAppend? {
      if AppendPage(s, op.page).0 != s { AppendShape(s, op.page); }
      hide AppendPage;
    } else if op.OpReindex? {
      hide ReindexBlocked, ReindexCoverage, ReindexRecords, Generation;
    } else if !op.OpBegin? {
      OthersKeepScans(s, op);
      hide Step;
    }
  }

  lemma {:induction false} StaysAbsent(s: State, later: seq<Op>, id: string)
    requires id !in s.scans && forall i :: 0 <= i < |later| ==> !(later[i].OpBegin? && later[i].scan.id == id && id != "")
    ensures id !in After(s, later).scans
    decreases |later|
  {
    hide Step;
    if later != [] {
      StaysAbsent(s, later[..|later| - 1], id);
      StepKeepsAbsent(After(s, later[..|later| - 1]), later[|later| - 1], id);
    }
  }

  lemma AbsentScanRefusesPages(s: State, p: Page)
    requires p.id !in s.scans
    ensures AppendPage(s, p).0 == s && AppendPage(s, p).1.Err?
  {
  }

  /** A reindexed scan is gone: until its identifier is begun again, a page for it is refused
      and changes nothing, however the run goes on. */
  lemma ReindexedScanRefusesPages(s: State, ds: set<Domain>, p: Page, later: seq<Op>)
    requires Inv(s) && Reindex(s, ds).1.Ok? && p.id in s.scans && s.scans[p.id].domain in ds
    requires forall i :: 0 <= i < |later| ==> !(later[i].OpBegin? && later[i].scan.id == p.id)
    ensures var t := After(Reindex(s, ds).0, later); AppendPage(t, p).0 == t && AppendPage(t, p).1.Err?
  {
    assert p.id !in Reindex(s, ds).0.scans by { hide ReindexBlocked, ReindexCoverage, ReindexRecords; }
    hide Reindex, AppendPage;
    StaysAbsent(Reindex(s, ds).0, later, p.id);
    AbsentScanRefusesPages(After(Reindex(s, ds).0, later), p);
  }

  /** Identity over whole runs: a finalized hash never changes, even across reindex; every
      stored winner row agrees with it; the target never moves down or changes hash. */
  lemma IdentityForever(ops: seq<Op>, later: seq<Op>)
    ensures var s, t := After(FreshStore(), ops), After(FreshStore(), ops + later);
            && (forall n :: n in s.finalized ==> n in t.finalized && t.finalized[n] == s.finalized[n])
            && IdentityInv(t)
            && TargetKept(s, t)
  {
    FreshInv();
    AfterKeepsInv(FreshStore(), ops);
    AfterAppend(FreshStore(), ops, later);
    AfterFollows(After(FreshStore(), ops), later);
  }

  // ---------------------------------------------------------------- the finalized target

  /** A stored target moves exactly when both heights fit `u64` and the new one is greater. */
  lemma TargetMovesIff(s: State, height: nat, hash: Hash)
    requires s.genesis.Some? && s.target.Some?
    ensures SetTarget(s, height, hash).0.target != s.target <==>
            s.target.value.0 <= U64_MAX && height <= U64_MAX && s.target.value.0 < height
    ensures SetTarget(s, height, hash).1 == Ok(Applied) <==> SetTarget(s, height, hash).0.target != s.target
  {
  }

  /** The first target is stored unchecked, whatever its height. */
  lemma OversizedTargetExample()
    ensures var s := After(FreshStore(), [OpBind(7)]);
            SetTarget(s, U64_MAX + 1, 9) == (s.(target := Some((U64_MAX + 1, 9))), Ok(Applied))
  {
    assert [OpBind(7)][..0] == [];
    assert After(FreshStore(), [OpBind(7)]) == Step(After(FreshStore(), []), OpBind(7));
  }

  /** Only `set_finalized_target` touches the target. */
  lemma OthersKeepTarget(s: State, op: Op)
    requires !op.OpTarget?
    ensures Step(s, op).target == s.target
  {
    match op
    case OpCommit(b) => if CommitBlock(s, b).0 != s { CommitShape(s, b); } hide CommitBlock;
    case OpReindex(ds) => ReindexBasics(s, ds); hide Reindex;
    case OpMark(g, b) => if MarkUnavailable(s, g, b).0 != s { MarkShape(s, g, b); } hide MarkUnavailable;
    case OpRange(_) => hide Load, WinnerMissing, CoverValue;
    case OpFloor(_, _) => hide Load;
    case OpSnapshot(_, _) => hide D.Snapshot;
    case OpCutover => hide A.TryCutover;
    case _ =>
  }

  /** Once the stored target exceeds `u64` it is the target of every later state. */
  lemma {:induction false} OversizedTargetSticks(s: State, ops: seq<Op>)
    requires Inv(s) && s.genesis.Some? && s.target.Some? && s.target.value.0 > U64_MAX
    ensures After(s, ops).target == s.target
    decreases |ops|
  {
    if ops != [] {
      var init, op := ops[..|ops| - 1], ops[|ops| - 1];
      OversizedTargetSticks(s, init);
      AfterFollows(s, init);
      var t := After(s, init);
      if op.OpTarget? {
        TargetMovesIff(t, op.height, op.hash);
      } else {
        OthersKeepTarget(t, op);
      }
    }
  }
}
