/** Where the values of a reachable store come from: every target, marker, floor and start
    was brought by a call of the run. */
module Origins {
  import opened Prelude
  import opened CoverageAlgebra
  import opened StoreModel
  import opened Protocol
  import opened Soundness
  import opened Effects

  /** Some call of the run satisfies the condition. */
  ghost predicate Called(ops: seq<Op>, wanted: Op -> bool) {
    exists i :: 0 <= i < |ops| && wanted(ops[i])
  }

  lemma CalledEarlier(ops: seq<Op>, wanted: Op -> bool)
    requires ops != [] && Called(ops[..|ops| - 1], wanted)
    ensures Called(ops, wanted)
  {
    var i :| 0 <= i < |ops| - 1 && wanted(ops[..|ops| - 1][i]);
    assert wanted(ops[i]);
  }

  lemma CalledLast(ops: seq<Op>, wanted: Op -> bool)
    requires ops != [] && wanted(ops[|ops| - 1])
    ensures Called(ops, wanted)
  {
  }

  // ---------------------------------------------------------------- the finalized target

  function Targets(target: (nat, Hash)): Op -> bool {
    (op: Op) => op == OpTarget(target.0, target.1)
  }

  /** A step keeps the target or sets its own. */
  lemma StepTarget(s: State, op: Op)
    ensures var t := Step(s, op); t.target == s.target || (t.target.Some? && op == OpTarget(t.target.value.0, t.target.value.1))
  {
    if op.OpTarget? {
      TargetAnswers(s, op.height, op.hash);
      hide SetTarget;
    } else {
      OthersKeepTarget(s, op);
      hide Step;
    }
  }

  /** The target of every reachable state is a pair that one call carried. */
  lemma {:induction false} TargetOrigin(ops: seq<Op>)
    ensures var s := After(FreshStore(), ops); s.target.Some? ==> Called(ops, Targets(s.target.value))
  {
    hide Step, Called;
    if ops != [] {
      var init, op := ops[..|ops| - 1], ops[|ops| - 1];
      TargetOrigin(init);
      var s := After(FreshStore(), init);
      StepTarget(s, op);
      var t := Step(s, op).target;
      if t.Some? {
        if t == s.target {
          CalledEarlier(ops, Targets(t.value));
        } else {
          CalledLast(ops, Targets(t.value));
        }
      }
    }
  }

  /** As long as heights fit `u64`, no target given to a bound store exceeds the stored one. */
  lemma {:induction false} TargetIsGreatest(s: State, ops: seq<Op>, i: nat)
    requires Inv(s) && s.genesis.Some? && (s.target.Some? ==> s.target.value.0 <= U64_MAX)
    requires forall j :: 0 <= j < |ops| && ops[j].OpTarget? ==> ops[j].height <= U64_MAX
    requires i < |ops| && ops[i].OpTarget?
    ensures var t := After(s, ops).target; t.Some? && ops[i].height <= t.value.0
    decreases |ops|
  {
    hide Step, Inv, Follows;
    var init, op := ops[..|ops| - 1], ops[|ops| - 1];
    assert Follows(s, After(s, init)) by { AfterFollows(s, init); }
    TargetFits(s, init);
    StillBound(s, After(s, init));
    if i < |init| {
      TargetIsGreatest(s, init, i);
    }
    StepRaises(After(s, init), op);
  }

  lemma StillBound(s: State, t: State)
    requires Follows(s, t) && s.genesis.Some?
    ensures t.genesis.Some?
  {
  }

  /** A step of a bound store raises the target to what it was given, and never lowers it. */
  lemma StepRaises(s: State, op: Op)
    requires s.genesis.Some? && (s.target.Some? ==> s.target.value.0 <= U64_MAX)
    requires op.OpTarget? ==> op.height <= U64_MAX
    ensures var t := Step(s, op).target;
            && (s.target.Some? ==> t.Some? && s.target.value.0 <= t.value.0)
            && (op.OpTarget? ==> t.Some? && op.height <= t.value.0)
            && (t.Some? ==> t.value.0 <= U64_MAX)
  {
    if op.OpTarget? {
      TargetAnswers(s, op.height, op.hash);
      hide SetTarget;
    } else {
      OthersKeepTarget(s, op);
      hide Step;
    }
  }

  lemma {:induction false} TargetFits(s: State, ops: seq<Op>)
    requires Inv(s) && s.genesis.Some? && (s.target.Some? ==> s.target.value.0 <= U64_MAX)
    requires forall j :: 0 <= j < |ops| && ops[j].OpTarget? ==> ops[j].height <= U64_MAX
    ensures var t := After(s, ops); t.target.Some? ==> t.target.value.0 <= U64_MAX
    decreases |ops|
  {
    hide Step, Inv, Follows;
    if ops != [] {
      var init, op := ops[..|ops| - 1], ops[|ops| - 1];
      TargetFits(s, init);
      assert Follows(s, After(s, init)) by { AfterFollows(s, init); }
      StillBound(s, After(s, init));
      StepRaises(After(s, init), op);
    }
  }

  // ---------------------------------------------------------------- absence markers

  /** The call marked this height of this domain generation, with this evidence. */
  function Marks(key: (Domain, u64, u64), marker: Marker): Op -> bool {
    (op: Op) =>
      && op.OpMark? && op.absence.guard == Guard(key.0, key.1) && op.absence.height == key.2
      && op.absence.hash == marker.hash && op.absence.enrichmentAt == marker.enrichmentAt
      && (if op.absence.reason.MissingRetainedNonce? then key.0 == Winners else key.0 == Difficulty)
  }

  /** Only marking adds a marker. */
  lemma OthersAddNoMarker(s: State, op: Op, key: (Domain, u64, u64))
    requires !op.OpMark? && key in Step(s, op).unavailable
    ensures key in s.unavailable && Step(s, op).unavailable[key] == s.unavailable[key]
  {
    hide Generation, Load, WinnerMissing, ReindexCoverage, ReindexRecords, ReindexBlocked;
    if op.OpCommit? {
      if CommitBlock(s, op.batch).0 != s { CommitShape(s, op.batch); }
      hide CommitBlock, CompleteAll, WriteRecords;
    } else if !op.OpReindex? && !op.OpFloor? && !op.OpInitialize? && !op.OpRange? {
      OthersKeepCoverage(s, op);
      hide Step;
    }
  }

  lemma MarkAddsItsOwn(s: State, genesis: Hash, b: Absence, key: (Domain, u64, u64))
    requires Inv(s) && key in MarkUnavailable(s, genesis, b).0.unavailable
    ensures var t := MarkUnavailable(s, genesis, b).0;
            || (key in s.unavailable && t.unavailable[key] == s.unavailable[key])
            || Marks(key, t.unavailable[key])(OpMark(genesis, b))
  {
    MarkAnswers(s, genesis, b);
    hide MarkUnavailable, Inv, HashAgrees, CoveredIn, Generation;
  }

  /** Every marker of a reachable state was set by a call for its domain, generation and
      height, with its evidence and a reason of its domain. */
  lemma {:induction false} MarkerOrigin(ops: seq<Op>, key: (Domain, u64, u64))
    requires key in After(FreshStore(), ops).unavailable
    ensures Called(ops, Marks(key, After(FreshStore(), ops).unavailable[key]))
  {
    if ops != [] {
      var init, op := ops[..|ops| - 1], ops[|ops| - 1];
      FreshInv();
      AfterKeepsInv(FreshStore(), init);
      var s := After(FreshStore(), init);
      var marker := Step(s, op).unavailable[key];
      if op.OpMark? {
        MarkAddsItsOwn(s, op.markGenesis, op.absence, key);
        if Marks(key, marker)(op) { CalledLast(ops, Marks(key, marker)); }
        hide MarkUnavailable;
      } else {
        OthersAddNoMarker(s, op, key);
      }
      hide Step, Inv, Marks;
      if key in s.unavailable && s.unavailable[key] == marker {
        MarkerOrigin(init, key);
        CalledEarlier(ops, Marks(key, marker));
      }
    }
  }

  // ---------------------------------------------------------------- starts and floors

  /** The call sets this floor for the domain. */
  function SetsFloor(d: Domain, floor: u64): Op -> bool {
    (op: Op) => op.OpFloor? && op.guard.domain == d && op.floor == Some(floor as nat)
  }

  /** The call creates coverage with this start: an initialization, or for authorship the
      first commit that completes it. */
  function SetsStart(d: Domain, start: u64): Op -> bool {
    (op: Op) =>
      || (op.OpInitialize? && op.domain == d && op.start == start)
      || (d == Authorship && op.OpCommit? && Authorship in op.batch.completed && op.batch.height == start)
  }

  ghost predicate SameStart(s: State, t: State, d: Domain)
    requires d in t.coverage
  {
    d in s.coverage && t.coverage[d].start == s.coverage[d].start
  }

  ghost predicate SameFloorAs(s: State, t: State, d: Domain)
    requires d in t.coverage
  {
    d in s.coverage && t.coverage[d].prunedFloor == s.coverage[d].prunedFloor
  }

  ghost predicate ParametersAfter(s: State, op: Op, t: State, d: Domain)
    requires d in t.coverage
  {
    && (SameStart(s, t, d) || t.coverage[d].start == 0 || SetsStart(d, t.coverage[d].start)(op))
    && (|| SameFloorAs(s, t, d) || t.coverage[d].prunedFloor.None?
        || SetsFloor(d, t.coverage[d].prunedFloor.value)(op))
  }

  lemma CommitParameters(s: State, b: BlockCommit, d: Domain)
    requires Inv(s) && d in CommitBlock(s, b).0.coverage
    ensures ParametersAfter(s, OpCommit(b), CommitBlock(s, b).0, d)
  {
    if CommitBlock(s, b).0 != s {
      CommitShape(s, b);
      CompleteAllSpec(s, b.completed, b.height);
      hide CommitBlock, CompleteAll, WriteRecords, HashConflict, BadProvenance, WellFormed, ScanInv, MarkInv, IdentityInv;
    }
  }

  lemma RangeParameters(s: State, r: RangeCompletion, d: Domain)
    requires Inv(s) && d in CommitRange(s, r).0.coverage
    ensures ParametersAfter(s, OpRange(r), CommitRange(s, r).0, d)
  {
    if CommitRange(s, r).0 != s {
      CoverIsUnion(Load(s.coverage, r.domain, r.expected, 0).value, r.from, r.through);
    }
    hide WinnerMissing, ScanProves, Generation, CoverValue, WellFormed, ScanInv, MarkInv, IdentityInv;
  }

  lemma FloorParameters(s: State, g: Guard, floor: Option<nat>, d: Domain)
    requires Inv(s) && d in SetPrunedFloor(s, g, floor).0.coverage
    ensures ParametersAfter(s, OpFloor(g, floor), SetPrunedFloor(s, g, floor).0, d)
  {
    hide WellFormed, Generation, Inv, SetsStart;
  }

  lemma ReindexParameters(s: State, ds: set<Domain>, d: Domain)
    requires Inv(s) && d in Reindex(s, ds).0.coverage
    ensures ParametersAfter(s, OpReindex(ds), Reindex(s, ds).0, d)
  {
    ReindexAnswers(s, ds);
    hide Reindex, Inv, Generation;
  }

  lemma InitializeParameters(s: State, e: Domain, expected: u64, start: nat, d: Domain)
    requires d in InitializeCoverage(s, e, expected, start).0.coverage
    ensures ParametersAfter(s, OpInitialize(e, expected, start), InitializeCoverage(s, e, expected, start).0, d)
  {
    InitializeAnswers(s, e, expected, start);
    hide InitializeCoverage, Generation, SetsFloor;
  }

  /** Calls that concern scans, markers, the target or records only. */
  lemma OthersKeepCoverage(s: State, op: Op)
    requires op.OpBegin? || op.OpAppend? || op.OpMark? || op.OpBind? || op.OpTarget? || op.OpSnapshot? || op.OpCutover?
    ensures Step(s, op).coverage == s.coverage && (!op.OpMark? ==> Step(s, op).unavailable == s.unavailable)
  {
    if op.OpBegin? {
      if BeginScan(s, op.scan).0 != s { BeginShape(s, op.scan); }
      hide BeginScan;
    } else if op.OpAppend? {
      if AppendPage(s, op.page).0 != s { AppendShape(s, op.page); }
      hide AppendPage;
    } else if op.OpMark? {
      if MarkUnavailable(s, op.markGenesis, op.absence).0 != s { MarkShape(s, op.markGenesis, op.absence); }
      hide MarkUnavailable;
    } else {
      OthersLeaveProtocol(s, op);
      hide Step;
    }
  }

  lemma StepParameters(s: State, op: Op, d: Domain)
    requires Inv(s) && d in Step(s, op).coverage
    ensures ParametersAfter(s, op, Step(s, op), d)
  {
    hide Inv, CommitBlock, CommitRange, SetPrunedFloor, InitializeCoverage, Reindex, SetsStart, SetsFloor;
    if op.OpCommit? {
      CommitParameters(s, op.batch, d);
      hide ParametersAfter;
    } else if op.OpRange? {
      RangeParameters(s, op.range, d);
      hide ParametersAfter;
    } else if op.OpFloor? {
      FloorParameters(s, op.guard, op.floor, d);
      hide ParametersAfter;
    } else if op.OpInitialize? {
      InitializeParameters(s, op.domain, op.expected, op.start, d);
      hide ParametersAfter;
    } else if op.OpReindex? {
      ReindexParameters(s, op.domains, d);
      hide ParametersAfter;
    } else {
      OthersKeepCoverage(s, op);
      hide Step;
    }
  }

  /** In every reachable state a domain starts at zero or where a call started it, and its
      floor is one that a call for this domain gave. */
  lemma {:induction false} ParametersOrigin(ops: seq<Op>, d: Domain)
    requires d in After(FreshStore(), ops).coverage
    ensures var c := After(FreshStore(), ops).coverage[d];
            && (c.start == 0 || Called(ops, SetsStart(d, c.start)))
            && (c.prunedFloor.None? || Called(ops, SetsFloor(d, c.prunedFloor.value)))
  {
    if ops != [] {
      var init, op := ops[..|ops| - 1], ops[|ops| - 1];
      FreshInv();
      AfterKeepsInv(FreshStore(), init);
      var s, t := After(FreshStore(), init), After(FreshStore(), ops);
      var c := t.coverage[d];
      StepParameters(s, op, d);
      hide Step, Inv, SetsStart, SetsFloor;
      if d in s.coverage { ParametersOrigin(init, d); }
      if SameStart(s, t, d) {
        if c.start != 0 { CalledEarlier(ops, SetsStart(d, c.start)); }
      } else if c.start != 0 {
        CalledLast(ops, SetsStart(d, c.start));
      }
      if SameFloorAs(s, t, d) {
        if c.prunedFloor.Some? { CalledEarlier(ops, SetsFloor(d, c.prunedFloor.value)); }
      } else if c.prunedFloor.Some? {
        CalledLast(ops, SetsFloor(d, c.prunedFloor.value));
      }
    }
  }
}
