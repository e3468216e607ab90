/** The record tables over whole runs of the store: every transaction acts on each of them
    as at most one event, so what is proved of a table's own runs holds of every store run. */
module RecordRuns {
  import opened Prelude
  import opened CoverageAlgebra
  import opened StoreModel
  import opened Protocol
  import opened Idempotence
  import W = WinnerTables
  import D = DifficultyTables
  import A = AuthorshipTables
  import P = ParticipationTables

  // ---------------------------------------------------------------- projections

  ghost function DifficultyEvent(s: State, op: Op): Option<D.Event> {
    match op
    case OpCommit(b) =>
      if Succeeds(s, b) && b.records.difficulty.Some? then Some(D.Committed(b.records.difficulty.value)) else None
    case OpSnapshot(row, latest) =>
      if s.genesis.Some? && row.source == D.Poll then Some(D.Polled(row, latest)) else None
    case OpReindex(ds) => if Reindex(s, ds).1.Ok? && Difficulty in ds then Some(D.Reindexed) else None
    case _ => None
  }

  ghost function WinnerEvent(s: State, op: Op): Option<W.Event> {
    match op
    case OpCommit(b) =>
      if Succeeds(s, b) && b.records.winner.Some? then Some(W.Wrote(b.records.winner.value)) else None
    case OpReindex(ds) => if Reindex(s, ds).1.Ok? && Winners in ds then Some(W.Cleared) else None
    case _ => None
  }

  ghost function AuthorshipEvent(s: State, op: Op): Option<A.Event> {
    match op
    case OpCommit(b) =>
      if Succeeds(s, b) && b.records.authorship.Some? then Some(A.Committed(b.records.authorship.value)) else None
    case OpCutover => if s.genesis.Some? then Some(A.TriedCutover) else None
    case _ => None
  }

  function Appended<E>(events: seq<E>, e: Option<E>): seq<E> {
    if e.None? then events else events + [e.value]
  }

  ghost function DifficultyHistory(ops: seq<Op>): seq<D.Event> {
    if ops == [] then []
    else Appended(DifficultyHistory(ops[..|ops| - 1]),
                  DifficultyEvent(After(FreshStore(), ops[..|ops| - 1]), ops[|ops| - 1]))
  }

  ghost function WinnerHistory(ops: seq<Op>): seq<W.Event> {
    if ops == [] then []
    else Appended(WinnerHistory(ops[..|ops| - 1]),
                  WinnerEvent(After(FreshStore(), ops[..|ops| - 1]), ops[|ops| - 1]))
  }

  ghost function AuthorshipHistory(s: State, ops: seq<Op>): seq<A.Event>
    decreases |ops|
  {
    if ops == [] then []
    else Appended(AuthorshipHistory(s, ops[..|ops| - 1]),
                  AuthorshipEvent(After(s, ops[..|ops| - 1]), ops[|ops| - 1]))
  }

  // ---------------------------------------------------------------- one step

  lemma RecordsWritten(t: Records, r: BlockRecords)
    requires r.difficulty.Some? ==> r.difficulty.value.source == D.Block
    requires WriteRecords(t, r).Ok?
    ensures var u := WriteRecords(t, r).value.0;
            && u.winners == (if r.winner.Some? then W.Write(t.winners, r.winner.value).0 else t.winners)
            && (r.difficulty.None? ==> u.difficulty == t.difficulty)
            && (r.difficulty.Some? ==> D.WriteBlock(t.difficulty, r.difficulty.value).Ok?
                                       && u.difficulty == D.WriteBlock(t.difficulty, r.difficulty.value).value.0)
            && (r.authorship.None? ==> u.authorship == t.authorship)
            && (r.authorship.Some? ==> A.Commit(t.authorship, r.authorship.value).Ok?
                                       && u.authorship == A.Commit(t.authorship, r.authorship.value).value.0)
  {
    hide W.Write, D.WriteBlock, A.Commit;
  }

  lemma CommitRecords(s: State, b: BlockCommit)
    ensures !Succeeds(s, b) ==> CommitBlock(s, b).0 == s
    ensures Succeeds(s, b) ==>
            && !BadProvenance(b) && WriteRecords(s.records, b.records).Ok?
            && CommitBlock(s, b).0.records == WriteRecords(s.records, b.records).value.0
  {
    SucceedsShape(s, b);
    hide CompleteAll, HashConflict, AllGuarded, DuplicateGuards, AnyStale, WriteRecords, BadProvenance;
  }

  lemma ReindexedRecords(s: State, ds: set<Domain>)
    ensures Reindex(s, ds).0.records ==
            if Reindex(s, ds).1.Ok? then ReindexRecords(s.records, ds) else s.records
  {
    hide ReindexBlocked, ReindexCoverage, ReindexRecords, Generation;
  }

  lemma OtherRecords(s: State, op: Op)
    requires !op.OpCommit? && !op.OpReindex? && !op.OpSnapshot? && !op.OpCutover?
    ensures Step(s, op).records == s.records
  {
    hide Load, WinnerMissing, HashConflict, Contains;
  }

  lemma SnapshotRecords(s: State, d: D.Row, latest: Option<D.Row>)
    ensures InsertSnapshot(s, d, latest).0.records ==
            if s.genesis.Some? && d.source == D.Poll
            then s.records.(difficulty := D.Step(s.records.difficulty, D.Polled(d, latest))) else s.records
  {
    hide D.WritePoll, D.SamePollValue;
  }

  lemma CutoverRecords(s: State)
    ensures TryCutover(s).0.records ==
            if s.genesis.Some? then s.records.(authorship := A.TryCutover(s.records.authorship).0) else s.records
  {
    hide A.TryCutover;
  }

  /** Each transaction is at most one event of each record table. */
  lemma StepEvents(s: State, op: Op)
    ensures var before, after := s.records, Step(s, op).records;
            && after.difficulty == (var e := DifficultyEvent(s, op);
                                    if e.None? then before.difficulty else D.Step(before.difficulty, e.value))
            && after.winners == (match WinnerEvent(s, op)
                                 case None => before.winners
                                 case Some(Wrote(w)) => W.Write(before.winners, w).0
                                 case Some(Cleared) => W.EmptyTables())
            && (!(op.OpReindex? && Authorship in op.domains) ==>
                  after.authorship == (var e := AuthorshipEvent(s, op);
                                       if e.None? then before.authorship else A.Step(before.authorship, e.value)))
  {
    if op.OpCommit? {
      CommitRecords(s, op.batch);
      hide CommitBlock, Succeeds;
      if Succeeds(s, op.batch) {
        RecordsWritten(s.records, op.batch.records);
        hide WriteRecords, W.Write, D.WriteBlock, A.Commit;
      }
    } else if op.OpReindex? {
      ReindexedRecords(s, op.domains);
      hide Reindex, D.Reindex, A.Reindex;
    } else if op.OpSnapshot? {
      SnapshotRecords(s, op.row, op.latest);
      hide InsertSnapshot, D.Step;
    } else if op.OpCutover? {
      CutoverRecords(s);
      hide TryCutover, A.TryCutover;
    } else {
      OtherRecords(s, op);
      hide Step;
    }
  }

  // ---------------------------------------------------------------- whole runs

  lemma {:induction false} DifficultyRun(ops: seq<Op>)
    ensures After(FreshStore(), ops).records.difficulty == D.After(DifficultyHistory(ops))
  {
    hide Step, D.Step, DifficultyEvent;
    if ops != [] {
      var init, op := ops[..|ops| - 1], ops[|ops| - 1];
      DifficultyRun(init);
      StepEvents(After(FreshStore(), init), op);
      var e := DifficultyEvent(After(FreshStore(), init), op);
      if e.Some? {
        var events := DifficultyHistory(init) + [e.value];
        assert events[..|events| - 1] == DifficultyHistory(init);
      }
    }
  }

  /** The difficulty overlay over every run of the store. */
  lemma DifficultyOverlayOverStoreRuns(ops: seq<Op>, n: nat)
    ensures var t, events := After(FreshStore(), ops).records.difficulty, DifficultyHistory(ops);
            && (n in t.visible <==> D.BlockRow(events, n).Some? || D.FirstPoll(events, n).Some?)
            && (n in t.visible ==>
                  t.visible[n] == (if D.BlockRow(events, n).Some? then D.BlockRow(events, n).value
                                   else D.FirstPoll(events, n).value))
  {
    DifficultyRun(ops);
    D.OverlayOverRuns(DifficultyHistory(ops));
    hide After, DifficultyHistory, D.BlockRow, D.FirstPoll;
  }

  lemma {:induction false} WinnerRun(ops: seq<Op>)
    ensures After(FreshStore(), ops).records.winners == W.After(W.EmptyTables(), WinnerHistory(ops))
  {
    hide Step, W.Write, WinnerEvent;
    if ops != [] {
      var init, op := ops[..|ops| - 1], ops[|ops| - 1];
      WinnerRun(init);
      StepEvents(After(FreshStore(), init), op);
      var e := WinnerEvent(After(FreshStore(), init), op);
      if e.Some? {
        var events := WinnerHistory(init) + [e.value];
        assert events[..|events| - 1] == WinnerHistory(init);
      }
    }
  }

  /** The miner summary is the aggregate of the stored rows over every run of the store in
      which no stored block hash changes miner. */
  lemma SummaryAgreesOverStoreRuns(ops: seq<Op>)
    requires W.MinersStable(W.EmptyTables(), WinnerHistory(ops))
    ensures W.Agrees(After(FreshStore(), ops).records.winners)
  {
    WinnerRun(ops);
    hide After, WinnerHistory, W.MinersStable;
    assert W.Agrees(W.EmptyTables());
    W.SummaryAgreesOverRuns(W.EmptyTables(), WinnerHistory(ops));
  }

  /** The winner rows over every run of the store. */
  lemma WinnerRowsOverStoreRuns(ops: seq<Op>, h: Hash)
    ensures var t, events := After(FreshStore(), ops).records.winners, WinnerHistory(ops);
            && (h in t.blocks <==> W.LastRecord(events, h).Some?)
            && (h in t.blocks ==>
                  t.blocks[h] == W.LastRecord(events, h).value.(topology := W.LastTopology(events, h),
                                                                deviceTime := W.LastDeviceTime(events, h)))
  {
    WinnerRun(ops);
    hide After, WinnerHistory;
    W.RowsOverRuns(WinnerHistory(ops), h);
  }

  /** No transaction of the run reindexes authorship. */
  ghost predicate KeepsAuthorship(ops: seq<Op>) {
    forall i :: 0 <= i < |ops| ==> !(ops[i].OpReindex? && Authorship in ops[i].domains)
  }

  lemma {:induction false} AuthorshipRun(s: State, ops: seq<Op>)
    requires KeepsAuthorship(ops)
    ensures After(s, ops).records.authorship == A.After(s.records.authorship, AuthorshipHistory(s, ops))
    decreases |ops|
  {
    hide Step, A.Step, AuthorshipEvent;
    if ops != [] {
      var init, op := ops[..|ops| - 1], ops[|ops| - 1];
      assert KeepsAuthorship(init);
      AuthorshipRun(s, init);
      StepEvents(After(s, init), op);
      var e := AuthorshipEvent(After(s, init), op);
      if e.Some? {
        var events := AuthorshipHistory(s, init) + [e.value];
        assert events[..|events| - 1] == AuthorshipHistory(s, init);
      }
    }
  }

  lemma StepKeepsAuthorshipValid(s: State, op: Op)
    requires A.Valid(s.records.authorship)
    ensures A.Valid(Step(s, op).records.authorship)
  {
    if op.OpReindex? {
      ReindexedRecords(s, op.domains);
      hide Reindex;
    } else {
      StepEvents(s, op);
      var e := AuthorshipEvent(s, op);
      hide Step, A.Valid;
      if e.Some? {
        A.StepNeverLosesBlocks(s.records.authorship, e.value, "");
      }
    }
  }

  lemma {:induction false} AuthorshipValidOverStoreRuns(ops: seq<Op>)
    ensures A.Valid(After(FreshStore(), ops).records.authorship)
  {
    if ops != [] {
      AuthorshipValidOverStoreRuns(ops[..|ops| - 1]);
      StepKeepsAuthorshipValid(After(FreshStore(), ops[..|ops| - 1]), ops[|ops| - 1]);
    }
  }

  /** From every reachable state and over every run that does not reindex authorship, no
      validator's public count of authored blocks falls. */
  lemma AuthoredBlocksNeverFall(ops: seq<Op>, later: seq<Op>, v: string)
    requires KeepsAuthorship(later)
    ensures A.Public(After(FreshStore(), ops + later).records.authorship, v).blocks
            >= A.Public(After(FreshStore(), ops).records.authorship, v).blocks
  {
    AuthorshipValidOverStoreRuns(ops);
    AfterAppend(FreshStore(), ops, later);
    var s := After(FreshStore(), ops);
    AuthorshipRun(s, later);
    A.AuthorshipNeverLosesBlocks(s.records.authorship, AuthorshipHistory(s, later), v);
  }

  /** In every reachable state: once cut over, each validator with facts shows exactly the
      number of its facts and of those that carried a win, nobody else shows a block, and
      all fact counts sum to the number of authored heights. */
  lemma CutoverCountsAreFacts(ops: seq<Op>, v: string)
    ensures var t := After(FreshStore(), ops).records.authorship;
            && (t.cutover ==> A.Public(t, v).blocks == |A.FactsOf(t.facts, v)|)
            && (t.cutover && v in A.Authors(t.facts) ==> A.Public(t, v).withPow == |A.PowFactsOf(t.facts, v)|)
            && A.Total(t.facts, A.Authors(t.facts)) == |set k | k in t.facts :: k.1|
  {
    AuthorshipValidOverStoreRuns(ops);
    var t := After(FreshStore(), ops).records.authorship;
    hide After;
    A.FactCountsSumToHeights(t.facts);
  }

  // ---------------------------------------------------------------- declarations and facts

  /** What was declared last for a qblock and account since participation was reindexed. */
  ghost function LastDeclared(ops: seq<Op>, k: (nat, string)): Option<P.Participant> {
    if ops == [] then None
    else
      var init, op := ops[..|ops| - 1], ops[|ops| - 1];
      var s := After(FreshStore(), init);
      match op
      case OpCommit(b) =>
        if Succeeds(s, b) && P.LastOf(b.records.participation, k).Some? then P.LastOf(b.records.participation, k)
        else LastDeclared(init, k)
      case OpReindex(ds) => if Reindex(s, ds).1.Ok? && Participation in ds then None else LastDeclared(init, k)
      case _ => LastDeclared(init, k)
  }

  lemma ParticipationStep(s: State, op: Op)
    ensures var before, after := s.records.participation, Step(s, op).records.participation;
            && (op.OpCommit? && Succeeds(s, op.batch) ==>
                  && P.WriteAll(before, op.batch.records.participation).Ok?
                  && after == P.WriteAll(before, op.batch.records.participation).value.0)
            && (op.OpReindex? && Reindex(s, op.domains).1.Ok? && Participation in op.domains ==> after == map[])
            && (after == before || (op.OpCommit? && Succeeds(s, op.batch))
                || (op.OpReindex? && Reindex(s, op.domains).1.Ok? && Participation in op.domains))
  {
    if op.OpCommit? {
      CommitRecords(s, op.batch);
      hide CommitBlock, Succeeds, W.Write, D.WriteBlock, A.Commit, P.WriteAll;
    } else if op.OpReindex? {
      ReindexedRecords(s, op.domains);
      hide Reindex;
    } else if op.OpSnapshot? {
      SnapshotRecords(s, op.row, op.latest);
      hide InsertSnapshot;
    } else if op.OpCutover? {
      CutoverRecords(s);
      hide TryCutover;
    } else {
      OtherRecords(s, op);
      hide Step;
    }
  }

  /** In every reachable state a qblock and account have a row exactly when a committed batch
      declared them since the last reindex, and the row says what was declared last. */
  lemma {:induction false} ParticipationOverStoreRuns(ops: seq<Op>, k: (nat, string))
    ensures var rows, last := After(FreshStore(), ops).records.participation, LastDeclared(ops, k);
            (k in rows <==> last.Some?) && (last.Some? ==> P.Declares(rows[k], last.value))
  {
    if ops != [] {
      var init, op := ops[..|ops| - 1], ops[|ops| - 1];
      ParticipationOverStoreRuns(init, k);
      var s := After(FreshStore(), init);
      ParticipationStep(s, op);
      hide Step, Succeeds, Reindex, P.WriteAll, P.Declares;
      if op.OpCommit? && Succeeds(s, op.batch) {
        P.BatchDeclares(s.records.participation, op.batch.records.participation, k);
      }
    }
  }

  /** What was learned of a validator's block since authorship was reindexed: its first time,
      and whether any commit of it had a winner. */
  ghost function Learned(ops: seq<Op>, k: (string, nat)): Option<A.Fact> {
    if ops == [] then None
    else
      var init, op := ops[..|ops| - 1], ops[|ops| - 1];
      var s, earlier := After(FreshStore(), init), Learned(init, k);
      match op
      case OpCommit(b) =>
        if Succeeds(s, b) && b.records.authorship.Some? && (b.records.authorship.value.account, b.records.authorship.value.number) == k
        then Some(A.Fact(if earlier.Some? then earlier.value.timestamp else b.records.authorship.value.timestamp,
                         b.records.authorship.value.hadWinner || (earlier.Some? && earlier.value.hadWinner)))
        else earlier
      case OpReindex(ds) => if Reindex(s, ds).1.Ok? && Authorship in ds then None else earlier
      case _ => earlier
  }

  lemma FactsStep(s: State, op: Op)
    ensures var before, after := s.records.authorship.facts, Step(s, op).records.authorship.facts;
            && (op.OpCommit? && Succeeds(s, op.batch) && op.batch.records.authorship.Some? ==>
                  var a := op.batch.records.authorship.value;
                  && A.Write(s.records.authorship, a).Ok?
                  && after == A.Write(s.records.authorship, a).value.0.facts)
            && (op.OpReindex? && Reindex(s, op.domains).1.Ok? && Authorship in op.domains ==> after == map[])
            && (after == before || (op.OpCommit? && Succeeds(s, op.batch) && op.batch.records.authorship.Some?)
                || (op.OpReindex? && Reindex(s, op.domains).1.Ok? && Authorship in op.domains))
  {
    if op.OpCommit? {
      CommitRecords(s, op.batch);
      hide CommitBlock, Succeeds, W.Write, D.WriteBlock, A.Write, P.WriteAll;
    } else if op.OpReindex? {
      ReindexedRecords(s, op.domains);
      hide Reindex;
    } else if op.OpSnapshot? {
      SnapshotRecords(s, op.row, op.latest);
      hide InsertSnapshot;
    } else if op.OpCutover? {
      CutoverRecords(s);
      hide TryCutover;
    } else {
      OtherRecords(s, op);
      hide Step;
    }
  }

  /** In every reachable state the facts are exactly what was learned since the last reindex. */
  lemma {:induction false} FactsOverStoreRuns(ops: seq<Op>, k: (string, nat))
    ensures var facts, learned := After(FreshStore(), ops).records.authorship.facts, Learned(ops, k);
            (k in facts <==> learned.Some?) && (learned.Some? ==> facts[k] == learned.value)
  {
    if ops != [] {
      var init, op := ops[..|ops| - 1], ops[|ops| - 1];
      FactsOverStoreRuns(init, k);
      var s := After(FreshStore(), init);
      FactsStep(s, op);
      hide Step, Succeeds, Reindex, A.Write;
      if op.OpCommit? && op.batch.records.authorship.Some? {
        A.WriteLearns(s.records.authorship, op.batch.records.authorship.value);
      }
    }
  }
}
