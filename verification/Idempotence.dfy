/** Repeating a successful `commit_block` at once. */
module Idempotence {
  import opened Prelude
  import opened CoverageAlgebra
  import opened StoreModel
  import opened Protocol
  import W = WinnerTables
  import D = DifficultyTables
  import A = AuthorshipTables
  import P = ParticipationTables

  /** The guards of `commit_block` all passed and its writes were made. */
  ghost predicate Succeeds(s: State, b: BlockCommit) {
    CommitBlock(s, b).1 == Ok(Applied) || CommitBlock(s, b).1 == Ok(AlreadyApplied)
  }

  /** The checks that precede the writes. */
  ghost predicate Admitted(s: State, b: BlockCommit) {
    && !DuplicateGuards(b.guards) && AllGuarded(b) && b.height <= U64_MAX
    && s.genesis == Some(b.genesis)
    && !AnyStale(s, b.guards) && !HashConflict(s, b.height, b.hash) && !BadProvenance(b)
  }

  lemma SucceedsShape(s: State, b: BlockCommit)
    ensures Succeeds(s, b) <==>
            && Admitted(s, b)
            && WriteRecords(s.records, b.records).Ok?
            && CompleteAll(s, b.completed, b.height).Ok?
    ensures Succeeds(s, b) ==>
            var written, completed := WriteRecords(s.records, b.records).value, CompleteAll(s, b.completed, b.height).value;
            CommitBlock(s, b) ==
            (s.(records := written.0, coverage := completed.0, finalized := InsertHash(s.finalized, b.height, b.hash)),
             Ok(if written.1 || completed.1 then Applied else AlreadyApplied))
  {
    hide CompleteAll, HashConflict, AllGuarded, DuplicateGuards, AnyStale, WriteRecords, BadProvenance;
  }

  /** The record tables absorb a repeated batch; only contradictory participation entries
      make it look like a change again. */
  lemma RecordsAbsorbRepeat(t: Records, r: BlockRecords)
    requires r.difficulty.Some? ==> r.difficulty.value.source == D.Block
    requires WriteRecords(t, r).Ok?
    ensures var u := WriteRecords(t, r).value.0;
            WriteRecords(u, r) == Ok((u, !P.Consistent(r.participation)))
  {
    if r.winner.Some? { W.WriteIdempotent(t.winners, r.winner.value); }
    if r.difficulty.Some? { D.WriteBlockIdempotent(t.difficulty, r.difficulty.value); }
    if r.authorship.Some? { A.CommitIdempotent(t.authorship, r.authorship.value); }
    P.RepeatedBatch(t.participation, r.participation);
    hide W.Write, D.WriteBlock, A.Commit, P.WriteAll, P.Consistent;
  }

  lemma CompleteOneStart(s: State, m: map<Domain, Coverage>, d: Domain, n: u64)
    requires Complete(m, d, Generation(s, d), n).Ok?
    requires forall e :: e in m ==> WellFormed(m[e]) && m[e].gen == Generation(s, e)
    ensures var r := Complete(m, d, Generation(s, d), n).value.0; d in r ==> r[d].start <= n
  {
    hide WellFormed, Covered;
  }

  /** A height is only ever completed at or above the start of its domain. */
  lemma {:induction false} CompletedAboveStart(s: State, ds: seq<Domain>, n: u64, d: Domain)
    requires CoverageInv(s) && CompleteAll(s, ds, n).Ok? && d in ds
    ensures var m := CompleteAll(s, ds, n).value.0; d in m && m[d].start <= n
  {
    CompleteAllSpec(s, ds, n);
    var init, last := ds[..|ds| - 1], ds[|ds| - 1];
    CompleteAllSpec(s, init, n);
    var m := CompleteAll(s, init, n).value.0;
    CompleteOneStart(s, m, last, n);
    if last != d {
      CompletedAboveStart(s, init, n, d);
      CompleteOne(s, m, last, n);
    }
    hide Complete, WellFormed, CoveredIn, Generation;
  }

  lemma {:induction false} CoveredIsComplete(s: State, ds: seq<Domain>, n: u64)
    requires CoverageInv(s)
    requires forall d :: d in ds ==> CoveredIn(s.coverage, d, n) && s.coverage[d].start <= n
    ensures CompleteAll(s, ds, n) == Ok((s.coverage, false))
  {
    if ds != [] {
      var d := ds[|ds| - 1];
      assert d in ds && CoveredIn(s.coverage, d, n);
      CoveredIsComplete(s, ds[..|ds| - 1], n);
      var c := s.coverage[d];
      CoverIsUnion(c, n, n);
      assert Covered(c, n);
      hide WellFormed, Covered, CoverValue;
    }
  }

  lemma AdmittedAgain(s: State, b: BlockCommit, t: State)
    requires Admitted(s, b) && IdentityInv(t)
    requires t.genesis == s.genesis && t.generations == s.generations
    requires t.finalized == InsertHash(s.finalized, b.height, b.hash)
    ensures Admitted(t, b)
  {
    hide AllGuarded, DuplicateGuards, BadProvenance;
    assert forall d :: Generation(t, d) == Generation(s, d);
    assert t.finalized[b.height] == b.hash;
  }

  /** For every batch that succeeds, from every reachable state: repeating it leaves every
      table and all coverage as they are, and it reports `AlreadyApplied` exactly when no
      two of its participation entries contradict each other on one key. */
  lemma CommitRepeated(s: State, b: BlockCommit)
    requires Inv(s) && Succeeds(s, b)
    ensures var t := CommitBlock(s, b).0;
            CommitBlock(t, b) == (t, Ok(if P.Consistent(b.records.participation) then AlreadyApplied else Applied))
  {
    var t := CommitBlock(s, b).0;
    SucceedsShape(s, b);
    CommitKeepsInv(s, b);
    hide CommitBlock, CompleteAll, WriteRecords;
    AdmittedAgain(s, b, t);
    RecordsAbsorbRepeat(s.records, b.records);
    CompleteAllSpec(s, b.completed, b.height);
    forall d | d in b.completed ensures CoveredIn(t.coverage, d, b.height) && t.coverage[d].start <= b.height {
      CompletedAboveStart(s, b.completed, b.height, d);
    }
    CoveredIsComplete(t, b.completed, b.height);
    SucceedsShape(t, b);
    hide Admitted, Inv, P.Consistent, Completed;
    assert InsertHash(t.finalized, b.height, b.hash) == t.finalized;
  }

  /** The documented case: entries with distinct keys are always absorbed. */
  lemma DistinctKeysRepeat(s: State, b: BlockCommit)
    requires Inv(s) && Succeeds(s, b)
    requires forall i, j :: 0 <= i < j < |b.records.participation| ==>
               P.Key(b.records.participation[i]) != P.Key(b.records.participation[j])
    ensures var t := CommitBlock(s, b).0; CommitBlock(t, b) == (t, Ok(AlreadyApplied))
  {
    CommitRepeated(s, b);
    hide CommitBlock, Inv;
  }

  /** One participant entered twice with different kinds is rewritten on every repeat. */
  lemma ContradictoryBatchExample()
    ensures var p := P.Participant(1, "a", "quantum", None, 4);
            var ps := [p, p.(kind := "classical")];
            var b := BlockCommit(7, 9, 4, [Guard(Participation, 1)], BlockRecords(None, None, None, ps), []);
            var s := BindNetwork(FreshStore(), 7).0;
            var t := CommitBlock(s, b).0;
            Succeeds(s, b) && CommitBlock(t, b) == (t, Ok(Applied))
  {
    var p := P.Participant(1, "a", "quantum", None, 4);
    var ps := [p, p.(kind := "classical")];
    var b := BlockCommit(7, 9, 4, [Guard(Participation, 1)], BlockRecords(None, None, None, ps), []);
    var s := BindNetwork(FreshStore(), 7).0;
    P.WriteAllAccepts(map[], ps);
    assert Affected(b) == {Participation};
    assert b.guards[0].domain == Participation;
    assert Admitted(s, b);
    assert WriteRecords(s.records, b.records).Ok?;
    SucceedsShape(s, b);
    FreshInv();
    StepKeepsInv(FreshStore(), OpBind(7));
    hide CommitBlock, Inv;
    CommitRepeated(s, b);
    assert P.Key(ps[0]) == P.Key(ps[1]) && P.Stored(ps[0]) != P.Stored(ps[1]);
  }
}
