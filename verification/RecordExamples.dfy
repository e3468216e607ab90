/** Runs from the fresh store on which a natural property of the records fails. */
module RecordExamples {
  import opened Prelude
  import opened StoreModel
  import opened Protocol
  import opened Idempotence
  import opened RecordRuns
  import W = WinnerTables
  import A = AuthorshipTables

  lemma AfterPush(ops: seq<Op>, op: Op)
    ensures After(FreshStore(), ops + [op]) == Step(After(FreshStore(), ops), op)
  {
    hide Step;
    assert (ops + [op])[..|ops|] == ops;
  }

  lemma RunOfTwo(first: Op, second: Op)
    ensures After(FreshStore(), [first, second]) == Step(Step(FreshStore(), first), second)
  {
    hide Step;
    assert [] + [first] == [first] && [first] + [second] == [first, second];
    AfterPush([], first);
    AfterPush([first], second);
  }

  // ---------------------------------------------------------------- authored blocks

  /** A bound store without winners: its authorship generation, finalized hashes and tables. */
  ghost predicate Holds(s: State, gen: u64, finalized: map<nat, Hash>, t: A.Tables) {
    && Inv(s) && s.genesis == Some(7) && Generation(s, Authorship) == gen && s.finalized == finalized
    && s.records.winners == W.EmptyTables() && s.records.authorship == t
  }

  /** The commit of one block authored by "v". */
  function Authored(gen: u64, height: u64, hash: Hash, pow: bool): BlockCommit {
    BlockCommit(7, hash, height, [Guard(Authorship, gen)],
                BlockRecords(None, None, Some(A.Record("v", height, 0, pow)), []), [])
  }

  lemma Binds()
    ensures Holds(Step(FreshStore(), OpBind(7)), 1, map[], A.EmptyTables())
  {
    FreshInv();
    StepKeepsInv(FreshStore(), OpBind(7));
    hide Inv;
  }

  lemma AuthoredSucceeds(s: State, gen: u64, finalized: map<nat, Hash>, summary: map<string, A.Totals>, height: u64, hash: Hash,
                         pow: bool)
    requires Holds(s, gen, finalized, A.Tables(map[], summary, false)) && height !in finalized
    ensures Succeeds(s, Authored(gen, height, hash, pow))
  {
    var b := Authored(gen, height, hash, pow);
    assert Affected(b) == {Authorship};
    assert b.guards[0].domain == Authorship;
    assert Admitted(s, b) by { hide Inv; }
    SucceedsShape(s, b);
    hide CommitBlock, Inv, Admitted;
  }

  lemma Authors(s: State, gen: u64, finalized: map<nat, Hash>, summary: map<string, A.Totals>, height: u64, hash: Hash, pow: bool)
    requires Holds(s, gen, finalized, A.Tables(map[], summary, false)) && height !in finalized
    ensures Holds(Step(s, OpCommit(Authored(gen, height, hash, pow))), gen, finalized[height as nat := hash],
                  A.Tables(map[("v", height as nat) := A.Fact(0, pow)], summary, false))
  {
    var b := Authored(gen, height, hash, pow);
    AuthoredSucceeds(s, gen, finalized, summary, height, hash, pow);
    CommitKeepsInv(s, b);
    SucceedsShape(s, b);
    CommitRecords(s, b);
    RecordsWritten(s.records, b.records);
    hide CommitBlock, Inv, CompleteAll, WriteRecords, Admitted, Succeeds;
  }

  lemma CutsOver(s: State, gen: u64, finalized: map<nat, Hash>, t: A.Tables)
    requires Holds(s, gen, finalized, t)
    ensures Holds(Step(s, OpCutover), gen, finalized, A.TryCutover(t).0)
  {
    StepKeepsInv(s, OpCutover);
    hide Inv, A.TryCutover;
  }

  lemma ReindexWorks(s: State)
    requires Inv(s) && s.genesis.Some? && Generation(s, Authorship) < U64_MAX
    ensures Reindex(s, {Authorship}).1.Ok?
  {
    hide Generation, IdentityInv, ScanInv, MarkInv;
  }

  lemma Reindexes(s: State, gen: u64, finalized: map<nat, Hash>, t: A.Tables)
    requires Holds(s, gen, finalized, t) && gen < U64_MAX
    ensures Reindex(s, {Authorship}).1.Ok?
    ensures Holds(Step(s, OpReindex({Authorship})), gen + 1, finalized, A.Reindex(t))
  {
    ReindexWorks(s);
    StepKeepsInv(s, OpReindex({Authorship}));
    ReindexGenerations(s, {Authorship}, Authorship);
    hide Inv, ReindexBlocked, ReindexCoverage, Generation;
  }

  lemma OneFactCounts(height: nat, pow: bool)
    ensures var facts := map[("v", height) := A.Fact(0, pow)];
            A.Authors(facts) == {"v"} && A.FromFacts(facts, "v") == A.Totals(1, if pow then 1 else 0)
  {
    var facts := map[("v", height) := A.Fact(0, pow)];
    assert A.FactsOf(facts, "v") == {("v", height)};
    assert A.PowFactsOf(facts, "v") == if pow then {("v", height)} else {};
    assert ("v", height).0 in A.Authors(facts);
  }

  /** One authored block, then a reindex: the public count falls from one to nothing, in both
      columns. */
  lemma ReindexDropsCountsExample()
    ensures var s := After(FreshStore(), [OpBind(7), OpCommit(Authored(1, 4, 9, true))]);
            && A.Public(s.records.authorship, "v") == A.Totals(1, 1)
            && Reindex(s, {Authorship}).1.Ok?
            && A.Public(Reindex(s, {Authorship}).0.records.authorship, "v") == A.Totals(0, 0)
  {
    var bound := Step(FreshStore(), OpBind(7));
    Binds();
    Authors(bound, 1, map[], map[], 4, 9, true);
    RunOfTwo(OpBind(7), OpCommit(Authored(1, 4, 9, true)));
    var s, t := Step(bound, OpCommit(Authored(1, 4, 9, true))), A.Tables(map[("v", 4) := A.Fact(0, true)], map[], false);
    assert map[][4 as nat := 9] == map[4 := 9];
    Reindexes(s, 1, map[4 := 9], t);
    OneFactCounts(4, true);
    A.ReindexShowsFloor(t, "v");
    hide Inv, CommitBlock, Reindex, After;
  }

  // ---------------------------------------------------------------- the cutover

  function CutoverRun(): seq<Op> {
    [OpBind(7), OpCommit(Authored(1, 4, 9, true)), OpCutover, OpReindex({Authorship}), OpCommit(Authored(2, 5, 11, false))]
  }

  /** The cutover after the first block makes its win the validator's floor. */
  lemma FirstCutover()
    ensures A.TryCutover(A.Tables(map[("v", 4) := A.Fact(0, true)], map[], false)) ==
            (A.Tables(map[("v", 4) := A.Fact(0, true)], map["v" := A.Totals(1, 1)], true), true)
  {
    var t := A.Tables(map[("v", 4) := A.Fact(0, true)], map[], false);
    OneFactCounts(4, true);
    assert A.Recompute(t).summary == map["v" := A.Totals(1, 1)];
  }

  lemma CutoverRunTables()
    ensures Holds(After(FreshStore(), CutoverRun()), 2, map[4 := 9, 5 := 11],
                  A.Tables(map[("v", 5) := A.Fact(0, false)], map["v" := A.Totals(1, 1)], false))
  {
    hide Step, Holds, A.TryCutover;
    assert After(FreshStore(), []) == FreshStore();
    hide After;
    var ops := CutoverRun();
    var t := A.Tables(map[("v", 4) := A.Fact(0, true)], map[], false);
    assert ops[..1] == [] + [ops[0]] && ops[..2] == ops[..1] + [ops[1]] && ops[..3] == ops[..2] + [ops[2]];
    assert ops[..4] == ops[..3] + [ops[3]] && ops == ops[..4] + [ops[4]];
    AfterPush([], ops[0]);
    AfterPush(ops[..1], ops[1]);
    AfterPush(ops[..2], ops[2]);
    AfterPush(ops[..3], ops[3]);
    AfterPush(ops[..4], ops[4]);
    Binds();
    Authors(After(FreshStore(), ops[..1]), 1, map[], map[], 4, 9, true);
    assert map[][4 as nat := 9] == map[4 := 9];
    CutsOver(After(FreshStore(), ops[..2]), 1, map[4 := 9], t);
    FirstCutover();
    Reindexes(After(FreshStore(), ops[..3]), 1, map[4 := 9], A.TryCutover(t).0);
    Authors(After(FreshStore(), ops[..4]), 2, map[4 := 9], map["v" := A.Totals(1, 1)], 5, 11, false);
    assert map[4 := 9][5 as nat := 11] == map[4 := 9, 5 := 11];
  }

  /** A block with a win, the cutover, a reindex and a block without a win: the next cutover
      takes the counted win away. */
  lemma CutoverLosesPowExample()
    ensures var s := After(FreshStore(), CutoverRun());
            && A.Public(s.records.authorship, "v").withPow == 1
            && TryCutover(s).1 == Ok(true)
            && A.Public(TryCutover(s).0.records.authorship, "v").withPow == 0
  {
    CutoverRunTables();
    hide After, Inv;
    OneFactCounts(5, false);
    A.RecomputeIsExact(A.Tables(map[("v", 5) := A.Fact(0, false)], map["v" := A.Totals(1, 1)], false), "v");
  }

  // ---------------------------------------------------------------- the miner summary

  function Won(miner: string): W.BlockRecord {
    W.BlockRecord(7, 1, 9, miner, 0, 0.0, 1.0, 1, true, None, None, 0)
  }

  /** The commit of a winner with block hash 7 at height 1. */
  function Winning(miner: string): BlockCommit {
    BlockCommit(7, 9, 1, [Guard(Winners, 1)], BlockRecords(Some(Won(miner)), None, None, []), [])
  }

  lemma WinningWrites(s: State, miner: string)
    requires s.genesis == Some(7) && Generation(s, Winners) == 1 && (1 in s.finalized ==> s.finalized[1] == 9)
    requires forall h :: h in s.records.winners.blocks ==> s.records.winners.blocks[h].substrateHash == 9
    ensures var t := Step(s, OpCommit(Winning(miner)));
            && t.genesis == Some(7) && Generation(t, Winners) == 1 && t.finalized == InsertHash(s.finalized, 1, 9)
            && t.records.winners == W.Write(s.records.winners, Won(miner)).0
  {
    var b := Winning(miner);
    assert Affected(b) == {Winners};
    assert b.guards[0].domain == Winners;
    assert Admitted(s, b);
    SucceedsShape(s, b);
    RecordsWritten(s.records, b.records) by { assert WriteRecords(s.records, b.records).Ok?; }
    hide CommitBlock, Admitted, W.Write, WriteRecords;
  }

  /** Two commits of one block hash with different miners leave the summary of a miner who
      has no block. */
  lemma StaleSummaryExample()
    ensures var t := After(FreshStore(), [OpBind(7), OpCommit(Winning("a")), OpCommit(Winning("b"))]).records.winners;
            "a" in t.summary && W.MinerRows(t.blocks, "a") == {}
  {
    var bind, first, second := OpBind(7), OpCommit(Winning("a")), OpCommit(Winning("b"));
    assert [bind, first] + [second] == [bind, first, second];
    RunOfTwo(bind, first);
    AfterPush([bind, first], second);
    var bound := Step(FreshStore(), bind);
    WinningWrites(bound, "a");
    WinningWrites(Step(bound, first), "b");
    W.RewrittenMiner(Won("a"), Won("b"));
    hide After, CommitBlock;
  }
}
