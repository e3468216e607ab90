/** The world around the driver: what other tasks, the processing of a height and the node
    may do, what it takes of them for backfill to converge, and by what measure. */
module Convergence {
  import opened Prelude
  import opened Ordering
  import opened CoverageAlgebra
  import opened StoreModel
  import opened Protocol
  import opened DurableStore
  import opened Backfill
  import opened Soundness
  import E = Enumeration
  import I = Idempotence
  import W = WinnerTables
  import P = ParticipationTables
  import Decimal

  /** Everything the driver does not control: what others commit at each moment, what
      processing a height commits and whether it reports a failure, what the node answers
      to a request for keys, and how keys spell heights. */
  datatype World = World(
    others: nat -> seq<Op>,
    process: (nat, State, nat) -> seq<Op>,
    failed: nat -> bool,
    response: (nat, Hash, Option<Key>) -> Option<seq<Option<Key>>>,
    decode: Key -> Option<nat>)

  const PAGE_SIZE := 256

  // ---------------------------------------------------------------- processing

  /** A height that the domain can take. */
  ghost predicate Takes(s: State, d: Domain, h: u64) {
    Good(s) && s.genesis.Some? && d in s.coverage && s.coverage[d].start <= h
  }

  /** Processing leaves every height it is given complete or marked. */
  ghost predicate Handles(w: World, d: Domain) {
    forall k: nat, s: State, h: u64 :: Takes(s, d, h) ==> Handled(After(s, w.process(k, s, h)), d, h)
  }

  /** A commit that completes one domain at a height and writes no record. */
  function Completing(s: State, d: Domain, h: nat): BlockCommit {
    BlockCommit(if s.genesis.Some? then s.genesis.value else 0, if h in s.finalized then s.finalized[h] else 0, h,
                [Guard(d, Generation(s, d))], BlockRecords(None, None, None, []), [d])
  }

  lemma CompletingAdmitted(s: State, d: Domain, h: u64)
    requires Takes(s, d, h)
    ensures I.Admitted(s, Completing(s, d, h))
  {
    var b := Completing(s, d, h);
    assert Affected(b) == {d};
    assert b.guards[0].domain == d;
    hide CoverageInv, ScanInv, MarkInv, WinnersFit;
  }

  lemma CompletingCovers(s: State, d: Domain, h: u64)
    requires Takes(s, d, h)
    ensures CompleteAll(s, [d], h).Ok? && CoveredIn(CompleteAll(s, [d], h).value.0, d, h)
  {
    CoverIsUnion(s.coverage[d], h, h);
    assert [d][..0] == [];
    assert CompleteAll(s, [d][..0], h) == Ok((s.coverage, false));
    assert CompleteAll(s, [d], h).Ok? by { hide Covered; }
    CompleteAllSpec(s, [d], h);
    hide CompleteAll, WellFormed, Covered;
    assert d in (set e | e in [d]);
  }

  lemma CompletingHandles(s: State, d: Domain, h: u64)
    requires Takes(s, d, h)
    ensures Handled(After(s, [OpCommit(Completing(s, d, h))]), d, h)
  {
    var b := Completing(s, d, h);
    CompletingAdmitted(s, d, h);
    CompletingCovers(s, d, h);
    assert WriteRecords(s.records, b.records).Ok?;
    I.SucceedsShape(s, b);
    hide CommitBlock, CompleteAll, WriteRecords, Takes, I.Admitted;
    assert [OpCommit(b)][..0] == [];
    assert After(s, [OpCommit(b)]) == Step(After(s, []), OpCommit(b));
  }

  /** A world in which nobody else acts, nothing fails, and processing completes its height. */
  function Completer(w: World, d: Domain): World {
    World(k => [], (k: nat, s: State, h: nat) => [OpCommit(Completing(s, d, h))], k => false, w.response, w.decode)
  }

  /** Processing that handles every height exists for every domain, also for those without
      absence markers, in a calm world and beside any node. */
  lemma HandlingExists(w: World, d: Domain)
    ensures Handles(Completer(w, d), d) && Calm(Completer(w, d))
  {
    var v := Completer(w, d);
    forall k: nat, s: State, h: u64 | Takes(s, d, h) ensures Handled(After(s, v.process(k, s, h)), d, h) {
      CompletingHandles(s, d, h);
    }
  }

  lemma ProcessSettles(w: World, k: nat, s: State, t: State, scan: Scan, start: u64, h: u64)
    requires Good(s) && Begun(s, scan, start) && start <= h && Handles(w, scan.domain)
    requires t == After(s, w.process(k, s, h)) && Follows(s, t)
    ensures Settled(t, scan, h)
  {
    LaterGeneration(s, t, scan.domain);
    hide Good, Follows, Handled;
    if Generation(t, scan.domain) == scan.expected {
      assert Takes(s, scan.domain, h);
    }
  }

  // ---------------------------------------------------------------- a calm world

  ghost predicate Undisturbed(w: World) {
    forall k: nat :: w.others(k) == []
  }

  /** A transaction that begins no scan, appends no page and reindexes nothing. */
  predicate PlainOp(op: Op) {
    !op.OpBegin? && !op.OpAppend? && !op.OpReindex?
  }

  ghost predicate AllPlain(ops: seq<Op>) {
    forall i :: 0 <= i < |ops| ==> PlainOp(ops[i])
  }

  /** Others may commit, mark, prune and complete ranges as they like, but they and the
      processing of heights leave scans and generations alone, and nothing fails. */
  ghost predicate Calm(w: World) {
    && (forall k: nat :: AllPlain(w.others(k)))
    && (forall k: nat, s: State, h: nat :: AllPlain(w.process(k, s, h)))
    && (forall k: nat :: !w.failed(k))
  }

  /** Scans and the domain's generation are as before. */
  ghost predicate Quiet(s: State, t: State, d: Domain) {
    t.scans == s.scans && t.scanWinners == s.scanWinners && Generation(t, d) == Generation(s, d)
  }

  /** How the driver's own steps move the store: as any step may, and quietly in a calm world. */
  ghost predicate Moves(w: World, d: Domain, s: State, t: State) {
    Follows(s, t) && (Calm(w) ==> Quiet(s, t, d))
  }

  lemma MovesTransitive(w: World, d: Domain, s: State, t: State, u: State)
    requires Moves(w, d, s, t) && Moves(w, d, t, u)
    ensures Moves(w, d, s, u) && Follows(s, t) && Follows(t, u)
  {
    FollowsTransitive(s, t, u);
    hide Follows, Calm, Generation;
  }

  lemma MovesFollows(w: World, d: Domain, s: State, t: State)
    requires Moves(w, d, s, t)
    ensures Follows(s, t)
  {
  }

  lemma SameMoves(w: World, d: Domain, s: State)
    ensures Moves(w, d, s, s)
  {
    SameFollows(s);
    hide Follows, Calm;
  }

  /** Anything but beginning scans, appending pages and reindexing is quiet. */
  lemma StepIsQuiet(s: State, op: Op, d: Domain)
    requires PlainOp(op)
    ensures Quiet(s, Step(s, op), d)
  {
    OthersKeepScans(s, op);
    GenerationMovesByOne(s, op, d);
    hide Step, Generation;
  }

  lemma {:induction false} PlainRunIsQuiet(s: State, ops: seq<Op>, d: Domain)
    requires AllPlain(ops)
    ensures Quiet(s, After(s, ops), d)
    decreases |ops|
  {
    hide Step, Generation;
    if ops != [] {
      PlainRunIsQuiet(s, ops[..|ops| - 1], d);
      StepIsQuiet(After(s, ops[..|ops| - 1]), ops[|ops| - 1], d);
    }
  }

  lemma {:induction false} RunIsGood(s: State, ops: seq<Op>)
    requires Good(s)
    ensures Good(After(s, ops)) && Follows(s, After(s, ops))
    decreases |ops|
  {
    hide Step, Good, Follows;
    if ops == [] {
      SameFollows(s);
    } else {
      var init := ops[..|ops| - 1];
      RunIsGood(s, init);
      StepIsGood(After(s, init), ops[|ops| - 1]);
      FollowsTransitive(s, After(s, init), After(s, ops));
    }
  }

  lemma FreshIsGood()
    ensures Good(FreshStore())
  {
    FreshInv();
  }

  // ---------------------------------------------------------------- pruning floors

  /** Others move no pruning floor. */
  ghost predicate FloorsStay(w: World) {
    forall k: nat, i: nat :: i < |w.others(k)| ==> KeepsFloors(w.others(k)[i])
  }

  predicate KeepsFloors(op: Op) {
    !op.OpFloor? && !op.OpReindex?
  }

  /** The domain's plans still range over the same heights. */
  ghost predicate SameFloor(s: State, t: State, d: Domain) {
    d in s.coverage ==>
      d in t.coverage && t.coverage[d].start == s.coverage[d].start && t.coverage[d].prunedFloor == s.coverage[d].prunedFloor
  }

  lemma CommitKeepsFloor(s: State, b: BlockCommit, d: Domain)
    requires Inv(s)
    ensures SameFloor(s, CommitBlock(s, b).0, d)
  {
    if CommitBlock(s, b).0 != s {
      CommitShape(s, b);
      CompleteAllSpec(s, b.completed, b.height);
      hide CommitBlock, CompleteAll, WriteRecords, HashConflict, BadProvenance, WellFormed, ScanInv, MarkInv, IdentityInv;
    }
  }

  lemma RangeKeepsFloor(s: State, r: RangeCompletion, d: Domain)
    requires Inv(s)
    ensures SameFloor(s, CommitRange(s, r).0, d)
  {
    hide WinnerMissing, ScanProves, Generation, CoverValue, WellFormed, ScanInv, MarkInv, IdentityInv;
    if CommitRange(s, r).0 != s && r.domain in s.coverage {
      assert WellFormed(s.coverage[r.domain]) by { StoredWellFormed(s, r.domain); }
      CoverIsUnion(s.coverage[r.domain], r.from, r.through);
    }
  }

  lemma StepKeepsFloor(s: State, op: Op, d: Domain)
    requires Inv(s) && KeepsFloors(op)
    ensures SameFloor(s, Step(s, op), d)
  {
    hide Inv, CommitBlock, CommitRange, MarkUnavailable, AppendPage, BeginScan;
    match op
    case OpCommit(b) => CommitKeepsFloor(s, b, d);
    case OpRange(r) => RangeKeepsFloor(s, r, d);
    case OpBegin(scan) => if BeginScan(s, scan).0 != s { BeginShape(s, scan); }
    case OpAppend(p) => if AppendPage(s, p).0 != s { AppendShape(s, p); }
    case OpMark(g, b) => if MarkUnavailable(s, g, b).0 != s { MarkShape(s, g, b); }
    case OpInitialize(_, _, _) =>
    case OpBind(_) => OthersLeaveProtocol(s, op); hide Step;
    case OpTarget(_, _) => OthersLeaveProtocol(s, op); hide Step;
    case OpSnapshot(_, _) => OthersLeaveProtocol(s, op); hide Step;
    case OpCutover => OthersLeaveProtocol(s, op); hide Step;
  }

  lemma {:induction false} RunKeepsFloor(s: State, ops: seq<Op>, d: Domain)
    requires Good(s) && forall i :: 0 <= i < |ops| ==> KeepsFloors(ops[i])
    ensures SameFloor(s, After(s, ops), d)
    decreases |ops|
  {
    hide Step, Good, Follows;
    if ops != [] {
      var init := ops[..|ops| - 1];
      RunKeepsFloor(s, init, d);
      RunIsGood(s, init);
      GoodInv(After(s, init));
      hide Inv;
      StepKeepsFloor(After(s, init), ops[|ops| - 1], d);
    }
  }

  // ---------------------------------------------------------------- awaiting and processing

  /** What an await may do to the store: whatever others commit. */
  ghost predicate Waits(w: World, d: Domain, s: State, t: State) {
    Moves(w, d, s, t) && (Undisturbed(w) ==> t == s) && (FloorsStay(w) ==> SameFloor(s, t, d))
  }

  lemma WaitsTransitive(w: World, d: Domain, s: State, t: State, u: State)
    requires Waits(w, d, s, t) && Waits(w, d, t, u)
    ensures Waits(w, d, s, u) && Follows(s, t) && Follows(t, u) && Follows(s, u)
  {
    hide Moves, Follows, Undisturbed, FloorsStay;
    MovesTransitive(w, d, s, t, u);
    MovesFollows(w, d, s, u);
  }

  lemma WaitsMoves(w: World, d: Domain, s: State, t: State)
    requires Waits(w, d, s, t)
    ensures Moves(w, d, s, t) && Follows(s, t) && (Undisturbed(w) ==> t == s)
  {
  }

  lemma OthersWait(w: World, k: nat, d: Domain, s: State)
    requires Good(s)
    ensures var t := After(s, w.others(k)); Good(t) && Waits(w, d, s, t)
  {
    var ops := w.others(k);
    RunIsGood(s, ops);
    hide Good, Follows, Generation, SameFloor;
    if Undisturbed(w) {
      assert w.others(k) == [];
    }
    if Calm(w) {
      assert AllPlain(ops);
      PlainRunIsQuiet(s, ops, d);
    }
    if FloorsStay(w) {
      RunKeepsFloor(s, ops, d);
    }
  }

  lemma ProcessMoves(w: World, k: nat, d: Domain, s: State, h: nat)
    requires Good(s)
    ensures var t := After(s, w.process(k, s, h)); Good(t) && Moves(w, d, s, t)
  {
    RunIsGood(s, w.process(k, s, h));
    hide Good, Follows;
    if Calm(w) {
      assert AllPlain(w.process(k, s, h));
      PlainRunIsQuiet(s, w.process(k, s, h), d);
    }
  }

  /** Interference, then processing of a height. */
  lemma ProcessedStep(w: World, k: nat, first: State, s: State, scan: Scan, start: u64, h: u64)
    requires Begun(first, scan, start) && start <= h && Moves(w, scan.domain, first, s) && Good(s)
    ensures var t := After(s, w.process(k, s, h));
            && Good(t) && Moves(w, scan.domain, first, t)
            && (Handles(w, scan.domain) ==> Settled(t, scan, h))
  {
    hide Good, Moves, Handles, Settled, Begun, Follows;
    var t := After(s, w.process(k, s, h));
    ProcessMoves(w, k, scan.domain, s, h);
    MovesTransitive(w, scan.domain, first, s, t);
    BegunLater(first, s, scan, start);
    if Handles(w, scan.domain) {
      ProcessSettles(w, k, s, t, scan, start, h);
    }
  }

  /** Processing reports a failure at some moment. */
  ghost predicate SomeFails(w: World) {
    exists k: nat :: w.failed(k)
  }

  lemma CalmDoesNotFail(w: World)
    ensures Calm(w) ==> !SomeFails(w)
  {
  }

  lemma FailedAt(w: World, k: nat)
    ensures w.failed(k) ==> SomeFails(w)
  {
  }

  /** A driver's own quiet transaction. */
  lemma StepMoves(w: World, d: Domain, s: State, op: Op)
    requires Good(s) && PlainOp(op)
    ensures Good(Step(s, op)) && Moves(w, d, s, Step(s, op))
  {
    StepIsGood(s, op);
    StepIsQuiet(s, op, d);
    hide Good, Follows, Step;
  }

  // ---------------------------------------------------------------- scans by name

  function DomainName(d: Domain): string {
    match d
    case Winners => "winners"
    case Difficulty => "difficulty"
    case Participation => "participation"
    case Authorship => "authorship"
  }

  /** The identifier names the domain, its generation and the snapshot. */
  function ScanName(d: Domain, gen: u64, at: Hash): string {
    DomainName(d) + ":" + Position(gen, at)
  }

  function Position(gen: u64, at: Hash): string {
    Decimal.ToText(gen) + ":" + Decimal.ToText(at)
  }

  lemma CutAtColon(a: string, b: string, a2: string, b2: string)
    requires ':' !in a && ':' !in a2 && a + ":" + b == a2 + ":" + b2
    ensures a == a2 && b == b2
  {
    var s := a + ":" + b;
    assert s[|a|] == ':' && s[|a2|] == ':';
    assert s[..|a|] == a && s[..|a2|] == a2 && s[|a| + 1..] == b && s[|a2| + 1..] == b2;
  }

  lemma DigitsHaveNoColon(n: nat)
    ensures ':' !in Decimal.ToText(n)
  {
    Decimal.ToTextRoundTrip(n);
  }

  lemma DomainNames(d: Domain, d2: Domain)
    ensures ':' !in DomainName(d) && (DomainName(d) == DomainName(d2) ==> d == d2)
  {
    assert DomainName(d)[0] == DomainName(d2)[0] ==> d == d2;
  }

  /** No two scans share an identifier: it determines domain, generation and snapshot. */
  lemma ScanNameInjective(d: Domain, gen: u64, at: Hash, d2: Domain, gen2: u64, at2: Hash)
    requires ScanName(d, gen, at) == ScanName(d2, gen2, at2)
    ensures d == d2 && gen == gen2 && at == at2
  {
    DigitsHaveNoColon(gen);
    DigitsHaveNoColon(gen2);
    DomainNames(d, d2);
    DomainNames(d2, d);
    hide DomainName, Decimal.ToText;
    CutAtColon(DomainName(d), Position(gen, at), DomainName(d2), Position(gen2, at2));
    CutAtColon(Decimal.ToText(gen), Decimal.ToText(at), Decimal.ToText(gen2), Decimal.ToText(at2));
    Decimal.ToTextInjective(gen, gen2);
    Decimal.ToTextInjective(at, at2);
  }

  /** The snapshot a scan identifier spells. */
  ghost function SpelledHash(id: string): Hash {
    if exists d: Domain, gen: u64, at: Hash :: id == ScanName(d, gen, at)
    then var d: Domain, gen: u64, at: Hash :| id == ScanName(d, gen, at); at
    else 0
  }

  lemma SpelledHashOfName(d: Domain, gen: u64, at: Hash)
    ensures SpelledHash(ScanName(d, gen, at)) == at
  {
    var id := ScanName(d, gen, at);
    var d2: Domain, gen2: u64, at2: Hash :| id == ScanName(d2, gen2, at2) && SpelledHash(id) == at2;
    ScanNameInjective(d, gen, at, d2, gen2, at2);
  }

  /** The scan the driver begins at a target. */
  function NewScan(d: Domain, gen: u64, genesis: Hash, target: u64, at: Hash): Scan {
    Scan(ScanName(d, gen, at), genesis, at, target, d, gen)
  }

  // ---------------------------------------------------------------- an honest world

  /** The node answers every request with the next keys of the snapshot, or not at all. */
  ghost predicate HonestNode(w: World, c: E.Chain) {
    forall k: nat, at: Hash, start: Option<Key> ::
      var r := w.response(k, at, start);
      r.Some? && E.AllKeys(r.value) ==> E.IsNext(c.snapshot(at), start, PAGE_SIZE, E.KeysOf(r.value))
  }

  ghost predicate SameDecoding(w: World, c: E.Chain) {
    forall k: Key :: w.decode(k) == c.decode(k)
  }

  /** Scans are pinned to the snapshot their name spells. */
  ghost predicate PinnedByName(c: E.Chain) {
    forall id: string :: c.pinned(id) == SpelledHash(id)
  }

  /** Pages come from the pinned snapshot, and a scan begins at a snapshot that contains the
      winners it should. */
  ghost predicate TruthfulOp(c: E.Chain, won: nat -> bool, op: Op) {
    E.HonestOp(c, op) && (op.OpBegin? ==> E.SnapshotKnows(c, won, op.scan.at, op.scan.finalizedHeight))
  }

  ghost predicate Truthful(c: E.Chain, won: nat -> bool, ops: seq<Op>) {
    forall i :: 0 <= i < |ops| ==> TruthfulOp(c, won, ops[i])
  }

  /** Nothing is assumed of the driver itself. */
  ghost predicate TruthfulWorld(w: World, c: E.Chain, won: nat -> bool) {
    && HonestNode(w, c) && SameDecoding(w, c) && PinnedByName(c)
    && (forall k: nat :: Truthful(c, won, w.others(k)))
    && (forall k: nat, s: State, h: nat :: Truthful(c, won, w.process(k, s, h)))
  }

  lemma ProcessTruthful(w: World, c: E.Chain, won: nat -> bool, k: nat, s: State, h: nat)
    requires TruthfulWorld(w, c, won)
    ensures Truthful(c, won, w.process(k, s, h))
  {
    hide Truthful, HonestNode, SameDecoding, PinnedByName;
  }

  lemma TruthfulAppend(c: E.Chain, won: nat -> bool, xs: seq<Op>, ys: seq<Op>)
    requires Truthful(c, won, xs) && Truthful(c, won, ys)
    ensures Truthful(c, won, xs + ys)
  {
    hide TruthfulOp;
  }

  /** Calls that neither begin a scan nor append a page are truthful. */
  lemma OtherCallsTruthful(c: E.Chain, won: nat -> bool, op: Op)
    requires !op.OpBegin? && !op.OpAppend?
    ensures TruthfulOp(c, won, op)
  {
  }

  lemma TruthfulRun(c: E.Chain, won: nat -> bool, ops: seq<Op>)
    requires Truthful(c, won, ops)
    ensures E.HonestRun(c, ops) && E.KnowingRun(c, won, ops)
  {
    hide E.HonestOp, E.SnapshotKnows;
  }

  /** A scan resumed from a truthful run is truthful again. */
  lemma ResumedScanTruthful(c: E.Chain, won: nat -> bool, ops: seq<Op>, scan: Scan)
    requires Truthful(c, won, ops)
    requires var s := After(FreshStore(), ops);
             scan.id in s.scans && s.scans[scan.id].(cursor := None, finished := false) == RowOf(scan)
    ensures TruthfulOp(c, won, OpBegin(scan))
  {
    TruthfulRun(c, won, ops);
    E.EnumeratedOverRuns(c, ops);
    E.ScansKnow(c, won, ops, scan.id);
    hide After, Truthful, E.SnapshotKnows;
  }

  lemma NewScanTruthful(c: E.Chain, won: nat -> bool, d: Domain, gen: u64, genesis: Hash, target: u64, at: Hash)
    requires PinnedByName(c) && E.SnapshotKnows(c, won, at, target)
    ensures TruthfulOp(c, won, OpBegin(NewScan(d, gen, genesis, target, at)))
  {
    SpelledHashOfName(d, gen, at);
    hide E.SnapshotKnows, ScanName, SpelledHash;
  }

  lemma SameDecodingPage(w: World, c: E.Chain, p: E.WinnerPage, keys: seq<Key>)
    requires SameDecoding(w, c) && E.PageOf(p, keys, PAGE_SIZE, w.decode)
    ensures E.PageOf(p, keys, PAGE_SIZE, c.decode)
  {
  }

  /** An honest answer makes the page the driver appends honest. */
  lemma AppendedPageHonest(w: World, c: E.Chain, k: nat, scan: Scan, cursor: Option<Key>, p: E.WinnerPage)
    requires HonestNode(w, c) && SameDecoding(w, c) && scan.at == c.pinned(scan.id)
    requires var r := w.response(k, scan.at, cursor);
             r.Some? && E.AllKeys(r.value) && E.PageOf(p, E.KeysOf(r.value), PAGE_SIZE, w.decode)
    ensures E.HonestPage(c, Page(scan.id, cursor, p.continuation, p.heights))
  {
    var keys := E.KeysOf(w.response(k, scan.at, cursor).value);
    SameDecodingPage(w, c, p, keys);
    assert p.keys == keys;
    hide E.PageOf, E.IsNext, SameDecoding, E.KeysOf;
  }

  // ---------------------------------------------------------------- the measure

  /** Keys an enumeration still has to pass, and one for its last page. */
  ghost function Left(c: E.Chain, row: ScanRow): nat {
    if row.finished then 0 else |E.Rest(c.snapshot(row.at), row.cursor)| + 1
  }

  /** What is left of the active scan, and of the one still to come if that does not reach
      the target. */
  ghost function StageOf(c: E.Chain, s: State, target: u64, at: Hash, id: string): nat
    requires id in s.scans
  {
    (if s.scans[id].finalizedHeight >= target then 0 else |c.snapshot(at)| + 2) + Left(c, s.scans[id])
  }

  ghost function Stage(c: E.Chain, s: State, d: Domain, target: u64, at: Hash): nat {
    if exists id :: IsActive(s, d, Generation(s, d), id)
    then var id :| IsActive(s, d, Generation(s, d), id); StageOf(c, s, target, at, id)
    else |c.snapshot(at)| + 2
  }

  lemma StageOfActive(c: E.Chain, s: State, d: Domain, target: u64, at: Hash, id: string)
    requires IsActive(s, d, Generation(s, d), id)
    ensures Stage(c, s, d, target, at) == StageOf(c, s, target, at, id)
  {
    var other :| IsActive(s, d, Generation(s, d), other) && Stage(c, s, d, target, at) == StageOf(c, s, target, at, other);
    ActiveIsUnique(s, d, Generation(s, d), id, other);
  }

  /** No height of the pinned map lies above the pinned height. */
  ghost predicate FitsPin(c: E.Chain, at: Hash, finalizedHeight: nat) {
    forall k :: k in c.snapshot(at) ==> c.decode(k).Some? && c.decode(k).value <= finalizedHeight
  }

  /** The node answers, with the next keys. */
  ghost predicate Serves(w: World, c: E.Chain) {
    && SameDecoding(w, c)
    && forall k: nat, at: Hash, start: Option<Key> ::
         var r := w.response(k, at, start);
         r.Some? && E.AllKeys(r.value) && E.IsNext(c.snapshot(at), start, PAGE_SIZE, E.KeysOf(r.value))
  }

  /** The active scan is finished and reaches the target. */
  ghost predicate TopReady(s: State, d: Domain, target: u64) {
    exists id :: IsActive(s, d, Generation(s, d), id) && s.scans[id].finished && s.scans[id].finalizedHeight >= target
  }

  /** The scans that may be worked on can be finished by a serving node. */
  ghost predicate Enumerable(w: World, c: E.Chain, genesis: Hash, s: State, d: Domain, target: u64, at: Hash) {
    var extra := NewScan(d, Generation(s, d), genesis, target, at);
    && Serves(w, c) && FitsPin(c, at, target)
    && (extra.id in s.scans ==> s.scans[extra.id].(cursor := None, finished := false) == RowOf(extra))
    && (forall id :: id in ScansOf(s, d, Generation(s, d)) ==> FitsPin(c, s.scans[id].at, s.scans[id].finalizedHeight))
  }

  /** From here backfill can run to its end: either the enumeration is over, or the node
      serves it. */
  ghost predicate Servable(w: World, c: E.Chain, genesis: Hash, s: State, d: Domain, target: u64, at: Hash) {
    && s.genesis == Some(genesis)
    && (forall id :: id in ScansOf(s, d, Generation(s, d)) ==> s.scans[id].finalizedHeight <= U64_MAX)
    && (TopReady(s, d, target) || Enumerable(w, c, genesis, s, d, target, at))
  }

  /** A chain on which nobody has won yet, and a calm world beside its node. */
  function NoWinners(): E.Chain {
    E.Chain((at: Hash) => {}, (k: Key) => None, (id: string) => 0)
  }

  function Serving(d: Domain): World {
    Completer(World(k => [], (k, s: State, h) => [], k => false, (k, at, start) => Some([]), (k: Key) => None), d)
  }

  /** All that convergence needs can be met together, from the first bound state on. */
  lemma ConvergenceApplies(d: Domain, genesis: Hash, target: u64, at: Hash)
    ensures var w := Serving(d);
            && Calm(w) && Handles(w, d) && FloorsStay(w)
            && Servable(w, NoWinners(), genesis, BindNetwork(FreshStore(), genesis).0, d, target, at)
  {
    HandlingExists(World(k => [], (k, s: State, h) => [], k => false, (k, at, start) => Some([]), (k: Key) => None), d);
    hide Handles, Calm;
    var w, c, s := Serving(d), NoWinners(), BindNetwork(FreshStore(), genesis).0;
    assert s.scans == map[];
    assert Serves(w, c) by {
      assert E.KeysOf([]) == [];
    }
    assert Enumerable(w, c, genesis, s, d, target, at) by { hide ScanName, Serves; }
    hide Enumerable;
  }

  lemma QuietScans(s: State, t: State, d: Domain)
    requires Quiet(s, t, d)
    ensures ScansOf(t, d, Generation(t, d)) == ScansOf(s, d, Generation(s, d))
    ensures forall id :: IsActive(t, d, Generation(t, d), id) <==> IsActive(s, d, Generation(s, d), id)
  {
    forall a, b ensures NotLater(s, a, b) <==> NotLater(t, a, b) {
    }
    hide NotLater;
  }

  /** Quiet steps touch neither the measure nor what it needs. */
  lemma QuietStage(w: World, c: E.Chain, genesis: Hash, s: State, t: State, d: Domain, target: u64, at: Hash)
    requires Quiet(s, t, d) && Follows(s, t)
    ensures Stage(c, t, d, target, at) == Stage(c, s, d, target, at)
    ensures Servable(w, c, genesis, s, d, target, at) ==> Servable(w, c, genesis, t, d, target, at)
  {
    QuietScans(s, t, d);
    assert s.genesis.Some? ==> t.genesis == s.genesis;
    hide Follows, IsActive, ScansOf, Generation, Serves, FitsPin;
    if id :| IsActive(s, d, Generation(s, d), id) {
      assert id in s.scans by { ActiveIsScan(s, d, Generation(s, d), id); }
      StageOfActive(c, s, d, target, at, id);
      StageOfActive(c, t, d, target, at, id);
    }
  }

  lemma ActiveIsScan(s: State, d: Domain, gen: u64, id: string)
    requires IsActive(s, d, gen, id)
    ensures id in s.scans && id in ScansOf(s, d, gen) && s.scans[id].domain == d && s.scans[id].generation == gen
  {
  }

  // ---------------------------------------------------------------- beginning a scan

  /** What `sparse_chunk` begins: the active scan if it reaches the range, else a new one. */
  ghost predicate Chosen(s: State, d: Domain, gen: u64, genesis: Hash, from: u64, target: u64, at: Hash, scan: Scan) {
    || (IsActive(s, d, gen, scan.id) && s.scans[scan.id].(cursor := None, finished := false) == RowOf(scan)
        && from <= scan.finalizedHeight <= U64_MAX)
    || (scan == NewScan(d, gen, genesis, target, at)
        && forall id :: IsActive(s, d, gen, id) ==> !(from <= s.scans[id].finalizedHeight <= U64_MAX))
  }

  /** The choice depends on the scans only. */
  lemma ChosenLater(s: State, t: State, d: Domain, gen: u64, genesis: Hash, from: u64, target: u64, at: Hash, scan: Scan)
    requires Chosen(s, d, gen, genesis, from, target, at, scan) && t.scans == s.scans
    ensures Chosen(t, d, gen, genesis, from, target, at, scan)
  {
    assert ScansOf(t, d, gen) == ScansOf(s, d, gen);
    forall a, b ensures NotLater(s, a, b) <==> NotLater(t, a, b) {
    }
    assert forall id :: IsActive(s, d, gen, id) <==> IsActive(t, d, gen, id) by { hide NotLater; }
    hide IsActive;
  }

  lemma SomeActive(s: State, d: Domain, gen: u64) returns (id: string)
    requires ScansOf(s, d, gen) != {}
    ensures IsActive(s, d, gen, id)
  {
    id := Greatest(s, ScansOf(s, d, gen));
  }

  lemma {:induction false} Greatest(s: State, ids: set<string>) returns (id: string)
    requires ids != {} && ids <= s.scans.Keys
    ensures id in ids && forall other :: other in ids ==> NotLater(s, other, id)
    decreases |ids|
  {
    var one :| one in ids;
    LaterTotal(s, one, one);
    var rest := ids - {one};
    assert ids == rest + {one};
    hide NotLater;
    if rest == {} {
      id := one;
    } else {
      var best := Greatest(s, rest);
      if Later(s, best, one) {
        id := one;
        forall other | other in ids ensures NotLater(s, other, id) {
          if other != one { LaterTransitive(s, other, best, one); }
        }
      } else {
        id := best;
        LaterTotal(s, best, one);
      }
    }
  }

  /** Resuming changes nothing. */
  lemma ResumeChangesNothing(s: State, d: Domain, scan: Scan)
    requires Inv(s) && IsActive(s, d, Generation(s, d), scan.id)
    requires s.scans[scan.id].(cursor := None, finished := false) == RowOf(scan)
    ensures BeginScan(s, scan).0 == s && (scan.id != "" ==> BeginScan(s, scan).1 == Ok(AlreadyApplied))
    ensures scan.domain == d && scan.expected == Generation(s, d)
  {
    ActiveIsScan(s, d, Generation(s, d), scan.id);
    var row := s.scans[scan.id].(cursor := None, finished := false);
    assert row.genesis == scan.genesis && row.generation == scan.expected && row.domain == scan.domain;
    hide CoverageInv, MarkInv, IdentityInv, IsActive;
  }

  /** No stored scan has the empty identifier. */
  lemma ScansAreNamed(ops: seq<Op>)
    ensures "" !in After(FreshStore(), ops).scans
  {
    StaysAbsent(FreshStore(), ops, "");
  }

  /** Without an active scan that reaches the range, a new one is chosen. */
  lemma NewIsChosen(s: State, d: Domain, gen: u64, genesis: Hash, from: u64, target: u64, at: Hash, known: Option<Scan>)
    requires known.None? ==> ScansOf(s, d, gen) == {}
    requires known.Some? ==>
               && IsActive(s, d, gen, known.value.id)
               && s.scans[known.value.id].(cursor := None, finished := false) == RowOf(known.value)
               && !(from <= known.value.finalizedHeight <= U64_MAX)
    ensures Chosen(s, d, gen, genesis, from, target, at, NewScan(d, gen, genesis, target, at))
  {
    forall id | IsActive(s, d, gen, id) ensures !(from <= s.scans[id].finalizedHeight <= U64_MAX) {
      assert known.Some?;
      ActiveIsUnique(s, d, gen, id, known.value.id);
      assert s.scans[id].(cursor := None, finished := false).finalizedHeight == s.scans[id].finalizedHeight;
    }
  }

  lemma NameIsNotEmpty(d: Domain, gen: u64, at: Hash)
    ensures ScanName(d, gen, at) != ""
  {
    assert |DomainName(d) + ":"| > 0;
  }

  /** A new scan at the target becomes the active one. */
  lemma NewScanIsActive(c: E.Chain, s: State, d: Domain, genesis: Hash, target: u64, at: Hash)
    requires s.genesis == Some(genesis)
    requires var extra := NewScan(d, Generation(s, d), genesis, target, at); extra.id !in s.scans
    requires forall id :: id in ScansOf(s, d, Generation(s, d)) ==> s.scans[id].finalizedHeight < target
    ensures var extra := NewScan(d, Generation(s, d), genesis, target, at);
            var t := s.(scans := s.scans[extra.id := RowOf(extra)]);
            && BeginScan(s, extra) == (t, Ok(Applied))
            && Generation(t, d) == Generation(s, d)
            && ScansOf(t, d, Generation(s, d)) == ScansOf(s, d, Generation(s, d)) + {extra.id}
            && IsActive(t, d, Generation(t, d), extra.id)
  {
    NameIsNotEmpty(d, Generation(s, d), at);
    var extra := NewScan(d, Generation(s, d), genesis, target, at);
    var t := s.(scans := s.scans[extra.id := RowOf(extra)]);
    hide ScanName;
    assert BeginScan(s, extra) == (t, Ok(Applied));
    assert Generation(t, d) == Generation(s, d);
    hide BeginScan, Generation;
    assert ScansOf(t, d, Generation(s, d)) == ScansOf(s, d, Generation(s, d)) + {extra.id};
  }

  lemma AllBelow(s: State, d: Domain, from: u64, target: u64)
    requires from <= target
    requires forall id :: id in ScansOf(s, d, Generation(s, d)) ==> s.scans[id].finalizedHeight <= U64_MAX
    requires forall id :: IsActive(s, d, Generation(s, d), id) ==> !(from <= s.scans[id].finalizedHeight <= U64_MAX)
    ensures forall id :: id in ScansOf(s, d, Generation(s, d)) ==> s.scans[id].finalizedHeight < target
  {
    hide Generation;
    forall id | id in ScansOf(s, d, Generation(s, d)) ensures s.scans[id].finalizedHeight < target {
      var top := SomeActive(s, d, Generation(s, d));
      assert NotLater(s, id, top);
    }
  }

  lemma LowIsNotReady(s: State, d: Domain, target: u64)
    requires forall id :: id in ScansOf(s, d, Generation(s, d)) ==> s.scans[id].finalizedHeight < target
    ensures !TopReady(s, d, target)
  {
  }

  lemma NewScanServable(w: World, c: E.Chain, genesis: Hash, s: State, d: Domain, target: u64, at: Hash)
    requires Servable(w, c, genesis, s, d, target, at)
    requires var extra := NewScan(d, Generation(s, d), genesis, target, at); extra.id !in s.scans
    requires forall id :: id in ScansOf(s, d, Generation(s, d)) ==> s.scans[id].finalizedHeight < target
    ensures var extra := NewScan(d, Generation(s, d), genesis, target, at);
            var t := BeginScan(s, extra).0;
            Enumerable(w, c, genesis, t, d, target, at) && Servable(w, c, genesis, t, d, target, at)
            && Stage(c, t, d, target, at) < Stage(c, s, d, target, at)
  {
    var extra := NewScan(d, Generation(s, d), genesis, target, at);
    var t := BeginScan(s, extra).0;
    NewScanIsActive(c, s, d, genesis, target, at);
    LowIsNotReady(s, d, target);
    hide BeginScan, Generation, IsActive, Serves, FitsPin, ScanName, ScansOf;
    StageOfActive(c, t, d, target, at, extra.id);
    assert Left(c, t.scans[extra.id]) == |c.snapshot(at)| + 1 by {
      assert E.Rest(c.snapshot(at), None) == c.snapshot(at);
    }
    if id :| IsActive(s, d, Generation(s, d), id) {
      ActiveIsScan(s, d, Generation(s, d), id);
      StageOfActive(c, s, d, target, at, id);
    }
  }

  /** Beginning the chosen scan succeeds, makes it the active one, and does not raise the
      measure. */
  lemma BeginServable(w: World, c: E.Chain, genesis: Hash, s: State, d: Domain, from: u64, target: u64, at: Hash, scan: Scan)
    requires Good(s) && Servable(w, c, genesis, s, d, target, at) && from <= target && scan.id != ""
    requires Chosen(s, d, Generation(s, d), genesis, from, target, at, scan)
    ensures var (t, r) := BeginScan(s, scan);
            && r.Ok? && r.value != StaleGeneration
            && Servable(w, c, genesis, t, d, target, at) && Generation(t, d) == Generation(s, d)
            && IsActive(t, d, Generation(t, d), scan.id)
            && t.scans[scan.id].(cursor := None, finished := false) == RowOf(scan)
            && (t.scans[scan.id].finished ==> t == s)
            && Stage(c, t, d, target, at) <= Stage(c, s, d, target, at)
  {
    GoodInv(s);
    if IsActive(s, d, Generation(s, d), scan.id) && s.scans[scan.id].(cursor := None, finished := false) == RowOf(scan) {
      ResumeChangesNothing(s, d, scan);
      hide BeginScan, Good, Servable, Stage, IsActive;
    } else {
      AllBelow(s, d, from, target);
      NewNameUnused(w, c, genesis, s, d, from, target, at);
      NewScanServable(w, c, genesis, s, d, target, at);
      NewScanIsActive(c, s, d, genesis, target, at);
      hide BeginScan, Good, Servable, Stage, IsActive, Generation, ScanName, Enumerable;
    }
  }

  lemma NewNameUnused(w: World, c: E.Chain, genesis: Hash, s: State, d: Domain, from: u64, target: u64, at: Hash)
    requires Servable(w, c, genesis, s, d, target, at)
    requires forall id :: id in ScansOf(s, d, Generation(s, d)) ==> s.scans[id].finalizedHeight < target
    ensures NewScan(d, Generation(s, d), genesis, target, at).id !in s.scans
  {
    var extra := NewScan(d, Generation(s, d), genesis, target, at);
    LowIsNotReady(s, d, target);
    hide Generation, IsActive, Serves, FitsPin, ScanName;
  }

  // ---------------------------------------------------------------- appending a page

  /** One scan got further; the other scans and its generation are as before. */
  ghost predicate Advanced(c: E.Chain, s: State, t: State, id: string) {
    && id in s.scans && id in t.scans
    && t.scans == s.scans[id := t.scans[id]]
    && (s.genesis.Some? ==> t.genesis == s.genesis) && Generation(t, s.scans[id].domain) == Generation(s, s.scans[id].domain)
    && t.scans[id].(cursor := None, finished := false) == s.scans[id].(cursor := None, finished := false)
    && Left(c, t.scans[id]) < Left(c, s.scans[id])
  }

  /** Quiet steps before a scan gets further do not matter. */
  lemma QuietThenAdvanced(c: E.Chain, s: State, t: State, u: State, id: string)
    requires id in s.scans && Quiet(s, t, s.scans[id].domain) && Follows(s, t) && Advanced(c, t, u, id)
    ensures Advanced(c, s, u, id)
  {
    assert s.genesis.Some? ==> t.genesis == s.genesis;
    hide Follows, Left, Generation;
  }

  /** The honest page of a serving node is accepted and gets the scan further. */
  lemma PageAdvances(w: World, c: E.Chain, k: nat, s: State, id: string, p: E.WinnerPage)
    requires Inv(s) && Serves(w, c) && id in s.scans && !s.scans[id].finished && s.scans[id].finalizedHeight <= U64_MAX
    requires FitsPin(c, s.scans[id].at, s.scans[id].finalizedHeight)
    requires var r := w.response(k, s.scans[id].at, s.scans[id].cursor);
             r.Some? && E.AllKeys(r.value) && E.PageOf(p, E.KeysOf(r.value), PAGE_SIZE, w.decode)
    ensures var (t, r) := AppendPage(s, Page(id, s.scans[id].cursor, p.continuation, p.heights));
            r == Ok(Applied) && Advanced(c, s, t, id)
  {
    var row := s.scans[id];
    var keys := E.KeysOf(w.response(k, row.at, row.cursor).value);
    var page := Page(id, row.cursor, p.continuation, p.heights);
    var t := AppendPage(s, page).0;
    assert E.IsNext(c.snapshot(row.at), row.cursor, PAGE_SIZE, keys);
    SameDecodingPage(w, c, p, keys);
    PageAccepted(c, row, keys, p);
    assert s.genesis == Some(row.genesis) && Generation(s, row.domain) == row.generation;
    hide Inv, E.IsNext, E.PageOf, E.KeysOf, FitsPin, Serves, Generation;
    assert AppendPage(s, page).1 == Ok(Applied);
    PageLeft(c, row, keys, p);
  }

  lemma PageAccepted(c: E.Chain, row: ScanRow, keys: seq<Key>, p: E.WinnerPage)
    requires E.IsNext(c.snapshot(row.at), row.cursor, PAGE_SIZE, keys) && E.PageOf(p, keys, PAGE_SIZE, c.decode)
    requires FitsPin(c, row.at, row.finalizedHeight)
    ensures |p.heights| <= 1000 && !(p.continuation.Some? && p.continuation == row.cursor)
    ensures forall i :: 0 <= i < |p.heights| ==> p.heights[i] <= row.finalizedHeight
  {
    forall i | 0 <= i < |p.heights| ensures p.heights[i] <= row.finalizedHeight {
      assert keys[i] in c.snapshot(row.at);
      assert c.decode(keys[i]) == Some(p.heights[i]);
    }
  }

  lemma PageLeft(c: E.Chain, row: ScanRow, keys: seq<Key>, p: E.WinnerPage)
    requires !row.finished
    requires E.IsNext(c.snapshot(row.at), row.cursor, PAGE_SIZE, keys) && E.PageOf(p, keys, PAGE_SIZE, c.decode)
    ensures Left(c, row.(cursor := p.continuation, finished := p.continuation.None?)) < Left(c, row)
  {
    E.PageProgress(c.snapshot(row.at), row.cursor, PAGE_SIZE, keys);
    hide E.IsNext, E.Rest;
  }

  /** Getting the active scan further lowers the measure. */
  lemma AdvanceLowersStage(w: World, c: E.Chain, genesis: Hash, s: State, t: State, d: Domain, target: u64, at: Hash, id: string)
    requires Servable(w, c, genesis, s, d, target, at) && IsActive(s, d, Generation(s, d), id) && Advanced(c, s, t, id)
    ensures Servable(w, c, genesis, t, d, target, at) && Generation(t, d) == Generation(s, d)
    ensures Stage(c, t, d, target, at) < Stage(c, s, d, target, at)
  {
    ActiveIsScan(s, d, Generation(s, d), id);
    assert Generation(t, d) == Generation(s, d);
    hide Generation;
    AdvanceKeepsOrder(c, s, t, d, id);
    ActiveIsScan(t, d, Generation(t, d), id);
    hide IsActive, ScansOf, Serves, FitsPin, ScanName;
    StageOfActive(c, s, d, target, at, id);
    StageOfActive(c, t, d, target, at, id);
    AdvanceKeepsServable(w, c, genesis, s, t, d, target, at, id);
  }

  lemma AdvanceKeepsOrder(c: E.Chain, s: State, t: State, d: Domain, id: string)
    requires IsActive(s, d, Generation(s, d), id) && Advanced(c, s, t, id) && Generation(t, d) == Generation(s, d)
    ensures ScansOf(t, d, Generation(t, d)) == ScansOf(s, d, Generation(s, d))
    ensures forall x :: IsActive(t, d, Generation(t, d), x) <==> IsActive(s, d, Generation(s, d), x)
  {
    hide Left, Generation;
    SameIdentity(c, s, t, id);
    forall x, y ensures NotLater(s, x, y) <==> NotLater(t, x, y) {
    }
    hide NotLater;
  }

  /** The identities of all scans are as before. */
  lemma SameIdentity(c: E.Chain, s: State, t: State, id: string)
    requires Advanced(c, s, t, id)
    ensures forall x :: x in t.scans <==> x in s.scans
    ensures forall x :: x in s.scans ==>
              && t.scans[x].(cursor := None, finished := false) == s.scans[x].(cursor := None, finished := false)
              && t.scans[x].finalizedHeight == s.scans[x].finalizedHeight && t.scans[x].at == s.scans[x].at
              && t.scans[x].domain == s.scans[x].domain && t.scans[x].generation == s.scans[x].generation
  {
    hide Left;
    var a, b := s.scans[id].(cursor := None, finished := false), t.scans[id].(cursor := None, finished := false);
    assert a.finalizedHeight == s.scans[id].finalizedHeight && b.finalizedHeight == t.scans[id].finalizedHeight;
    assert a.at == s.scans[id].at && b.at == t.scans[id].at && a.domain == s.scans[id].domain;
    assert b.domain == t.scans[id].domain && a.generation == s.scans[id].generation && b.generation == t.scans[id].generation;
  }

  lemma AdvanceKeepsServable(w: World, c: E.Chain, genesis: Hash, s: State, t: State, d: Domain, target: u64, at: Hash, id: string)
    requires Servable(w, c, genesis, s, d, target, at) && IsActive(s, d, Generation(s, d), id) && Advanced(c, s, t, id)
    requires Generation(t, d) == Generation(s, d)
    ensures Servable(w, c, genesis, t, d, target, at)
  {
    AdvanceKeepsOrder(c, s, t, d, id);
    SameIdentity(c, s, t, id);
    if TopReady(s, d, target) {
      var top :| IsActive(s, d, Generation(s, d), top) && s.scans[top].finished && s.scans[top].finalizedHeight >= target;
      ActiveIsUnique(s, d, Generation(s, d), id, top);
    }
    hide Generation, IsActive, Serves, FitsPin, ScanName;
  }
}
