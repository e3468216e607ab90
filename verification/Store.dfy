/** The durable store as a state of tables, and every write operation of the indexing
    protocol as one atomic transaction on that state. An operation that returns an error,
    or that finds a stale generation, leaves the state as it was. */
module StoreModel {
  import opened Prelude
  import opened CoverageAlgebra
  import W = WinnerTables
  import D = DifficultyTables
  import A = AuthorshipTables
  import P = ParticipationTables

  datatype Domain = Winners | Difficulty | Participation | Authorship

  /** Canonical block hashes, as opaque numbers. */
  type Hash = nat

  /** Raw storage keys of one map, as the numbers their equal-length bytes spell. */
  type Key = nat

  datatype CommitResult = Applied | AlreadyApplied | StaleGeneration

  datatype ScanRow = ScanRow(
    genesis: Hash, at: Hash, finalizedHeight: nat, domain: Domain, generation: u64,
    cursor: Option<Key>, finished: bool)

  datatype Marker = Marker(hash: Hash, enrichmentAt: Hash, next: Option<u64>)

  datatype Records = Records(
    winners: W.Tables, difficulty: D.Tables, authorship: A.Tables, participation: P.Rows)

  datatype State = State(
    genesis: Option<Hash>,
    generations: map<Domain, u64>,
    coverage: map<Domain, Coverage>,
    scans: map<string, ScanRow>,
    scanWinners: set<(string, nat)>,
    unavailable: map<(Domain, u64, u64), Marker>,
    finalized: map<nat, Hash>,
    target: Option<(nat, Hash)>,
    records: Records)

  function FreshStore(): State {
    State(None, map[], map[], map[], {}, map[], map[], None,
          Records(W.EmptyTables(), D.EmptyTables(), A.EmptyTables(), map[]))
  }

  /** Absent and zero generations read as one. */
  function Generation(s: State, d: Domain): u64 {
    if d in s.generations && s.generations[d] > 0 then s.generations[d] else 1
  }

  /** Reading coverage inside a transaction: validated when present, empty when absent. */
  ghost function Load(coverage: map<Domain, Coverage>, d: Domain, gen: u64, start: u64): Result<Coverage> {
    if d !in coverage then Ok(EmptyCoverage(gen, start))
    else if WellFormed(coverage[d]) && coverage[d].gen == gen then Ok(coverage[d])
    else Err(Invalid)
  }

  // ---------------------------------------------------------------- commit_block

  datatype Guard = Guard(domain: Domain, expected: u64)

  datatype BlockRecords = BlockRecords(
    winner: Option<W.BlockRecord>, difficulty: Option<D.Row>,
    authorship: Option<A.Record>, participation: seq<P.Participant>)

  datatype BlockCommit = BlockCommit(
    genesis: Hash, hash: Hash, height: nat, guards: seq<Guard>,
    records: BlockRecords, completed: seq<Domain>)

  predicate DuplicateGuards(guards: seq<Guard>) {
    exists i, j :: 0 <= i < j < |guards| && guards[i].domain == guards[j].domain
  }

  function Affected(b: BlockCommit): set<Domain> {
    (set d | d in b.completed)
    + (if b.records.winner.Some? then {Winners} else {})
    + (if b.records.difficulty.Some? then {Difficulty} else {})
    + (if b.records.authorship.Some? then {Authorship} else {})
    + (if b.records.participation != [] then {Participation} else {})
  }

  predicate AllGuarded(b: BlockCommit) {
    Affected(b) != {} && forall d :: d in Affected(b) ==> exists i :: 0 <= i < |b.guards| && b.guards[i].domain == d
  }

  predicate AnyStale(s: State, guards: seq<Guard>) {
    exists i :: 0 <= i < |guards| && Generation(s, guards[i].domain) != guards[i].expected
  }

  /** Retained evidence of another hash at this height. */
  predicate HashConflict(s: State, height: nat, hash: Hash) {
    || (height in s.finalized && s.finalized[height] != hash)
    || exists h :: h in s.records.winners.blocks && s.records.winners.blocks[h].number == height
                   && s.records.winners.blocks[h].substrateHash != hash
  }

  predicate BadProvenance(b: BlockCommit) {
    var r := b.records;
    || (r.winner.Some? && (r.winner.value.number != b.height || r.winner.value.substrateHash != b.hash
                           || !r.winner.value.finalized))
    || (r.difficulty.Some? && (r.difficulty.value.block != b.height || r.difficulty.value.source != D.Block))
    || (r.authorship.Some? && r.authorship.value.number != b.height)
  }

  /** All record writes of a batch; the flag says whether any row changed. */
  ghost function WriteRecords(t: Records, r: BlockRecords): Result<(Records, bool)>
    requires r.difficulty.Some? ==> r.difficulty.value.source == D.Block
  {
    var (w, c1) := if r.winner.Some? then W.Write(t.winners, r.winner.value) else (t.winners, false);
    var d := if r.difficulty.Some? then D.WriteBlock(t.difficulty, r.difficulty.value) else Ok((t.difficulty, false));
    if d.Err? then Err(d.error) else
    var a := if r.authorship.Some? then A.Commit(t.authorship, r.authorship.value) else Ok((t.authorship, false));
    if a.Err? then Err(a.error) else
    var p := P.WriteAll(t.participation, r.participation);
    if p.Err? then Err(p.error) else
    Ok((Records(w, d.value.0, a.value.0, p.value.0), c1 || d.value.1 || a.value.1 || p.value.1))
  }

  /** Authorship coverage created by a commit starts at that commit's height. */
  function FirstStart(d: Domain, n: u64): u64 {
    if d == Authorship then n else 0
  }

  /** Mark one domain complete at a height. */
  ghost function Complete(coverage: map<Domain, Coverage>, d: Domain, gen: u64, n: u64)
    : Result<(map<Domain, Coverage>, bool)>
  {
    var loaded := Load(coverage, d, gen, FirstStart(d, n));
    if loaded.Err? then Err(loaded.error) else
    var r := CoverValue(loaded.value, n, n);
    if r.Err? then Err(r.error)
    else Ok((if r.value.1 then coverage[d := r.value.0] else coverage, r.value.1))
  }

  ghost function CompleteAll(s: State, ds: seq<Domain>, n: u64): Result<(map<Domain, Coverage>, bool)> {
    if ds == [] then Ok((s.coverage, false))
    else
      var d := ds[|ds| - 1];
      var before := CompleteAll(s, ds[..|ds| - 1], n);
      if before.Err? then before else
      var r := Complete(before.value.0, d, Generation(s, d), n);
      if r.Err? then r else Ok((r.value.0, before.value.1 || r.value.1))
  }

  function InsertHash(m: map<nat, Hash>, height: nat, hash: Hash): map<nat, Hash> {
    if height in m then m else m[height := hash]
  }

  ghost function CommitBlock(s: State, b: BlockCommit): (State, Result<CommitResult>) {
    if DuplicateGuards(b.guards) || !AllGuarded(b) || b.height > U64_MAX then (s, Err(Invalid))
    else if s.genesis != Some(b.genesis) then (s, Err(NetworkIdentity))
    else if AnyStale(s, b.guards) then (s, Ok(StaleGeneration))
    else if HashConflict(s, b.height, b.hash) then (s, Err(ConflictingHistory))
    else if BadProvenance(b) then (s, Err(Invalid))
    else
      var written := WriteRecords(s.records, b.records);
      var completed := CompleteAll(s, b.completed, b.height);
      if written.Err? then (s, Err(written.error))
      else if completed.Err? then (s, Err(completed.error))
      else
        (s.(records := written.value.0, coverage := completed.value.0,
            finalized := InsertHash(s.finalized, b.height, b.hash)),
         Ok(if written.value.1 || completed.value.1 then Applied else AlreadyApplied))
  }

  // ---------------------------------------------------------------- scans and ranges

  datatype Scan = Scan(id: string, genesis: Hash, at: Hash, finalizedHeight: nat, domain: Domain, expected: u64)

  function RowOf(scan: Scan): ScanRow {
    ScanRow(scan.genesis, scan.at, scan.finalizedHeight, scan.domain, scan.expected, None, false)
  }

  function BeginScan(s: State, scan: Scan): (State, Result<CommitResult>) {
    if scan.id == "" then (s, Err(Invalid))
    else if s.genesis != Some(scan.genesis) then (s, Err(NetworkIdentity))
    else if Generation(s, scan.domain) != scan.expected then (s, Ok(StaleGeneration))
    else if scan.id in s.scans then
      var row := s.scans[scan.id];
      if row.(cursor := None, finished := false) == RowOf(scan) then (s, Ok(AlreadyApplied)) else (s, Err(Invalid))
    else (s.(scans := s.scans[scan.id := RowOf(scan)]), Ok(Applied))
  }

  /** A page of an enumeration: where it continues from, where it leads, what it found. */
  datatype Page = Page(id: string, expected: Option<Key>, next: Option<Key>, heights: seq<nat>)

  function AppendPage(s: State, p: Page): (State, Result<CommitResult>) {
    if |p.heights| > 1000 || (p.next.Some? && p.next == p.expected) then (s, Err(Invalid))
    else if s.genesis.None? then (s, Err(NetworkIdentity))
    else if p.id !in s.scans then (s, Err(IncompleteScan))
    else
      var row := s.scans[p.id];
      if s.genesis != Some(row.genesis) then (s, Err(NetworkIdentity))
      else if Generation(s, row.domain) != row.generation then (s, Ok(StaleGeneration))
      else if row.finished || row.cursor != p.expected || row.finalizedHeight > U64_MAX then (s, Err(IncompleteScan))
      else if exists i :: 0 <= i < |p.heights| && p.heights[i] > row.finalizedHeight then (s, Err(Invalid))
      else
        (s.(scanWinners := s.scanWinners + (set h | h in p.heights :: (p.id, h)),
            scans := s.scans[p.id := row.(cursor := p.next, finished := p.next.None?)]),
         Ok(Applied))
  }

  datatype RangeCompletion = RangeCompletion(
    genesis: Hash, domain: Domain, expected: u64, from: nat, through: nat, scanId: string)

  /** A finished scan of this domain and generation pinned at or above `through`. */
  predicate ScanProves(s: State, id: string, d: Domain, gen: u64, through: nat) {
    && id in s.scans
    && s.scans[id].finished
    && s.scans[id].domain == d
    && s.scans[id].generation == gen
    && through <= s.scans[id].finalizedHeight <= U64_MAX
  }

  /** Some discovered winner of the range is not yet complete, or one is beyond `u64`. */
  ghost predicate WinnerMissing(s: State, id: string, c: Coverage, from: nat, through: nat) {
    exists n :: (id, n) in s.scanWinners && (n > U64_MAX || (from <= n <= through && !Covered(c, n)))
  }

  ghost function CommitRange(s: State, r: RangeCompletion): (State, Result<CommitResult>) {
    if r.from > U64_MAX || r.through > U64_MAX || r.from > r.through then (s, Err(Invalid))
    else if s.genesis != Some(r.genesis) then (s, Err(NetworkIdentity))
    else if Generation(s, r.domain) != r.expected then (s, Ok(StaleGeneration))
    else if !ScanProves(s, r.scanId, r.domain, r.expected, r.through)
            || s.scans[r.scanId].genesis != r.genesis then (s, Err(IncompleteScan))
    else if r.domain == Authorship then (s, Err(Invalid))
    else
      var loaded := Load(s.coverage, r.domain, r.expected, 0);
      if loaded.Err? then (s, Err(loaded.error))
      else if WinnerMissing(s, r.scanId, loaded.value, r.from, r.through) then (s, Err(IncompleteScan))
      else
        var c := CoverValue(loaded.value, r.from, r.through);
        if c.Err? then (s, Err(c.error))
        else if c.value.1 then (s.(coverage := s.coverage[r.domain := c.value.0]), Ok(Applied))
        else (s, Ok(AlreadyApplied))
  }

  // ---------------------------------------------------------------- floors, markers, target

  ghost function SetPrunedFloor(s: State, g: Guard, floor: Option<nat>): (State, Result<CommitResult>) {
    if s.genesis.None? then (s, Err(NetworkIdentity))
    else if Generation(s, g.domain) != g.expected then (s, Ok(StaleGeneration))
    else
      var loaded := Load(s.coverage, g.domain, g.expected, 0);
      if loaded.Err? then (s, Err(loaded.error))
      else if floor.Some? && floor.value > U64_MAX then (s, Err(Invalid))
      else
        var f: Option<u64> := if floor.Some? then Some(floor.value) else None;
        (s.(coverage := s.coverage[g.domain := loaded.value.(prunedFloor := f)]), Ok(Applied))
  }

  function InitializeCoverage(s: State, d: Domain, expected: u64, start: nat): (State, Result<CommitResult>) {
    if s.genesis.None? then (s, Err(NetworkIdentity))
    else if Generation(s, d) != expected then (s, Ok(StaleGeneration))
    else if d in s.coverage then (s, Ok(AlreadyApplied))
    else if start > U64_MAX then (s, Err(Invalid))
    else (s.(coverage := s.coverage[d := EmptyCoverage(expected, start)]), Ok(Applied))
  }

  datatype Reason = MissingRetainedNonce | MissingRetainedDifficulty

  datatype Absence = Absence(guard: Guard, height: nat, hash: Hash, enrichmentAt: Hash, reason: Reason)

  function ReasonDomain(r: Reason): Domain {
    match r
    case MissingRetainedNonce => Winners
    case MissingRetainedDifficulty => Difficulty
  }

  ghost function MarkUnavailable(s: State, genesis: Hash, b: Absence): (State, Result<CommitResult>) {
    if b.guard.domain != ReasonDomain(b.reason) || b.height > U64_MAX then (s, Err(Invalid))
    else if s.genesis != Some(genesis) then (s, Err(NetworkIdentity))
    else if Generation(s, b.guard.domain) != b.guard.expected then (s, Ok(StaleGeneration))
    else if HashConflict(s, b.height, b.hash) then (s, Err(ConflictingHistory))
    else
      var loaded := Load(s.coverage, b.guard.domain, b.guard.expected, 0);
      if loaded.Err? then (s, Err(loaded.error))
      else if Contains(loaded.value, b.height, b.height) then (s, Ok(AlreadyApplied))
      else
        var key: (Domain, u64, u64) := (b.guard.domain, b.guard.expected, b.height);
        var marker := Marker(b.hash, b.enrichmentAt, CheckedSucc(b.height));
        var known := key in s.unavailable;
        (s.(unavailable := if known then s.unavailable else s.unavailable[key := marker],
            finalized := InsertHash(s.finalized, b.height, b.hash)),
         Ok(if known then AlreadyApplied else Applied))
  }

  /** The finalized target only moves up; equal heights must agree on the hash. */
  function SetTarget(s: State, height: nat, hash: Hash): (State, Result<CommitResult>) {
    if s.genesis.None? then (s, Err(NetworkIdentity))
    else if s.target.Some? && (s.target.value.0 > U64_MAX || height > U64_MAX) then (s, Err(Invalid))
    else if s.target.Some? && s.target.value.0 > height then (s, Ok(AlreadyApplied))
    else if s.target.Some? && s.target.value.0 == height then
      (s, if s.target.value.1 != hash then Err(ConflictingHistory) else Ok(AlreadyApplied))
    else (s.(target := Some((height, hash))), Ok(Applied))
  }

  // ---------------------------------------------------------------- reindex

  /** Some requested domain cannot move to its next generation. */
  ghost predicate ReindexBlocked(s: State, ds: set<Domain>) {
    exists d :: d in ds && (Generation(s, d) == U64_MAX || Load(s.coverage, d, Generation(s, d), 0).Err?)
  }

  function ReindexRecords(t: Records, ds: set<Domain>): Records {
    Records(
      if Winners in ds then W.EmptyTables() else t.winners,
      if Difficulty in ds then D.Reindex(t.difficulty) else t.difficulty,
      if Authorship in ds then A.Reindex(t.authorship) else t.authorship,
      if Participation in ds then map[] else t.participation)
  }

  /** A kept authorship floor survives its reindex as empty coverage. */
  ghost function ReindexCoverage(s: State, ds: set<Domain>): map<Domain, Coverage>
    requires !ReindexBlocked(s, ds)
  {
    var kept := s.coverage - ds;
    if Authorship in ds && Authorship in s.coverage && s.coverage[Authorship].start > 0
    then kept[Authorship := EmptyCoverage(Generation(s, Authorship) + 1, s.coverage[Authorship].start)]
    else kept
  }

  ghost function Reindex(s: State, ds: set<Domain>): (State, Result<set<Guard>>) {
    if s.genesis.None? then (s, Err(NetworkIdentity))
    else if ReindexBlocked(s, ds) then (s, Err(Invalid))
    else
      (s.(generations := s.generations + (map d | d in ds :: Generation(s, d) + 1),
          coverage := ReindexCoverage(s, ds),
          unavailable := (map k | k in s.unavailable && k.0 !in ds :: s.unavailable[k]),
          scans := (map id | id in s.scans && s.scans[id].domain !in ds :: s.scans[id]),
          scanWinners := (set p | p in s.scanWinners && !(p.0 in s.scans && s.scans[p.0].domain in ds)),
          records := ReindexRecords(s.records, ds)),
       Ok(set d | d in ds :: Guard(d, Generation(s, d) + 1)))
  }

  // ---------------------------------------------------------------- other record writers

  function InsertSnapshot(s: State, d: D.Row, latest: Option<D.Row>): (State, Result<CommitResult>) {
    if d.source != D.Poll then (s, Err(Invalid))
    else if s.genesis.None? then (s, Err(NetworkIdentity))
    else (s.(records := s.records.(difficulty := D.Snapshot(s.records.difficulty, d, latest).value)), Ok(Applied))
  }

  function TryCutover(s: State): (State, Result<bool>) {
    if s.genesis.None? then (s, Err(NetworkIdentity))
    else
      var (t, done) := A.TryCutover(s.records.authorship);
      (s.(records := s.records.(authorship := t)), Ok(done))
  }

  function BindNetwork(s: State, genesis: Hash): (State, Result<CommitResult>) {
    if s.genesis.None? then (s.(genesis := Some(genesis)), Ok(Applied))
    else if s.genesis == Some(genesis) then (s, Ok(AlreadyApplied))
    else (s, Err(NetworkIdentity))
  }

  // ---------------------------------------------------------------- runs

  datatype Op =
    | OpBind(genesis: Hash)
    | OpCommit(batch: BlockCommit)
    | OpBegin(scan: Scan)
    | OpAppend(page: Page)
    | OpRange(range: RangeCompletion)
    | OpFloor(guard: Guard, floor: Option<nat>)
    | OpInitialize(domain: Domain, expected: u64, start: nat)
    | OpMark(markGenesis: Hash, absence: Absence)
    | OpTarget(height: nat, hash: Hash)
    | OpReindex(domains: set<Domain>)
    | OpSnapshot(row: D.Row, latest: Option<D.Row>)
    | OpCutover

  ghost function Step(s: State, op: Op): State {
    match op
    case OpBind(g) => BindNetwork(s, g).0
    case OpCommit(b) => CommitBlock(s, b).0
    case OpBegin(scan) => BeginScan(s, scan).0
    case OpAppend(p) => AppendPage(s, p).0
    case OpRange(r) => CommitRange(s, r).0
    case OpFloor(g, f) => SetPrunedFloor(s, g, f).0
    case OpInitialize(d, e, n) => InitializeCoverage(s, d, e, n).0
    case OpMark(g, b) => MarkUnavailable(s, g, b).0
    case OpTarget(n, h) => SetTarget(s, n, h).0
    case OpReindex(ds) => Reindex(s, ds).0
    case OpSnapshot(d, l) => InsertSnapshot(s, d, l).0
    case OpCutover => TryCutover(s).0
  }

  /** The state after a sequence of transactions. */
  ghost function After(s: State, ops: seq<Op>): State {
    if ops == [] then s else Step(After(s, ops[..|ops| - 1]), ops[|ops| - 1])
  }

  lemma {:induction false} AfterAppend(s: State, xs: seq<Op>, ys: seq<Op>)
    ensures After(s, xs + ys) == After(After(s, xs), ys)
  {
    hide Step;
    if ys == [] {
      assert xs + ys == xs;
    } else {
      var init := ys[..|ys| - 1];
      AfterAppend(s, xs, init);
      assert (xs + ys)[..|xs + ys| - 1] == xs + init;
    }
  }
}
