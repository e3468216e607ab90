/** The driver of the protocol: chunks of backfill for a sparse domain, as code over the
    store object, under arbitrary interference. Between any two of its reads and writes
    other tasks may commit any transactions at all, including reindexes. */
module BackfillDriver {
  import opened Prelude
  import opened Ordering
  import opened CoverageAlgebra
  import opened StoreModel
  import opened Protocol
  import opened DurableStore
  import opened Backfill
  import opened Convergence
  import S = Soundness
  import Planning
  import Retry
  import E = Enumeration

  datatype Failure = InitialStale | StoreFailed(error: StoreError) | ScanGone | ChainFailed | InconsistentPage
                   | ProcessFailed | RangeRefused

  /** How a chunk ends: nothing retryable, overtaken by a reindex, one more page of the
      enumeration stored, heights worked off, or an error. */
  datatype Outcome = Idle | Superseded | Paged | Worked | Failed(why: Failure)

  /** Whether the scan can be replayed, or why not yet. */
  datatype Progress = Finished | PageStored | EnumerationFailed(why: Failure)

  /** The first retryable interval, if any. */
  datatype Pick = Nothing | Range(from: u64, through: u64)

  datatype Visit = Committed | Uncommitted | Overtaken | VisitFailed | Refused

  class Driver {
    const store: Store
    const genesis: Hash
    const world: World
    var clock: nat

    /** The chain the node serves, and which heights hold winners. */
    ghost const chain: E.Chain
    ghost const won: nat -> bool

    /** Every transaction since the store was fresh, and every target a chunk was given. */
    ghost var trace: seq<Op>
    ghost var targets: set<(Hash, nat)>

    /** How every chunk so far ended. */
    ghost var outcomes: seq<Outcome>

    constructor (store: Store, genesis: Hash, world: World, ghost chain: E.Chain, ghost won: nat -> bool, ghost trace: seq<Op>)
      requires store.Value() == After(FreshStore(), trace) && Truthful(chain, won, trace)
      ensures Valid() && this.store == store && this.genesis == genesis && this.world == world
      ensures this.chain == chain && this.won == won && this.trace == trace && outcomes == []
    {
      this.store, this.genesis, this.world, clock := store, genesis, world, 0;
      this.chain, this.won, this.trace, targets, outcomes := chain, won, trace, {}, [];
      FreshIsGood();
      RunIsGood(FreshStore(), trace);
    }

    /** The world is truthful, and the targets are blocks whose snapshot contains the winners
        it should. */
    ghost predicate Assumed()
      reads `targets
    {
      TruthfulWorld(world, chain, won) && forall p :: p in targets ==> E.SnapshotKnows(chain, won, p.0, p.1)
    }

    /** The store is what the trace makes of it, and the driver adds nothing untruthful. */
    ghost predicate Valid()
      reads this, store
    {
      && Good(store.Value())
      && store.Value() == After(FreshStore(), trace)
      && (Assumed() ==> Truthful(chain, won, trace))
    }

    /** In every state the driver reaches, a finished scan holds exactly the heights of its
        snapshot's map. */
    lemma FinishedIsComplete(id: string, h: nat)
      requires Valid() && Assumed() && id in store.scans && store.scans[id].finished
      ensures (id, h) in store.scanWinners <==> E.HeightAt(chain, store.scans[id].at, h)
    {
      TruthfulRun(chain, won, trace);
      hide Good, Truthful, After, E.HeightAt;
      E.FinishedScanIsComplete(chain, trace, id, h);
    }

    /** In every state the driver reaches, a covered winner of a sparse domain was committed
        in the current generation. */
    lemma SkipsNoWinner(d: Domain, h: nat)
      requires Valid() && Assumed() && d != Authorship && won(h) && CoveredIn(store.Value().coverage, d, h)
      ensures S.CommittedBy(trace, d, Generation(store.Value(), d), h)
    {
      TruthfulRun(chain, won, trace);
      E.NoWinnerIsSkipped(chain, won, trace, d, h);
    }

    // -------------------------------------------------------------- recorded transactions

    ghost method Record(ops: seq<Op>, before: State)
      requires before == After(FreshStore(), trace) && Good(before) && store.Value() == After(before, ops)
      requires Assumed() ==> Truthful(chain, won, trace) && Truthful(chain, won, ops)
      modifies this`trace
      ensures Valid() && trace == old(trace) + ops
    {
      hide Good, Truthful, TruthfulWorld;
      RunIsGood(before, ops);
      AfterAppend(FreshStore(), trace, ops);
      if Assumed() {
        TruthfulAppend(chain, won, trace, ops);
      }
      trace := trace + ops;
    }

    ghost method RecordOne(op: Op, before: State)
      requires before == After(FreshStore(), trace) && Good(before) && store.Value() == Step(before, op)
      requires Assumed() ==> Truthful(chain, won, trace) && TruthfulOp(chain, won, op)
      modifies this`trace
      ensures Valid() && trace == old(trace) + [op]
    {
      hide Good, TruthfulOp, TruthfulWorld, Step;
      assert [op][..0] == [];
      assert After(before, [op]) == Step(After(before, []), op);
      Record([op], before);
    }

    /** A transaction that neither begins a scan nor appends a page. */
    ghost method RecordPlain(op: Op, before: State)
      requires before == After(FreshStore(), trace) && Good(before) && store.Value() == Step(before, op)
      requires Assumed() ==> Truthful(chain, won, trace)
      requires !op.OpBegin? && !op.OpAppend?
      modifies this`trace
      ensures Valid() && trace == old(trace) + [op]
    {
      OtherCallsTruthful(chain, won, op);
      hide Good, TruthfulOp, TruthfulWorld, Step, Truthful;
      RecordOne(op, before);
    }

    /** An await: whatever others commit before the driver continues. */
    method Yield(ghost d: Domain)
      requires Valid()
      modifies this`clock, this`trace, store
      ensures Valid() && old(trace) <= trace && Waits(world, d, old(store.Value()), store.Value())
      ensures Moves(world, d, old(store.Value()), store.Value())
    {
      ghost var s := store.Value();
      var ops := world.others(clock);
      OthersWait(world, clock, d, s);
      WaitsMoves(world, d, s, After(s, ops));
      store.Run(ops);
      hide Good, Waits, Moves, Truthful;
      Record(ops, s);
      clock := clock + 1;
    }

    // -------------------------------------------------------------- replaying winners

    /** Processing one height commits, marks, prunes or does nothing. */
    method BackfillBlock(scan: Scan, height: u64, ghost start: u64) returns (ok: bool)
      requires Valid() && Begun(store.Value(), scan, start) && start <= height
      modifies this`clock, this`trace, store
      ensures Valid() && old(trace) <= trace && Moves(world, scan.domain, old(store.Value()), store.Value())
      ensures Handles(world, scan.domain) ==> Settled(store.Value(), scan, height)
      ensures !ok ==> SomeFails(world)
    {
      hide Good, Moves, Waits, Handles, Settled, Begun, Follows, Truthful, SomeFails;
      ghost var first := store.Value();
      Yield(scan.domain);
      ghost var s := store.Value();
      var ops := world.process(clock, store.Value(), height);
      ProcessedStep(world, clock, first, s, scan, start, height);
      store.Run(ops);
      if Assumed() {
        ProcessTruthful(world, chain, won, clock, s, height);
      }
      Record(ops, s);
      ok := !world.failed(clock);
      FailedAt(world, clock);
      clock := clock + 1;
    }

    /** `finish_range` is never refused: the range always meets the completeness check. */
    method FinishRange(scan: Scan, from: u64, through: u64, ghost start: u64, ghost heights: set<nat>)
      returns (r: Result<CommitResult>)
      requires Valid() && Begun(store.Value(), scan, start) && Frozen(store.Value(), scan, heights)
      requires scan.domain != Authorship && start <= from <= through <= scan.finalizedHeight <= U64_MAX
      requires AllComplete(store.Value(), scan, HeightsIn(heights, from, through))
      modifies this`clock, this`trace, store
      ensures Valid() && old(trace) <= trace && Moves(world, scan.domain, old(store.Value()), store.Value())
      ensures r.Ok?
      ensures forall n :: from <= n <= through ==> Settled(store.Value(), scan, n)
    {
      hide Good, Begun, Frozen, AllComplete, HeightsIn, Follows, CommitRange, Settled, Moves, Waits, Assumed, Truthful;
      ghost var first := store.Value();
      Yield(scan.domain);
      ghost var s := store.Value();
      MovesFollows(world, scan.domain, first, s);
      RangeStep(first, s, scan, start, heights, from, through);
      ghost var op := OpRange(Completion(scan, from, through));
      StepMoves(world, scan.domain, s, op);
      MovesTransitive(world, scan.domain, first, s, Step(s, op));
      r := store.CommitRange(Completion(scan, from, through));
      RecordPlain(op, s);
    }

    /** Process one discovered winner and see whether it was committed. */
    method VisitWinner(scan: Scan, height: u64, ghost start: u64, ghost heights: set<nat>, ghost from: u64,
                       ghost rows: seq<nat>, ghost i: nat, ghost c: int, ghost handled: bool) returns (v: Visit)
      requires Valid() && Replaying(store.Value(), scan, start, heights, from, rows, i, c, handled) && start <= height
      modifies this`clock, this`trace, store
      ensures Valid() && old(trace) <= trace && Moves(world, scan.domain, old(store.Value()), store.Value())
      ensures Replaying(store.Value(), scan, start, heights, from, rows, i, c, handled)
      ensures Handles(world, scan.domain) ==> Settled(store.Value(), scan, height)
      ensures v == Overtaken ==> Generation(store.Value(), scan.domain) != scan.expected
      ensures v == Committed ==>
              scan.domain in store.coverage && Contains(store.coverage[scan.domain], height, height)
      ensures v == VisitFailed ==> SomeFails(world)
      ensures v != Refused
    {
      hide Follows, Replaying, Contains, Moves, Waits, Handles, Settled, SomeFails, Assumed, Truthful, Begun;
      ghost var s0 := store.Value();
      assert Begun(s0, scan, start) by { ReplayingBegun(s0, scan, start, heights, from, rows, i, c, handled); }
      var ok := BackfillBlock(scan, height, start);
      ghost var s1 := store.Value();
      MovesFollows(world, scan.domain, s0, s1);
      ReplayLater(s0, s1, scan, start, heights, from, rows, i, c, handled);
      if !ok {
        return VisitFailed;
      }
      Yield(scan.domain);
      ghost var s2 := store.Value();
      MovesTransitive(world, scan.domain, s0, s1, s2);
      ReplayLater(s1, s2, scan, start, heights, from, rows, i, c, handled);
      if Handles(world, scan.domain) {
        BegunGeneration(s0, scan, start);
        LaterGeneration(s0, s1, scan.domain);
        SettledLater(s1, s2, scan, height);
      }
      if scan.domain !in store.coverage || store.coverage[scan.domain].gen != scan.expected {
        GoodInv(s2);
        LostCoverage(s2, scan, start, heights, from, rows, i, c, handled);
        return Overtaken;
      }
      return if Contains(store.coverage[scan.domain], height, height) then Committed else Uncommitted;
    }

    /** Move past a winner that was not committed, after completing the stretch before it. */
    method SkipWinner(scan: Scan, cursor: Option<u64>, height: u64, ghost start: u64, ghost heights: set<nat>, ghost from: u64,
                      ghost rows: seq<nat>, ghost i: nat, ghost c: int, ghost handled: bool) returns (ok: bool)
      requires Valid() && Replaying(store.Value(), scan, start, heights, from, rows, i, c, handled)
      requires i < |rows| && height == rows[i] && height <= scan.finalizedHeight <= U64_MAX && scan.domain != Authorship
      requires start <= from <= c <= Upto(from, rows, i) + 1 && cursor == CursorAt(c)
      requires handled ==> Settled(store.Value(), scan, height)
      modifies this`clock, this`trace, store
      ensures Valid() && old(trace) <= trace && Moves(world, scan.domain, old(store.Value()), store.Value()) && ok
      ensures Replaying(store.Value(), scan, start, heights, from, rows, i + 1, height as int + 1, handled)
    {
      hide Good, Begun, Frozen, Follows, Settled, Replaying, AllComplete, HeightsIn, Moves, Waits, Assumed, Truthful;
      ghost var s := store.Value();
      SameFollows(s);
      SameMoves(world, scan.domain, s);
      if cursor.Some? && cursor.value < height {
        ReplayGap(s, scan, start, heights, from, rows, i, c, handled);
        var finish := FinishRange(scan, cursor.value, height - 1, start, heights);
        MovesFollows(world, scan.domain, s, store.Value());
        if finish.Err? {
          return false;
        }
      }
      ReplaySkips(s, store.Value(), scan, start, heights, from, rows, i, c, handled);
      return true;
    }

    /** One round of the replay: visit a winner and move the cursor past it if need be. */
    method PassWinner(scan: Scan, cursor: Option<u64>, height: u64, ghost start: u64, ghost heights: set<nat>, ghost from: u64,
                      ghost rows: seq<nat>, ghost i: nat, ghost c: int, ghost handled: bool)
      returns (v: Visit, next: Option<u64>, ghost e: int)
      requires Valid() && Replaying(store.Value(), scan, start, heights, from, rows, i, c, handled)
      requires i < |rows| && height == rows[i] && height <= scan.finalizedHeight <= U64_MAX && scan.domain != Authorship
      requires start <= from <= c <= Upto(from, rows, i) + 1 && from <= height && cursor == CursorAt(c) && RowsFrom(from, rows)
      requires handled ==> Handles(world, scan.domain)
      modifies this`clock, this`trace, store
      ensures Valid() && old(trace) <= trace && Moves(world, scan.domain, old(store.Value()), store.Value())
      ensures v == Overtaken ==> Generation(store.Value(), scan.domain) != scan.expected
      ensures v == VisitFailed ==> SomeFails(world)
      ensures v != Refused
      ensures v == Committed || v == Uncommitted ==>
              Replaying(store.Value(), scan, start, heights, from, rows, i + 1, e, handled)
              && from <= e <= height as int + 1 && next == CursorAt(e)
    {
      hide Good, Begun, Frozen, Follows, Settled, Replaying, Contains, Moves, Waits, Handles, SomeFails, Assumed, Truthful, Generation;
      ghost var first := store.Value();
      next, e := cursor, c;
      v := VisitWinner(scan, height, start, heights, from, rows, i, c, handled);
      ghost var s := store.Value();
      if v == Committed {
        GoodInv(s);
        ReplayCommitted(s, scan, start, heights, from, rows, i, c, handled);
        UptoNext(from, rows, i);
      } else if v == Uncommitted {
        var skipped := SkipWinner(scan, cursor, height, start, heights, from, rows, i, c, handled);
        MovesTransitive(world, scan.domain, first, s, store.Value());
        if !skipped {
          return Refused, next, e;
        }
        next, e := CheckedSucc(height), height as int + 1;
      }
    }

    /** Complete the last stretch: a full page of winners proves only its own prefix. */
    method FinishRest(scan: Scan, cursor: Option<u64>, ceiling: u64, last: Option<u64>, rows: seq<nat>, ghost start: u64,
                      ghost heights: set<nat>, ghost from: u64, ghost i: nat, ghost c: int, ghost handled: bool)
      returns (ok: bool)
      requires Valid() && Replaying(store.Value(), scan, start, heights, from, rows, i, c, handled)
      requires i <= |rows| && RowsFrom(from, rows) && scan.domain != Authorship
      requires start <= from <= ceiling <= scan.finalizedHeight <= U64_MAX && from <= c && cursor == CursorAt(c)
      requires i < |rows| ==> last == Some(ceiling) && ceiling < rows[i]
      requires i == |rows| ==> last == (if i == 0 then None else Some(rows[i - 1]))
      requires i == |rows| && i > 0 ==> rows[i - 1] <= ceiling
      modifies this`clock, this`trace, store
      ensures Valid() && old(trace) <= trace && Moves(world, scan.domain, old(store.Value()), store.Value()) && ok
      ensures Replayed(store.Value(), scan, heights, from, ceiling, handled)
    {
      hide Good, Begun, Frozen, Follows, Settled, Replaying, AllComplete, HeightsIn, Moves, Waits, Assumed, Truthful, Replayed;
      ghost var s := store.Value();
      SameFollows(s);
      SameMoves(world, scan.domain, s);
      var end := if |rows| < 16 then Some(ceiling) else last;
      if cursor.Some? && end.Some? && cursor.value <= end.value {
        ReplayRest(s, scan, start, heights, from, rows, i, c, handled, end.value);
        var finish := FinishRange(scan, cursor.value, end.value, start, heights);
        MovesFollows(world, scan.domain, s, store.Value());
        if finish.Err? {
          return false;
        }
      }
      ReplayEnds(s, store.Value(), scan, start, heights, from, rows, i, c, handled, ceiling, end.value);
      return true;
    }

    /** The next discovered winners at or above `from`. */
    method NextWinners(scan: Scan, from: u64, ghost start: u64, ghost heights: set<nat>, ghost handled: bool) returns (rows: seq<nat>)
      requires Valid() && Begun(store.Value(), scan, start) && Frozen(store.Value(), scan, heights)
      modifies this`clock, this`trace, store
      ensures Valid() && old(trace) <= trace && Moves(world, scan.domain, old(store.Value()), store.Value()) && RowsFrom(from, rows)
      ensures Replaying(store.Value(), scan, start, heights, from, rows, 0, from, handled)
    {
      hide Good, Begun, Frozen, Follows, Replaying, Moves, Waits, Assumed, Truthful;
      ghost var first := store.Value();
      Yield(scan.domain);
      MovesFollows(world, scan.domain, first, store.Value());
      BegunLater(first, store.Value(), scan, start);
      FrozenLater(first, store.Value(), scan, start, heights);
      rows := store.ScanWinners(scan.id, Before(from), 16);
      GoodFits(store.Value());
      RowsFit(store, scan, from, rows);
      ReplayBegins(store, scan, start, heights, from, rows);
    }

    /** Work through the next discovered winners at or above `from`, completing the
        stretches between them. */
    method Replay(scan: Scan, from: u64, through: u64, ghost start: u64, ghost heights: set<nat>) returns (outcome: Outcome)
      requires Valid() && Begun(store.Value(), scan, start) && Frozen(store.Value(), scan, heights)
      requires scan.domain != Authorship && start <= from <= through && from <= scan.finalizedHeight <= U64_MAX
      modifies this`clock, this`trace, store
      ensures Valid() && old(trace) <= trace && Moves(world, scan.domain, old(store.Value()), store.Value())
      ensures outcome.Worked? || outcome.Superseded? || outcome == Failed(ProcessFailed)
      ensures outcome.Superseded? ==> Generation(store.Value(), scan.domain) != scan.expected
      ensures outcome.Worked? ==>
              Replayed(store.Value(), scan, heights, from, Min(scan.finalizedHeight, through), Handles(world, scan.domain))
      ensures outcome == Failed(ProcessFailed) ==> SomeFails(world)
    {
      hide Good, Begun, Frozen, Follows, Settled, Replaying, Contains, Moves, Waits, Handles, SomeFails, Assumed, Truthful, Generation,
        Replayed;
      ghost var first := store.Value();
      ghost var handled := Handles(world, scan.domain);
      var ceiling: u64 := Min(scan.finalizedHeight, through);
      var rows := NextWinners(scan, from, start, heights, handled);
      var cursor: Option<u64> := Some(from);
      var last: Option<u64> := None;
      ghost var c: int := from;
      var i := 0;
      while i < |rows|
        invariant 0 <= i <= |rows|
        invariant Valid() && old(trace) <= trace && Moves(world, scan.domain, first, store.Value())
        invariant Replaying(store.Value(), scan, start, heights, from, rows, i, c, handled)
        invariant from <= c <= Upto(from, rows, i) + 1 && cursor == CursorAt(c)
        invariant last == if i == 0 then None else Some(rows[i - 1])
        invariant i > 0 ==> rows[i - 1] <= ceiling
      {
        var height: u64 := rows[i];
        if height > ceiling {
          last := Some(ceiling);
          break;
        }
        ghost var s := store.Value();
        var visit;
        visit, cursor, c := PassWinner(scan, cursor, height, start, heights, from, rows, i, c, handled);
        MovesTransitive(world, scan.domain, first, s, store.Value());
        if visit == VisitFailed {
          return Failed(ProcessFailed);
        }
        if visit == Overtaken {
          return Superseded;
        }
        if visit == Refused {
          return Failed(RangeRefused);
        }
        last := Some(height);
        i := i + 1;
      }
      ghost var s := store.Value();
      var finished := FinishRest(scan, cursor, ceiling, last, rows, start, heights, from, i, c, handled);
      MovesTransitive(world, scan.domain, first, s, store.Value());
      return if finished then Worked else Failed(RangeRefused);
    }

    // -------------------------------------------------------------- enumerating

    /** Append the page of a response to the scan. */
    method AppendResponse(scan: Scan, cursor: Option<Key>, p: E.WinnerPage, ghost moment: nat, ghost start: u64)
      returns (r: Result<CommitResult>)
      requires Valid() && Begun(store.Value(), scan, start)
      requires Assumed() ==> scan.at == chain.pinned(scan.id)
      requires var response := world.response(moment, scan.at, cursor);
               response.Some? && E.AllKeys(response.value) && E.PageOf(p, E.KeysOf(response.value), PAGE_SIZE, world.decode)
      modifies this`clock, this`trace, store
      ensures Valid() && old(trace) <= trace && Follows(old(store.Value()), store.Value()) && Begun(store.Value(), scan, start)
      ensures Calm(world) && Open(old(store.Value()), scan, cursor) ==>
              EnumeratesAlone(world, chain, old(store.Value()), store.Value(), scan, Reported(r))
      ensures Comes(world, trace, Reported(r))
    {
      hide Good, Begun, Follows, AppendPage, E.PageOf, Moves, Waits, Calm, Truthful, E.HonestPage, E.KeysOf, EnumeratesAlone, Open;
      ghost var first := store.Value();
      Yield(scan.domain);
      ghost var s := store.Value();
      MovesFollows(world, scan.domain, first, s);
      var next := Page(scan.id, cursor, p.continuation, p.heights);
      AppendIsGood(s, next);
      FollowsTransitive(first, s, AppendPage(s, next).0);
      BegunLater(first, AppendPage(s, next).0, scan, start);
      if Assumed() {
        AppendedPageHonest(world, chain, moment, scan, cursor, p);
      }
      AppendedAlone(world, chain, first, s, moment, scan, cursor, p);
      ghost var before := trace;
      r := store.AppendPage(next);
      RecordOne(OpAppend(next), s);
      AppendComes(world, before, s, next);
    }

    /** Ask the node for the page after the cursor. */
    method AskNode(scan: Scan, cursor: Option<Key>) returns (page: Option<E.WinnerPage>, ghost moment: nat)
      requires Valid()
      modifies this`clock, this`trace, store
      ensures Valid() && old(trace) <= trace && Follows(old(store.Value()), store.Value())
      ensures page.Some? ==>
              var response := world.response(moment, scan.at, cursor);
              response.Some? && E.AllKeys(response.value) && E.PageOf(page.value, E.KeysOf(response.value), PAGE_SIZE, world.decode)
      ensures page.Some? ==> page.value.at == scan.at
      ensures Moves(world, scan.domain, old(store.Value()), store.Value())
      ensures CanAdvance(world, chain, store.Value(), scan) ==> page.Some?
      ensures page.None? ==> !Readable(world, moment, scan.at, cursor)
    {
      hide Good, Follows, E.PageOf, Moves, Waits, Assumed, Truthful, E.Ascending, E.KeysOf, CanAdvance;
      ghost var first := store.Value();
      Yield(scan.domain);
      MovesFollows(world, scan.domain, first, store.Value());
      moment := clock;
      ServedPageReadable(world, chain, store.Value(), moment, scan, cursor);
      var response := world.response(clock, scan.at, cursor);
      if response.None? {
        return None, moment;
      }
      var resume := if cursor.Some? then Some((scan.at, cursor.value)) else None;
      page := E.ReadPage(scan.at, resume, PAGE_SIZE, response.value, world.decode);
    }

    /** Ask the node for the page after the cursor and append it. */
    method FetchPage(scan: Scan, cursor: Option<Key>, ghost start: u64) returns (r: Progress)
      requires Valid() && Begun(store.Value(), scan, start)
      requires Assumed() ==> scan.at == chain.pinned(scan.id)
      modifies this`clock, this`trace, store
      ensures Valid() && old(trace) <= trace && Follows(old(store.Value()), store.Value()) && Begun(store.Value(), scan, start)
      ensures r.PageStored? || (r.EnumerationFailed? && (r.why.ChainFailed? || r.why.StoreFailed?))
      ensures Comes(world, trace, r)
      ensures Calm(world) && Open(old(store.Value()), scan, cursor) ==>
              EnumeratesAlone(world, chain, old(store.Value()), store.Value(), scan, r)
    {
      hide Good, Begun, Follows, E.PageOf, Moves, Assumed, Truthful, EnumeratesAlone, Calm, CanAdvance, E.KeysOf, Open, Readable, Comes;
      ghost var first := store.Value();
      var page;
      ghost var moment;
      page, moment := AskNode(scan, cursor);
      ghost var s := store.Value();
      BegunLater(first, s, scan, start);
      OpenLater(world, first, s, scan, cursor);
      if page.None? {
        StuckAlone(world, chain, s, scan, cursor, EnumerationFailed(ChainFailed));
        QuietThenEnumerates(world, chain, first, s, s, scan, EnumerationFailed(ChainFailed));
        UnreadableComes(world, trace, moment, scan.at, cursor);
        return EnumerationFailed(ChainFailed);
      }
      var p := page.value;
      PageConsistent(p, E.KeysOf(world.response(moment, scan.at, cursor).value), PAGE_SIZE, world.decode);
      if p.at != scan.at || (!p.exhausted && p.continuation.None?) || (p.exhausted && p.continuation.Some?) {
        return EnumerationFailed(InconsistentPage);
      }
      var appended := AppendResponse(scan, cursor, p, moment, start);
      QuietThenEnumerates(world, chain, first, s, store.Value(), scan, Reported(appended));
      FollowsTransitive(first, s, store.Value());
      return Reported(appended);
    }

    /** Store one more page of an unfinished scan. */
    method EnumeratePage(scan: Scan, ghost start: u64) returns (r: Progress, ghost heights: set<nat>)
      requires Valid() && Begun(store.Value(), scan, start)
      requires Assumed() ==> scan.at == chain.pinned(scan.id)
      modifies this`clock, this`trace, store
      ensures Valid() && old(trace) <= trace && Follows(old(store.Value()), store.Value()) && Begun(store.Value(), scan, start)
      ensures r.Finished? ==> Frozen(store.Value(), scan, heights)
      ensures r == EnumerationFailed(ScanGone) ==> Generation(store.Value(), scan.domain) != scan.expected
      ensures r.EnumerationFailed? ==> r.why.ScanGone? || r.why.ChainFailed? || r.why.StoreFailed?
      ensures Comes(world, trace, r)
      ensures Calm(world) ==> EnumeratesAlone(world, chain, old(store.Value()), store.Value(), scan, r)
    {
      hide Good, Begun, Frozen, Follows, Moves, Waits, Assumed, Truthful, EnumeratesAlone, Calm, Generation;
      ghost var first := store.Value();
      heights := {};
      Yield(scan.domain);
      ghost var s := store.Value();
      MovesFollows(world, scan.domain, first, s);
      BegunLater(first, s, scan, start);
      if scan.id !in store.scans {
        GoneMeansReindexed(s, scan, start);
        GoneAlone(world, chain, s, scan, EnumerationFailed(ScanGone));
        QuietThenEnumerates(world, chain, first, s, s, scan, EnumerationFailed(ScanGone));
        return EnumerationFailed(ScanGone), heights;
      }
      var progress := store.scans[scan.id];
      if progress.finished {
        heights := store.HeightsOf(scan.id);
        FinishedIsFrozen(store, scan);
        FinishedAlone(world, chain, s, scan);
        QuietThenEnumerates(world, chain, first, s, s, scan, Finished);
        return Finished, heights;
      }
      r := FetchPage(scan, progress.cursor, start);
      QuietThenEnumerates(world, chain, first, s, store.Value(), scan, r);
      FollowsTransitive(first, s, store.Value());
    }

    // -------------------------------------------------------------- picking a range

    /** The first retryable interval of an uncovered one, by three queries between which
        markers may be added. */
    method RetryableRange(d: Domain, gen: u64, from: u64, through: u64) returns (r: Option<Interval>)
      requires Valid() && from <= through && Initialized(store.Value(), d, gen)
      modifies this`clock, this`trace, store
      ensures Valid() && old(trace) <= trace && Waits(world, d, old(store.Value()), store.Value())
      ensures r.Some? ==> from <= r.value.lo <= r.value.hi <= through
      ensures r.Some? && Generation(store.Value(), d) == gen ==> r.value.lo !in Marked(old(store.Value()), d, gen)
      ensures r.None? && Generation(store.Value(), d) == gen ==> Retry.AllMarked(Marked(store.Value(), d, gen), from, through)
      ensures r.Some? && Undisturbed(world) && Generation(store.Value(), d) == gen ==>
              Retry.FirstUnmarked(Marked(store.Value(), d, gen), from, through, r.value)
    {
      hide Good, Follows, Initialized, Waits, Undisturbed, Assumed, Truthful, Retry.AllMarked, Marked, Generation, MarkInv, After,
        Moves;
      ghost var first := store.Value();
      YieldMarks(d, gen);
      ghost var s := store.Value();
      var unavailable := store.IsUnavailable(d, gen, from);
      var start := from;
      if unavailable {
        YieldMarks(d, gen);
        WaitsTransitive(world, d, first, s, store.Value());
        LaterGeneration(s, store.Value(), d);
        s := store.Value();
        var next := store.NextRetryStart(d, gen, from, through);
        if next.None? {
          return None;
        }
        start := next.value;
      }
      InitializedGeneration(s, d, gen);
      WaitsMoves(world, d, first, s);
      MarkedGrows(first, s, d, gen);
      YieldMarks(d, gen);
      WaitsTransitive(world, d, first, s, store.Value());
      LaterGeneration(s, store.Value(), d);
      var end := store.RetryEnd(d, gen, start, through);
      return Some(Interval(start, end));
    }

    /** An await before a query of the markers. */
    method YieldMarks(ghost d: Domain, ghost gen: u64)
      requires Valid() && Initialized(store.Value(), d, gen)
      modifies this`clock, this`trace, store
      ensures Valid() && old(trace) <= trace && Waits(world, d, old(store.Value()), store.Value())
      ensures Initialized(store.Value(), d, gen) && MarkInv(store.Value())
      ensures Generation(store.Value(), d) == gen ==> Marked(old(store.Value()), d, gen) <= Marked(store.Value(), d, gen)
      ensures Undisturbed(world) ==> store.Value() == old(store.Value())
    {
      hide Good, Follows, Initialized, Waits, Undisturbed, Assumed, Truthful, Marked, Generation, MarkInv;
      ghost var first := store.Value();
      Yield(d);
      WaitsMoves(world, d, first, store.Value());
      MarkedGrows(first, store.Value(), d, gen);
      InitializedLater(first, store.Value(), d, gen);
      GoodMarks(store.Value());
    }

    /** The first retryable interval of the domain's uncovered heights. Nothing is picked only
        when all that the store asked for, at the moment it was read, is handled. */
    method PickRange(d: Domain, gen: u64, target: u64) returns (r: Pick)
      requires Valid() && Initialized(store.Value(), d, gen)
      modifies this`clock, this`trace, store
      ensures Valid() && old(trace) <= trace && Waits(world, d, old(store.Value()), store.Value())
      ensures Initialized(store.Value(), d, gen)
      ensures r.Range? ==> r.from <= r.through <= target && Wanted(old(store.Value()), store.Value(), d, gen, r.from)
      ensures r.Nothing? && Generation(store.Value(), d) == gen ==> NothingLeft(trace, |old(trace)|, d, target)
      ensures r.Nothing? && Generation(store.Value(), d) == gen && FloorsStay(world) ==> Drained(store.Value(), d, target)
    {
      hide Good, Follows, Initialized, Wanted, NothingLeft, Drained, Planning.IsPlan, Retry.AllMarked, Retry.FirstUnmarked, Moves,
        Waits, Assumed, Truthful, Marked, Generation, WellFormed, RangesHandled, After, FloorsStay;
      ghost var first := store.Value();
      Yield(d);
      ghost var s1 := store.Value();
      ghost var seen := trace;
      WaitsMoves(world, d, first, s1);
      InitializedLater(first, s1, d, gen);
      if d !in store.coverage {
        MissingMeansReindexed(s1, d, gen);
        return Nothing;
      }
      ghost var c := store.coverage[d];
      assert WellFormed(c) by { GoodInv(s1); StoredWellFormed(s1, d); }
      var ranges := Planning.Uncovered(store.coverage[d], target);
      PlanProper(c, target, ranges);
      SameWaits(world, d, s1);
      NoRangesHandled(s1, d, gen, ranges);
      for k := 0 to |ranges|
        invariant Valid() && old(trace) <= seen <= trace && Waits(world, d, s1, store.Value())
        invariant Initialized(store.Value(), d, gen)
        invariant RangesHandled(store.Value(), d, gen, ranges[..k])
      {
        var x := ranges[k];
        ghost var before := store.Value();
        var retry := RetryableRange(d, gen, x.lo, x.hi);
        ghost var s := store.Value();
        WaitsTransitive(world, d, first, s1, before);
        WaitsTransitive(world, d, s1, before, s);
        WaitsTransitive(world, d, first, before, s);
        InitializedLater(before, s, d, gen);
        if retry.Some? {
          RetryIsWanted(first, s1, before, s, d, gen, target, ranges, k, retry.value);
          return Range(retry.value.lo, retry.value.hi);
        }
        RangesHandledNext(before, s, d, gen, ranges, k);
      }
      assert ranges[..|ranges|] == ranges;
      ghost var t := store.Value();
      WaitsTransitive(world, d, first, s1, t);
      PlanHandled(s1, t, d, gen, target, ranges);
      if Generation(t, d) == gen {
        assert trace[..|seen|] == seen;
        SinceDrained(trace, |old(trace)|, |seen|, s1, t, d, target);
        StillDrained(world, s1, t, d, target);
      }
      return Nothing;
    }

    // -------------------------------------------------------------- a whole chunk

    /** Make sure the domain has coverage, and fix the generation to work in. */
    method Initialize(d: Domain) returns (gen: u64, failure: Option<Failure>)
      requires Valid()
      modifies this`clock, this`trace, store
      ensures Valid() && old(trace) <= trace && Moves(world, d, old(store.Value()), store.Value()) && gen <= Generation(store.Value(), d)
      ensures Generation(old(store.Value()), d) <= gen
      ensures failure.None? ==> Initialized(store.Value(), d, gen)
      ensures failure == Some(InitialStale) ==> gen < Generation(store.Value(), d)
      ensures failure.Some? && failure.value != InitialStale ==>
              failure.value.StoreFailed? && old(store.Value()).genesis.None? && RefusedLast(trace, failure.value.error)
      ensures Calm(world) && old(store.Value()).genesis.Some? ==> failure.None?
      ensures failure.None? && Undisturbed(world) ==>
              d in store.coverage && (d !in old(store.coverage) ==> store.coverage[d].start == 0)
    {
      hide Good, Follows, InitializeCoverage, Generation, Moves, Waits, Undisturbed, Calm, Assumed, Truthful, Initialized, After;
      ghost var first := store.Value();
      Yield(d);
      ghost var s0 := store.Value();
      gen := Generation(store.Value(), d);
      Yield(d);
      ghost var s1 := store.Value();
      WaitsMoves(world, d, first, s0);
      WaitsMoves(world, d, s0, s1);
      MovesTransitive(world, d, first, s0, s1);
      LaterGeneration(first, s0, d);
      LaterGeneration(s0, s1, d);
      InitializeEffect(s1, d, gen);
      StillBound(world, d, first, s0, s1);
      ghost var op := OpInitialize(d, gen, 0);
      StepMoves(world, d, s1, op);
      MovesTransitive(world, d, first, s1, Step(s1, op));
      ghost var before := trace;
      var r := store.InitializeCoverage(d, gen, 0);
      RecordPlain(op, s1);
      LastAnswered(before, s1, op);
      if r.Err? {
        return gen, Some(StoreFailed(r.error));
      }
      return gen, if r.value == StaleGeneration then Some(InitialStale) else None;
    }

    /** Fix the generation to work in and pick the range to work on. */
    method NextRange(d: Domain, target: u64) returns (gen: u64, failure: Option<Failure>, pick: Pick)
      requires Valid()
      modifies this`clock, this`trace, store
      ensures Valid() && old(trace) <= trace && Moves(world, d, old(store.Value()), store.Value())
      ensures Generation(old(store.Value()), d) <= gen <= Generation(store.Value(), d)
      ensures failure == Some(InitialStale) ==> gen < Generation(store.Value(), d)
      ensures failure.Some? && failure.value != InitialStale ==>
              failure.value.StoreFailed? && old(store.Value()).genesis.None? && RefusedLast(trace, failure.value.error)
      ensures Calm(world) && old(store.Value()).genesis.Some? ==> failure.None?
      ensures failure.None? ==> Initialized(store.Value(), d, gen)
      ensures failure.None? && pick.Range? ==>
              pick.from <= pick.through <= target && Wanted(old(store.Value()), store.Value(), d, gen, pick.from)
      ensures failure.None? && pick.Nothing? && Generation(store.Value(), d) == gen ==>
              && NothingLeft(trace, |old(trace)|, d, target)
              && (FloorsStay(world) ==> Drained(store.Value(), d, target))
    {
      hide Good, Follows, Initialized, Generation, Wanted, NothingLeft, Drained, Moves, Waits, Truthful, Assumed, Calm, After, FloorsStay;
      ghost var s0 := store.Value();
      pick := Nothing;
      gen, failure := Initialize(d);
      if failure.Some? {
        return;
      }
      ghost var s1, n := store.Value(), |trace|;
      pick := PickRange(d, gen, target);
      ghost var s2 := store.Value();
      WaitsMoves(world, d, s1, s2);
      MovesTransitive(world, d, s0, s1, s2);
      InitializedGeneration(s2, d, gen);
      if pick.Range? {
        WantedEarlier(s0, s1, s2, d, gen, pick.from);
      } else if Generation(s2, d) == gen {
        NothingLeftEarlier(trace, |old(trace)|, n, d, target);
      }
    }

    /** The most recent scan if it reaches the range, or a new one at the target. */
    method ChooseScan(d: Domain, gen: u64, from: u64, target: u64, at: Hash) returns (scan: Scan)
      requires Valid() && from <= target && (at, target as nat) in targets
      modifies this`clock, this`trace, store
      ensures Valid() && old(trace) <= trace && Moves(world, d, old(store.Value()), store.Value())
      ensures Chosen(store.Value(), d, gen, genesis, from, target, at, scan) && scan.id != ""
      ensures scan.domain == d && scan.expected == gen && from <= scan.finalizedHeight <= U64_MAX
      ensures Assumed() ==> TruthfulOp(chain, won, OpBegin(scan))
    {
      hide Good, Follows, Moves, Waits, Truthful, TruthfulOp, IsActive, ScanName, After, HonestNode, SameDecoding, PinnedByName,
        E.SnapshotKnows;
      Yield(d);
      ghost var s := store.Value();
      ScansAreNamed(trace);
      var known := store.ActiveScan(d, gen);
      if known.Some? && known.value.finalizedHeight <= U64_MAX && known.value.finalizedHeight >= from {
        scan := known.value;
        ActiveIsScan(s, d, gen, scan.id);
        if Assumed() { ResumedScanTruthful(chain, won, trace, scan); }
      } else {
        scan := NewScan(d, gen, genesis, target, at);
        NameIsNotEmpty(d, gen, at);
        NewIsChosen(s, d, gen, genesis, from, target, at, known);
        if Assumed() { NewScanTruthful(chain, won, d, gen, genesis, target, at); }
      }
    }

    /** Resume the most recent scan that reaches the range, or begin one at the target. */
    method Begin(d: Domain, gen: u64, from: u64, target: u64, at: Hash)
      returns (scan: Scan, r: Result<CommitResult>, ghost start: u64)
      requires Valid() && from <= target && Initialized(store.Value(), d, gen) && (at, target as nat) in targets
      modifies this`clock, this`trace, store
      ensures Valid() && old(trace) <= trace && Follows(old(store.Value()), store.Value())
      ensures scan.domain == d && scan.expected == gen && from <= scan.finalizedHeight <= U64_MAX && scan.id != ""
      ensures Assumed() ==> scan.at == chain.pinned(scan.id)
      ensures BeginReports(store.Value(), scan, r) && start == StartOf(store.Value(), d)
      ensures r.Err? ==> RefusedLast(trace, r.error)
      ensures Generation(old(store.Value()), d) == gen ==>
              BeginsCalmly(world, chain, genesis, old(store.Value()), store.Value(), d, target, at, scan, r)
    {
      hide Good, Follows, BeginScan, Begun, Initialized, Generation, Moves, Waits, Truthful, Assumed, Chosen, BeginsCalmly, After,
        TruthfulOp, BeginReports;
      ghost var first := store.Value();
      scan := ChooseScan(d, gen, from, target, at);
      BeginIsPinned(chain, won, scan);
      ghost var s0 := store.Value();
      Yield(d);
      ghost var s1 := store.Value();
      MovesTransitive(world, d, first, s0, s1);
      MovesFollows(world, d, first, s1);
      BeginLater(first, s1, scan);
      if Generation(first, d) == gen {
        BeginsAtChoice(world, chain, genesis, first, s0, s1, d, from, target, at, scan);
      }
      ghost var before := trace;
      r := store.BeginScan(scan);
      RecordOne(OpBegin(scan), s1);
      LastAnswered(before, s1, OpBegin(scan));
      start := StartOf(store.Value(), d);
    }

    /** Enumerate a begun scan or, once it is finished, replay it. */
    method WorkScan(scan: Scan, from: u64, through: u64, ghost target: u64, ghost at: Hash, ghost start: u64) returns (outcome: Outcome)
      requires Valid() && Begun(store.Value(), scan, start) && scan.domain != Authorship
      requires start <= from <= through && from <= scan.finalizedHeight <= U64_MAX
      requires Assumed() ==> scan.at == chain.pinned(scan.id)
      modifies this`clock, this`trace, store
      ensures Valid() && old(trace) <= trace && Follows(old(store.Value()), store.Value()) && outcome != Idle
      ensures outcome.Failed? ==> outcome.why !in {RangeRefused, InconsistentPage, InitialStale}
      ensures Explained(world, trace, outcome)
      ensures outcome in {Superseded, Failed(ScanGone)} ==> Generation(store.Value(), scan.domain) != scan.expected
      ensures outcome == Worked && Handles(world, scan.domain) ==> Settled(store.Value(), scan, from)
      ensures Resumes(old(store.Value()), scan) ==>
              Progresses(world, chain, genesis, old(store.Value()), store.Value(), scan.domain, target, at, outcome)
    {
      hide Good, Follows, Begun, Frozen, Generation, Moves, Truthful, Assumed, Handles, Calm, EnumeratesAlone, Settled,
        After, Progresses, Resumes, SomeFails, Replayed, PageIn, RefusedLast, Unserved;
      ghost var s3 := store.Value();
      var progress;
      ghost var heights;
      progress, heights := EnumeratePage(scan, start);
      ghost var s4 := store.Value();
      if !progress.Finished? {
        outcome := if progress.PageStored? then Paged else Failed(progress.why);
        PageProgresses(world, chain, genesis, s3, s4, target, at, scan, progress, outcome);
        return outcome;
      }
      outcome := Replay(scan, from, through, start, heights);
      ghost var s5 := store.Value();
      if outcome.Worked? && Handles(world, scan.domain) {
        ReplayedStart(s5, scan, heights, from, Min(scan.finalizedHeight, through));
      }
      ReplayProgresses(world, chain, genesis, s3, s4, s5, target, at, scan, outcome);
      MovesFollows(world, scan.domain, s4, s5);
      FollowsTransitive(s3, s4, s5);
    }

    /** Begin a scan for one retryable interval and work on it. */
    method WorkRange(d: Domain, gen: u64, from: u64, through: u64, target: u64, at: Hash) returns (outcome: Outcome)
      requires Valid() && d != Authorship && from <= through <= target && (at, target as nat) in targets
      requires Initialized(store.Value(), d, gen) && Reaches(store.Value(), d, gen, from)
      modifies this`clock, this`trace, store
      ensures Valid() && old(trace) <= trace && Follows(old(store.Value()), store.Value()) && outcome != Idle
      ensures outcome.Failed? ==> outcome.why !in {RangeRefused, InconsistentPage, InitialStale}
      ensures Explained(world, trace, outcome)
      ensures outcome in {Superseded, Failed(ScanGone)} ==> Generation(store.Value(), d) != gen
      ensures outcome == Worked && Handles(world, d) && Generation(store.Value(), d) == gen ==> Handled(store.Value(), d, from)
      ensures Generation(old(store.Value()), d) == gen ==>
              Progresses(world, chain, genesis, old(store.Value()), store.Value(), d, target, at, outcome)
    {
      hide Good, Follows, Begun, Initialized, Generation, Reaches, Handled, Truthful, Assumed, Handles, BeginsCalmly, Settled, After, Progresses,
        Resumes, SomeFails, PageIn, RefusedLast, Unserved;
      ghost var s2 := store.Value();
      var scan, begun;
      ghost var start;
      scan, begun, start := Begin(d, gen, from, target, at);
      ghost var s3 := store.Value();
      if begun.Err? || begun.value == StaleGeneration {
        outcome := if begun.Err? then Failed(StoreFailed(begun.error)) else Superseded;
        BeginThenProgresses(world, chain, genesis, s2, s3, s3, d, target, at, scan, begun, outcome);
        return outcome;
      }
      StartBelow(s2, s3, d, gen, from);
      outcome := WorkScan(scan, from, through, target, at, start);
      SettledMeans(store.Value(), scan, from);
      BeginThenProgresses(world, chain, genesis, s2, s3, store.Value(), d, target, at, scan, begun, outcome);
      FollowsTransitive(s2, s3, store.Value());
    }

    ghost method Aim(target: u64, at: Hash)
      requires Valid()
      modifies this`targets
      ensures Valid() && targets == old(targets) + {(at, target)}
    {
      hide Good, After, Truthful, TruthfulWorld, E.SnapshotKnows;
      targets := targets + {(at, target)};
    }

    ghost method Note(outcome: Outcome)
      requires Valid()
      modifies this`outcomes
      ensures Valid() && outcomes == old(outcomes) + [outcome]
    {
      outcomes := outcomes + [outcome];
    }

    /** One chunk of backfill for a sparse domain. Whatever else happens to the store: no
        range it finishes is refused; it is only overtaken by reindexes; when it finds
        nothing to do, every height the store asked for is handled; when it works and
        processing handles its heights, strictly fewer are left; and in a calm world it does
        not fail and each page brings the enumeration nearer to its end. */
    method SparseChunk(d: Domain, target: u64, at: Hash) returns (outcome: Outcome)
      requires Valid() && d != Authorship
      modifies this`clock, this`trace, this`targets, this`outcomes, store
      ensures Valid() && old(trace) <= trace && Follows(old(store.Value()), store.Value())
      ensures targets == old(targets) + {(at, target)} && outcomes == old(outcomes) + [outcome]
      ensures outcome.Failed? ==> outcome.why != RangeRefused && outcome.why != InconsistentPage
      ensures Explained(world, trace, outcome)
      ensures outcome in {Superseded, Failed(InitialStale), Failed(ScanGone)} ==>
              Generation(old(store.Value()), d) < Generation(store.Value(), d)
      ensures outcome == Idle && Generation(old(store.Value()), d) == Generation(store.Value(), d) ==>
              && NothingLeft(trace, |old(trace)|, d, target)
              && (FloorsStay(world) ==> Drained(store.Value(), d, target))
      ensures outcome == Worked && Handles(world, d) && Generation(old(store.Value()), d) == Generation(store.Value(), d) ==>
              |Pending(store.Value(), d, target)| < |Pending(old(store.Value()), d, target)|
      ensures Progresses(world, chain, genesis, old(store.Value()), store.Value(), d, target, at, outcome)
    {
      hide Good, Follows, Initialized, Generation, Wanted, Reaches, NothingLeft, Drained, Handled, Pending, Moves, Waits, Truthful,
        Assumed, Handles, Calm, Progresses, After, SomeFails, FloorsStay, PageIn, RefusedLast, Unserved;
      ghost var s0 := store.Value();
      Aim(target, at);
      var gen, failure, pick := NextRange(d, target);
      ghost var s1 := store.Value();
      MovesFollows(world, d, s0, s1);
      if failure.Some? {
        outcome := Failed(failure.value);
        InitializeProgresses(world, chain, genesis, s0, s1, d, target, at, failure);
      } else if pick.Nothing? {
        outcome := Idle;
        IdleProgresses(world, chain, genesis, s0, s1, d, target, at);
      } else {
        WantedReaches(s0, s1, d, gen, pick.from);
        outcome := WorkRange(d, gen, pick.from, pick.through, target, at);
        ghost var s2 := store.Value();
        QuietThenProgresses(world, chain, genesis, s0, s1, s2, d, gen, target, at, outcome);
        FollowsTransitive(s0, s1, s2);
        LaterGeneration(s1, s2, d);
        if outcome.Worked? && Handles(world, d) && Generation(s0, d) == Generation(s2, d) {
          ChunkProgress(s0, s1, s2, d, gen, target, pick.from);
        }
      }
      Note(outcome);
    }

    /** Repeating chunks until one is idle or fails. While the generation lasts, at most as
        many rounds work as heights were pending, whatever pages and interference come
        between. In a calm world enough rounds end idle, with every height that the store
        asked for complete or marked. */
    method Rounds(d: Domain, target: u64, at: Hash, rounds: nat) returns (idle: bool)
      requires Valid() && d != Authorship
      modifies this`clock, this`trace, this`targets, this`outcomes, store
      ensures Valid() && old(trace) <= trace && Follows(old(store.Value()), store.Value())
      ensures old(outcomes) <= outcomes && Ended(outcomes[|old(outcomes)|..], rounds, idle)
      ensures Handles(world, d) && Generation(old(store.Value()), d) == Generation(store.Value(), d) ==>
              Count(outcomes[|old(outcomes)|..], Worked) + |Pending(store.Value(), d, target)|
              <= |Pending(old(store.Value()), d, target)| <= target as int + 1
      ensures idle && Generation(old(store.Value()), d) == Generation(store.Value(), d) ==>
              && NothingLeft(trace, |old(trace)|, d, target)
              && (FloorsStay(world) ==> Drained(store.Value(), d, target))
      ensures Calm(world) && Handles(world, d) && Servable(world, chain, genesis, old(store.Value()), d, target, at)
              && rounds > |Pending(old(store.Value()), d, target)| + Stage(chain, old(store.Value()), d, target, at) ==>
              idle && Generation(old(store.Value()), d) == Generation(store.Value(), d)
    {
      hide Good, Follows, Generation, NothingLeft, Drained, Pending, Handles, Calm, Servable, Stage, Assumed, Truthful, After,
        FloorsStay, Count, Explained;
      ghost var first := store.Value();
      SameFollows(first);
      PendingBound(first, d, target);
      ghost var done: seq<Outcome> := [];
      NoneCounted(Worked);
      ghost var calm := Calm(world) && Handles(world, d) && Servable(world, chain, genesis, first, d, target, at);
      for k := 0 to rounds
        invariant Valid() && old(trace) <= trace && Follows(first, store.Value())
        invariant outcomes == old(outcomes) + done && |done| == k && forall i :: 0 <= i < k ==> !Stops(done[i])
        invariant Handles(world, d) && Generation(first, d) == Generation(store.Value(), d) ==>
                    Count(done, Worked) + |Pending(store.Value(), d, target)| <= |Pending(first, d, target)|
        invariant calm ==>
                    && Servable(world, chain, genesis, store.Value(), d, target, at)
                    && Generation(first, d) == Generation(store.Value(), d)
                    && k + |Pending(store.Value(), d, target)| + Stage(chain, store.Value(), d, target, at)
                       <= |Pending(first, d, target)| + Stage(chain, first, d, target, at)
      {
        ghost var before, n := store.Value(), |trace|;
        var outcome := SparseChunk(d, target, at);
        RoundShrinks(first, before, store.Value(), d, target);
        CountOneMore(done, outcome, Worked);
        done := done + [outcome];
        assert outcomes[|old(outcomes)|..] == done;
        if Stops(outcome) {
          if outcome == Idle && Generation(first, d) == Generation(store.Value(), d) {
            NothingLeftEarlier(trace, |old(trace)|, n, d, target);
          }
          return outcome == Idle;
        }
      }
      assert outcomes[|old(outcomes)|..] == done;
      return false;
    }
  }

  /** Outcomes after which the rounds stop. */
  predicate Stops(outcome: Outcome) {
    outcome.Idle? || outcome.Failed?
  }

  /** The outcomes of a number of rounds that stopped at the first idle or failed one. */
  ghost predicate Ended(done: seq<Outcome>, rounds: nat, idle: bool) {
    && |done| <= rounds
    && (forall i :: 0 <= i < |done| - 1 ==> !Stops(done[i]))
    && (|done| < rounds ==> done != [] && Stops(done[|done| - 1]))
    && (idle <==> done != [] && done[|done| - 1] == Idle)
  }

  ghost function Count(done: seq<Outcome>, outcome: Outcome): nat {
    multiset(done)[outcome]
  }

  lemma NoneCounted(outcome: Outcome)
    ensures Count([], outcome) == 0
  {
  }

  lemma CountOneMore(done: seq<Outcome>, last: Outcome, outcome: Outcome)
    ensures Count(done + [last], outcome) == Count(done, outcome) + if last == outcome then 1 else 0
  {
    assert multiset(done + [last]) == multiset(done) + multiset{last};
  }

  lemma BeginIsPinned(c: E.Chain, won: nat -> bool, scan: Scan)
    ensures TruthfulOp(c, won, OpBegin(scan)) ==> scan.at == c.pinned(scan.id)
  {
  }

  lemma UptoNext(from: u64, rows: seq<nat>, i: nat)
    requires i < |rows| && RowsFrom(from, rows)
    ensures Upto(from, rows, i) <= rows[i]
  {
  }

  // ---------------------------------------------------------------- why a chunk ends as it does

  /** What the store answered to the last transaction of a trace, for those a chunk waits on. */
  ghost function LastAnswer(trace: seq<Op>): Option<Result<CommitResult>> {
    if trace == [] then None
    else
      var s := After(FreshStore(), trace[..|trace| - 1]);
      match trace[|trace| - 1]
      case OpAppend(p) => Some(AppendPage(s, p).1)
      case OpBegin(scan) => Some(BeginScan(s, scan).1)
      case OpInitialize(d, gen, start) => Some(InitializeCoverage(s, d, gen, start).1)
      case _ => None
  }

  ghost predicate RefusedLast(trace: seq<Op>, e: StoreError) {
    LastAnswer(trace) == Some(Err(e))
  }

  /** The last transaction appended a page, and was not refused. */
  ghost predicate PageIn(trace: seq<Op>) {
    trace != [] && trace[|trace| - 1].OpAppend? && LastAnswer(trace).value.Ok?
  }

  /** The answer of the node is a page. */
  ghost predicate Readable(w: World, k: nat, at: Hash, cursor: Option<Key>) {
    var r := w.response(k, at, cursor);
    && r.Some? && E.AllKeys(r.value) && |r.value| <= PAGE_SIZE && E.Ascending(cursor, E.KeysOf(r.value))
    && forall i :: 0 <= i < |r.value| ==> w.decode(E.KeysOf(r.value)[i]).Some?
  }

  /** Some answer of the node is missing or not a page. */
  ghost predicate Unserved(w: World) {
    exists k: nat, at: Hash, cursor: Option<Key> :: !Readable(w, k, at, cursor)
  }

  /** A page was stored by the last transaction; a store failure is its answer; and a chain
      failure is an answer of the node that is no page. */
  ghost predicate Comes(w: World, trace: seq<Op>, r: Progress) {
    && (r.PageStored? ==> PageIn(trace))
    && (r.EnumerationFailed? && r.why.StoreFailed? ==> RefusedLast(trace, r.why.error))
    && (r.EnumerationFailed? && r.why.ChainFailed? ==> Unserved(w))
  }

  /** The same of a whole chunk, and it reports failed processing only when processing failed. */
  ghost predicate Explained(w: World, trace: seq<Op>, outcome: Outcome) {
    && (outcome == Paged ==> PageIn(trace))
    && (outcome.Failed? && outcome.why.StoreFailed? ==> RefusedLast(trace, outcome.why.error))
    && (outcome == Failed(ChainFailed) ==> Unserved(w))
    && (outcome == Failed(ProcessFailed) ==> SomeFails(w))
  }

  lemma LastAnswered(before: seq<Op>, s: State, op: Op)
    requires s == After(FreshStore(), before)
    ensures op.OpAppend? ==> LastAnswer(before + [op]) == Some(AppendPage(s, op.page).1)
    ensures op.OpBegin? ==> LastAnswer(before + [op]) == Some(BeginScan(s, op.scan).1)
    ensures op.OpInitialize? ==> LastAnswer(before + [op]) == Some(InitializeCoverage(s, op.domain, op.expected, op.start).1)
  {
    hide After, AppendPage, BeginScan, InitializeCoverage;
    assert (before + [op])[..|before|] == before;
  }

  lemma AppendComes(w: World, before: seq<Op>, s: State, p: Page)
    requires s == After(FreshStore(), before)
    ensures Comes(w, before + [OpAppend(p)], Reported(AppendPage(s, p).1))
  {
    LastAnswered(before, s, OpAppend(p));
    hide After, AppendPage, LastAnswer, Unserved;
  }

  lemma UnreadableComes(w: World, trace: seq<Op>, k: nat, at: Hash, cursor: Option<Key>)
    requires !Readable(w, k, at, cursor)
    ensures Comes(w, trace, EnumerationFailed(ChainFailed))
  {
    hide Readable;
  }

  // ---------------------------------------------------------------- progress in a calm world

  /** In a calm world a chunk from which backfill can run to its end does not fail, leaves
      it so, and gets the enumeration further when it stores a page. */
  ghost predicate Progresses(w: World, c: E.Chain, genesis: Hash, s: State, t: State, d: Domain, target: u64, at: Hash,
                             outcome: Outcome)
  {
    Calm(w) && Servable(w, c, genesis, s, d, target, at) ==>
      && outcome in {Idle, Paged, Worked}
      && Servable(w, c, genesis, t, d, target, at) && Generation(t, d) == Generation(s, d)
      && Stage(c, t, d, target, at) <= Stage(c, s, d, target, at)
      && (outcome == Paged ==> Stage(c, t, d, target, at) < Stage(c, s, d, target, at))
  }

  /** What happened before is still bound, and in a calm world still of its generation. */
  lemma StillBound(w: World, d: Domain, first: State, s: State, t: State)
    requires Moves(w, d, first, s) && Moves(w, d, s, t)
    ensures first.genesis.Some? ==> t.genesis.Some?
    ensures Calm(w) ==> Generation(t, d) == Generation(s, d)
  {
    hide Calm, Generation;
    assert first.genesis.Some? ==> s.genesis == first.genesis;
    assert s.genesis.Some? ==> t.genesis == s.genesis;
  }

  lemma SameWaits(w: World, d: Domain, s: State)
    ensures Waits(w, d, s, s)
  {
    SameMoves(w, d, s);
    hide Moves, Undisturbed, FloorsStay;
  }

  lemma SinceDrained(trace: seq<Op>, n: nat, k: nat, s: State, t: State, d: Domain, target: u64)
    requires n <= k <= |trace| && s == After(FreshStore(), trace[..k]) && t == After(FreshStore(), trace)
    requires d in s.coverage && Generation(s, d) == Generation(t, d) && Exhausted(s.coverage[d], t, d, target)
    ensures NothingLeft(trace, n, d, target)
  {
    hide After, Exhausted, Generation;
    assert DrainedSince(trace, k, d, target);
  }

  /** With the same floor, later coverage asks for nothing else. */
  lemma StillDrained(w: World, s: State, t: State, d: Domain, target: u64)
    requires Waits(w, d, s, t) && d in s.coverage && Exhausted(s.coverage[d], t, d, target)
    ensures FloorsStay(w) ==> Drained(t, d, target)
  {
    hide Moves, Undisturbed, FloorsStay, Handled;
    if FloorsStay(w) {
      assert SameFloor(s, t, d);
      forall h | Planning.Eligible(t.coverage[d], target, h) ensures Handled(t, d, h) {
        assert Planning.Eligible(s.coverage[d], target, h);
      }
    }
  }

  lemma SettledMeans(s: State, scan: Scan, h: int)
    ensures Settled(s, scan, h) && Generation(s, scan.domain) == scan.expected ==> Handled(s, scan.domain, h)
  {
  }

  lemma QuietProgress(w: World, c: E.Chain, genesis: Hash, s: State, t: State, d: Domain, target: u64, at: Hash)
    requires Calm(w) && Moves(w, d, s, t) && Servable(w, c, genesis, s, d, target, at)
    ensures Servable(w, c, genesis, t, d, target, at) && Generation(t, d) == Generation(s, d)
    ensures Stage(c, t, d, target, at) == Stage(c, s, d, target, at)
  {
    hide Calm, Servable, Stage, Follows;
    QuietStage(w, c, genesis, s, t, d, target, at);
  }

  lemma InitializeProgresses(w: World, c: E.Chain, genesis: Hash, s: State, t: State, d: Domain, target: u64, at: Hash,
                             failure: Option<Failure>)
    requires Calm(w) && s.genesis.Some? ==> failure.None?
    ensures failure.Some? ==> Progresses(w, c, genesis, s, t, d, target, at, Failed(failure.value))
  {
    hide Stage, TopReady, Enumerable, ScansOf, Generation;
  }

  lemma IdleProgresses(w: World, c: E.Chain, genesis: Hash, s: State, t: State, d: Domain, target: u64, at: Hash)
    requires Moves(w, d, s, t)
    ensures Progresses(w, c, genesis, s, t, d, target, at, Idle)
  {
    hide Servable, Stage, Calm, Moves, Generation;
    if Calm(w) && Servable(w, c, genesis, s, d, target, at) {
      QuietProgress(w, c, genesis, s, t, d, target, at);
    }
  }

  lemma QuietThenProgresses(w: World, c: E.Chain, genesis: Hash, s: State, t: State, u: State, d: Domain, gen: u64, target: u64,
                            at: Hash, outcome: Outcome)
    requires Moves(w, d, s, t) && Generation(s, d) <= gen <= Generation(t, d)
    requires Generation(t, d) == gen ==> Progresses(w, c, genesis, t, u, d, target, at, outcome)
    ensures Progresses(w, c, genesis, s, u, d, target, at, outcome)
  {
    hide Servable, Stage, Calm, Moves, Generation;
    if Calm(w) && Servable(w, c, genesis, s, d, target, at) {
      QuietProgress(w, c, genesis, s, t, d, target, at);
    }
  }

  /** An unfinished active scan of a servable state can get further. */
  lemma ActiveCanAdvance(w: World, c: E.Chain, genesis: Hash, s: State, d: Domain, target: u64, at: Hash, scan: Scan)
    requires Servable(w, c, genesis, s, d, target, at) && IsActive(s, d, Generation(s, d), scan.id)
    requires s.scans[scan.id].(cursor := None, finished := false) == RowOf(scan) && !s.scans[scan.id].finished
    ensures CanAdvance(w, c, s, scan)
  {
    ActiveIsScan(s, d, Generation(s, d), scan.id);
    var row := s.scans[scan.id].(cursor := None, finished := false);
    assert row.at == s.scans[scan.id].at;
    if TopReady(s, d, target) {
      var top :| IsActive(s, d, Generation(s, d), top) && s.scans[top].finished && s.scans[top].finalizedHeight >= target;
      ActiveIsUnique(s, d, Generation(s, d), scan.id, top);
    }
    hide Generation, IsActive, Serves, FitsPin, ScanName, ScansOf;
  }

  /** Enumerating undisturbed finds the scan finished or brings it nearer to its end. */
  lemma AloneProgress(w: World, c: E.Chain, genesis: Hash, s: State, t: State, d: Domain, target: u64, at: Hash, scan: Scan,
                      r: Progress)
    requires Servable(w, c, genesis, s, d, target, at) && IsActive(s, d, Generation(s, d), scan.id)
    requires s.scans[scan.id].(cursor := None, finished := false) == RowOf(scan)
    requires EnumeratesAlone(w, c, s, t, scan, r) && Follows(s, t)
    ensures !r.EnumerationFailed? && Servable(w, c, genesis, t, d, target, at) && Generation(t, d) == Generation(s, d)
    ensures Stage(c, t, d, target, at) <= Stage(c, s, d, target, at)
    ensures r.PageStored? ==> Stage(c, t, d, target, at) < Stage(c, s, d, target, at)
  {
    ActiveIsScan(s, d, Generation(s, d), scan.id);
    hide Servable, Stage, IsActive, Generation, CanAdvance, Advanced, Follows;
    assert s.scans[scan.id].domain == s.scans[scan.id].(cursor := None, finished := false).domain == scan.domain;
    if s.scans[scan.id].finished {
      QuietStage(w, c, genesis, s, t, d, target, at);
    } else {
      ActiveCanAdvance(w, c, genesis, s, d, target, at, scan);
      AdvanceLowersStage(w, c, genesis, s, t, d, target, at, scan.id);
    }
  }

  /** The scan is the active one of its domain's current generation. */
  ghost predicate Resumes(s: State, scan: Scan) {
    && Generation(s, scan.domain) == scan.expected && IsActive(s, scan.domain, scan.expected, scan.id)
    && s.scans[scan.id].(cursor := None, finished := false) == RowOf(scan)
  }

  lemma PageProgresses(w: World, c: E.Chain, genesis: Hash, s: State, t: State, target: u64, at: Hash, scan: Scan, r: Progress,
                       outcome: Outcome)
    requires Calm(w) ==> EnumeratesAlone(w, c, s, t, scan, r)
    requires Follows(s, t)
    requires outcome == if r.PageStored? then Paged else if r.EnumerationFailed? then Failed(r.why) else Idle
    ensures Resumes(s, scan) ==> Progresses(w, c, genesis, s, t, scan.domain, target, at, outcome)
  {
    hide Servable, Stage, Calm, Generation, EnumeratesAlone, IsActive, Follows;
    if Resumes(s, scan) && Calm(w) && Servable(w, c, genesis, s, scan.domain, target, at) {
      AloneProgress(w, c, genesis, s, t, scan.domain, target, at, scan, r);
    }
  }

  lemma ReplayProgresses(w: World, c: E.Chain, genesis: Hash, s: State, t: State, u: State, target: u64, at: Hash, scan: Scan,
                         outcome: Outcome)
    requires Calm(w) ==> EnumeratesAlone(w, c, s, t, scan, Finished)
    requires Follows(s, t) && Moves(w, scan.domain, t, u)
    requires outcome.Worked? || outcome.Superseded? || outcome == Failed(ProcessFailed)
    requires outcome.Superseded? ==> Generation(u, scan.domain) != scan.expected
    requires outcome == Failed(ProcessFailed) ==> SomeFails(w)
    ensures Resumes(s, scan) ==> Progresses(w, c, genesis, s, u, scan.domain, target, at, outcome)
  {
    CalmDoesNotFail(w);
    hide Servable, Stage, Calm, Generation, EnumeratesAlone, IsActive, Moves, SomeFails, Follows;
    if Resumes(s, scan) && Calm(w) && Servable(w, c, genesis, s, scan.domain, target, at) {
      AloneProgress(w, c, genesis, s, t, scan.domain, target, at, scan, Finished);
      QuietProgress(w, c, genesis, t, u, scan.domain, target, at);
    }
  }

  /** In a calm world beginning succeeds, makes the scan the active one, and does not raise
      the measure. */
  ghost predicate BeginsCalmly(w: World, c: E.Chain, genesis: Hash, s: State, t: State, d: Domain, target: u64, at: Hash,
                               scan: Scan, begun: Result<CommitResult>)
  {
    Calm(w) && Servable(w, c, genesis, s, d, target, at) ==>
      && begun.Ok? && begun.value != StaleGeneration && Resumes(t, scan)
      && Servable(w, c, genesis, t, d, target, at) && Generation(t, d) == Generation(s, d)
      && Stage(c, t, d, target, at) <= Stage(c, s, d, target, at)
  }

  lemma BeginsAtChoice(w: World, c: E.Chain, genesis: Hash, first: State, s: State, t: State, d: Domain, from: u64, target: u64,
                       at: Hash, scan: Scan)
    requires Good(t) && Moves(w, d, first, s) && Moves(w, d, s, t) && Moves(w, d, first, t)
    requires from <= target && scan.id != "" && scan.domain == d && scan.expected == Generation(first, d)
    requires Chosen(s, d, scan.expected, genesis, from, target, at, scan)
    ensures BeginsCalmly(w, c, genesis, first, BeginScan(t, scan).0, d, target, at, scan, BeginScan(t, scan).1)
  {
    hide Servable, Stage, Calm, Generation, IsActive, BeginScan, Chosen, Good, Follows;
    if Calm(w) && Servable(w, c, genesis, first, d, target, at) {
      QuietProgress(w, c, genesis, first, t, d, target, at);
      ChosenLater(s, t, d, scan.expected, genesis, from, target, at, scan);
      BeginServable(w, c, genesis, t, d, from, target, at, scan);
    }
  }

  lemma BeginThenProgresses(w: World, c: E.Chain, genesis: Hash, s: State, t: State, u: State, d: Domain, target: u64,
                            at: Hash, scan: Scan, begun: Result<CommitResult>, outcome: Outcome)
    requires scan.domain == d
    requires Generation(s, d) == scan.expected ==> BeginsCalmly(w, c, genesis, s, t, d, target, at, scan, begun)
    requires begun.Ok? && begun.value != StaleGeneration && Resumes(t, scan) ==>
               Progresses(w, c, genesis, t, u, d, target, at, outcome)
    ensures Generation(s, d) == scan.expected ==> Progresses(w, c, genesis, s, u, d, target, at, outcome)
  {
    hide Servable, Stage, Calm, Generation, Resumes;
  }

  // ---------------------------------------------------------------- enumerating in a calm world

  /** A finished scan is reported as such and nothing about scans changes; an unfinished one
      gets further if the node serves it. */
  ghost predicate EnumeratesAlone(w: World, c: E.Chain, s: State, t: State, scan: Scan, r: Progress) {
    scan.id in s.scans && s.scans[scan.id].domain == scan.domain ==>
      && (s.scans[scan.id].finished ==> Quiet(s, t, scan.domain) && r.Finished?)
      && (CanAdvance(w, c, s, scan) ==> r.PageStored? && Advanced(c, s, t, scan.id))
  }

  ghost predicate CanAdvance(w: World, c: E.Chain, s: State, scan: Scan) {
    && scan.id in s.scans && !s.scans[scan.id].finished && s.scans[scan.id].at == scan.at
    && s.scans[scan.id].finalizedHeight <= U64_MAX
    && Serves(w, c) && FitsPin(c, s.scans[scan.id].at, s.scans[scan.id].finalizedHeight)
  }

  /** The scan is unfinished, at this cursor. */
  ghost predicate Open(s: State, scan: Scan, cursor: Option<Key>) {
    scan.id in s.scans && !s.scans[scan.id].finished && s.scans[scan.id].cursor == cursor
  }

  function Reported(r: Result<CommitResult>): Progress {
    if r.Err? then EnumerationFailed(StoreFailed(r.error)) else PageStored
  }

  lemma OpenLater(w: World, s: State, t: State, scan: Scan, cursor: Option<Key>)
    requires Moves(w, scan.domain, s, t)
    ensures Calm(w) ==> (Open(s, scan, cursor) <==> Open(t, scan, cursor))
  {
    hide Calm, Follows, Generation;
  }

  /** Quiet steps before the enumeration do not matter. */
  lemma QuietThenEnumerates(w: World, c: E.Chain, s: State, t: State, u: State, scan: Scan, r: Progress)
    requires Moves(w, scan.domain, s, t)
    ensures Calm(w) && EnumeratesAlone(w, c, t, u, scan, r) ==> EnumeratesAlone(w, c, s, u, scan, r)
  {
    if Calm(w) && EnumeratesAlone(w, c, t, u, scan, r) && scan.id in s.scans && s.scans[scan.id].domain == scan.domain {
      if CanAdvance(w, c, s, scan) {
        assert CanAdvance(w, c, t, scan) by { hide Serves, FitsPin; }
        hide Advanced, Follows, Generation;
        QuietThenAdvanced(c, s, t, u, scan.id);
      }
    }
    hide Calm, Follows, Generation, CanAdvance, Advanced;
  }

  /** Nothing is promised of a scan that cannot get further. */
  lemma StuckAlone(w: World, c: E.Chain, s: State, scan: Scan, cursor: Option<Key>, r: Progress)
    ensures Open(s, scan, cursor) && !CanAdvance(w, c, s, scan) ==> EnumeratesAlone(w, c, s, s, scan, r)
  {
    hide CanAdvance;
  }

  lemma GoneAlone(w: World, c: E.Chain, s: State, scan: Scan, r: Progress)
    requires scan.id !in s.scans
    ensures EnumeratesAlone(w, c, s, s, scan, r)
  {
  }

  lemma FinishedAlone(w: World, c: E.Chain, s: State, scan: Scan)
    requires scan.id in s.scans && s.scans[scan.id].finished
    ensures EnumeratesAlone(w, c, s, s, scan, Finished)
  {
    hide Serves, FitsPin;
  }

  /** The answer of a serving node is always a readable page. */
  lemma ServedPageReadable(w: World, c: E.Chain, s: State, k: nat, scan: Scan, cursor: Option<Key>)
    ensures CanAdvance(w, c, s, scan) ==>
            var r := w.response(k, scan.at, cursor);
            && r.Some? && E.AllKeys(r.value) && |r.value| <= PAGE_SIZE
            && E.Ascending(cursor, E.KeysOf(r.value))
            && forall i :: 0 <= i < |r.value| ==> w.decode(E.KeysOf(r.value)[i]).Some?
  {
    if CanAdvance(w, c, s, scan) {
      var r := w.response(k, scan.at, cursor);
      assert r.Some? && E.AllKeys(r.value) && E.IsNext(c.snapshot(scan.at), cursor, PAGE_SIZE, E.KeysOf(r.value));
      forall i | 0 <= i < |r.value| ensures w.decode(E.KeysOf(r.value)[i]).Some? {
        assert E.KeysOf(r.value)[i] in c.snapshot(scan.at);
      }
    }
  }

  /** The page of an answer, appended after quiet steps. */
  lemma AppendedAlone(w: World, c: E.Chain, s: State, t: State, k: nat, scan: Scan, cursor: Option<Key>, p: E.WinnerPage)
    requires Good(t) && Moves(w, scan.domain, s, t)
    requires var r := w.response(k, scan.at, cursor);
             r.Some? && E.AllKeys(r.value) && E.PageOf(p, E.KeysOf(r.value), PAGE_SIZE, w.decode)
    ensures var (u, r) := AppendPage(t, Page(scan.id, cursor, p.continuation, p.heights));
            Calm(w) && Open(s, scan, cursor) ==> EnumeratesAlone(w, c, s, u, scan, Reported(r))
  {
    hide AppendPage, Good, E.PageOf, Moves, Calm, EnumeratesAlone, E.KeysOf, Open;
    OpenLater(w, s, t, scan, cursor);
    if Calm(w) && Open(s, scan, cursor) {
      var (u, r) := AppendPage(t, Page(scan.id, cursor, p.continuation, p.heights));
      AppendedNow(w, c, t, k, scan, cursor, p);
      QuietThenEnumerates(w, c, s, t, u, scan, Reported(r));
    }
  }

  lemma AppendedNow(w: World, c: E.Chain, s: State, k: nat, scan: Scan, cursor: Option<Key>, p: E.WinnerPage)
    requires Good(s) && Open(s, scan, cursor)
    requires var r := w.response(k, scan.at, cursor);
             r.Some? && E.AllKeys(r.value) && E.PageOf(p, E.KeysOf(r.value), PAGE_SIZE, w.decode)
    ensures var (t, r) := AppendPage(s, Page(scan.id, cursor, p.continuation, p.heights));
            EnumeratesAlone(w, c, s, t, scan, Reported(r))
  {
    GoodInv(s);
    if CanAdvance(w, c, s, scan) {
      PageAdvances(w, c, k, s, scan.id, p);
    }
    hide AppendPage, Good, Serves, FitsPin, Advanced, E.PageOf;
  }
}
