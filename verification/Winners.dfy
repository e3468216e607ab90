/** Winner rows (`blocks`) and the per-miner summary kept beside them (`node_summary`).

    The writer refreshes only the summary of the record it wrote. The summary table is
    right exactly as long as no stored block hash changes its miner. */
module WinnerTables {
  import opened Prelude

  /** Canonical hashes, compared as the numbers their fixed-width hex text spells. */
  type Hash = nat

  /** A stored winner; fields the model never inspects are folded into `rest`. */
  datatype BlockRecord = BlockRecord(
    blockHash: Hash,
    number: nat,
    substrateHash: Hash,
    miner: string,
    timestamp: nat,
    energy: real,
    miningTime: real,
    qblockId: nat,
    finalized: bool,
    topology: Option<Hash>,
    deviceTime: Option<nat>,
    rest: nat)

  datatype Summary = Summary(
    wins: nat,
    bestEnergy: real,
    avgMiningTime: real,
    lastWonAt: nat,
    lastQblock: nat,
    lastHash: Hash)

  datatype Tables = Tables(blocks: map<Hash, BlockRecord>, summary: map<string, Summary>)

  function EmptyTables(): Tables {
    Tables(map[], map[])
  }

  function MinerRows(blocks: map<Hash, BlockRecord>, miner: string): set<Hash> {
    set h | h in blocks && blocks[h].miner == miner
  }

  ghost function TotalTime(blocks: map<Hash, BlockRecord>, rows: set<Hash>): real
    requires rows <= blocks.Keys
  {
    if rows == {} then 0.0
    else var h :| h in rows; blocks[h].miningTime + TotalTime(blocks, rows - {h})
  }

  /** The order that selects the latest win: numeric qblock id, then hash. */
  ghost predicate NotLater(blocks: map<Hash, BlockRecord>, h: Hash, last: Hash)
    requires h in blocks && last in blocks
  {
    blocks[h].qblockId < blocks[last].qblockId
    || (blocks[h].qblockId == blocks[last].qblockId && h <= last)
  }

  /** The aggregate of a non-empty set of stored rows. */
  ghost predicate Aggregates(blocks: map<Hash, BlockRecord>, rows: set<Hash>, s: Summary)
    requires rows <= blocks.Keys
  {
    && s.wins == |rows| && rows != {}
    && (forall h :: h in rows ==> s.bestEnergy <= blocks[h].energy)
    && (exists h :: h in rows && s.bestEnergy == blocks[h].energy)
    && s.avgMiningTime * s.wins as real == TotalTime(blocks, rows)
    && (forall h :: h in rows ==> blocks[h].timestamp <= s.lastWonAt)
    && (exists h :: h in rows && s.lastWonAt == blocks[h].timestamp)
    && s.lastHash in rows && s.lastQblock == blocks[s.lastHash].qblockId
    && (forall h :: h in rows ==> NotLater(blocks, h, s.lastHash))
  }

  lemma {:induction false} TotalTimeSplit(blocks: map<Hash, BlockRecord>, rows: set<Hash>, h: Hash)
    requires rows <= blocks.Keys && h in rows
    ensures TotalTime(blocks, rows) == blocks[h].miningTime + TotalTime(blocks, rows - {h})
    decreases |rows|
  {
    var p :| p in rows && TotalTime(blocks, rows) == blocks[p].miningTime + TotalTime(blocks, rows - {p});
    if p != h {
      TotalTimeSplit(blocks, rows - {p}, h);
      TotalTimeSplit(blocks, rows - {h}, p);
      assert rows - {p} - {h} == rows - {h} - {p};
    }
  }

  lemma {:induction false} TotalTimeLocal(b1: map<Hash, BlockRecord>, b2: map<Hash, BlockRecord>, rows: set<Hash>)
    requires rows <= b1.Keys && rows <= b2.Keys
    requires forall h :: h in rows ==> b1[h] == b2[h]
    ensures TotalTime(b1, rows) == TotalTime(b2, rows)
    decreases |rows|
  {
    if rows != {} {
      var h :| h in rows;
      TotalTimeSplit(b1, rows, h);
      TotalTimeSplit(b2, rows, h);
      TotalTimeLocal(b1, b2, rows - {h});
    }
  }

  lemma {:induction false} LeastEnergy(blocks: map<Hash, BlockRecord>, rows: set<Hash>) returns (best: Hash)
    requires rows <= blocks.Keys && rows != {}
    ensures best in rows && forall h :: h in rows ==> blocks[best].energy <= blocks[h].energy
    decreases |rows|
  {
    var p :| p in rows;
    var rest := rows - {p};
    if rest == {} {
      assert rows == {p};
      best := p;
    } else {
      var other := LeastEnergy(blocks, rest);
      assert rows == rest + {p};
      best := if blocks[other].energy < blocks[p].energy then other else p;
    }
  }

  lemma {:induction false} GreatestTime(blocks: map<Hash, BlockRecord>, rows: set<Hash>) returns (last: Hash)
    requires rows <= blocks.Keys && rows != {}
    ensures last in rows && forall h :: h in rows ==> blocks[h].timestamp <= blocks[last].timestamp
    decreases |rows|
  {
    var p :| p in rows;
    var rest := rows - {p};
    if rest == {} {
      assert rows == {p};
      last := p;
    } else {
      var other := GreatestTime(blocks, rest);
      assert rows == rest + {p};
      last := if blocks[other].timestamp > blocks[p].timestamp then other else p;
    }
  }

  lemma {:induction false} LatestWin(blocks: map<Hash, BlockRecord>, rows: set<Hash>) returns (last: Hash)
    requires rows <= blocks.Keys && rows != {}
    ensures last in rows && forall h :: h in rows ==> NotLater(blocks, h, last)
    decreases |rows|
  {
    var p :| p in rows;
    var rest := rows - {p};
    if rest == {} {
      assert rows == {p};
      last := p;
    } else {
      var other := LatestWin(blocks, rest);
      assert rows == rest + {p};
      last := if NotLater(blocks, p, other) then other else p;
    }
  }

  /** Every non-empty set of rows has an aggregate. */
  lemma AggregateExists(blocks: map<Hash, BlockRecord>, rows: set<Hash>) returns (s: Summary)
    requires rows <= blocks.Keys && rows != {}
    ensures Aggregates(blocks, rows, s)
  {
    var best := LeastEnergy(blocks, rows);
    var newest := GreatestTime(blocks, rows);
    var last := LatestWin(blocks, rows);
    var n := |rows| as real;
    var mean := TotalTime(blocks, rows) / n;
    assert n > 0.0 && mean * n == TotalTime(blocks, rows);
    s := Summary(|rows|, blocks[best].energy, mean, blocks[newest].timestamp, blocks[last].qblockId, last);
  }

  lemma AggregateUnique(blocks: map<Hash, BlockRecord>, rows: set<Hash>, s: Summary, t: Summary)
    requires rows <= blocks.Keys && Aggregates(blocks, rows, s) && Aggregates(blocks, rows, t)
    ensures s == t
  {
    assert s.lastHash == t.lastHash by {
      assert NotLater(blocks, s.lastHash, t.lastHash) && NotLater(blocks, t.lastHash, s.lastHash);
    }
    assert s.avgMiningTime == t.avgMiningTime by {
      var n := s.wins as real;
      assert s.avgMiningTime == (s.avgMiningTime * n) / n;
      assert t.avgMiningTime == (t.avgMiningTime * n) / n;
    }
  }

  /** What the refresh statement computes for one miner. */
  ghost function SummaryOf(blocks: map<Hash, BlockRecord>, miner: string): (s: Summary)
    requires MinerRows(blocks, miner) != {}
    ensures Aggregates(blocks, MinerRows(blocks, miner), s)
  {
    assert exists s :: Aggregates(blocks, MinerRows(blocks, miner), s) by {
      var s := AggregateExists(blocks, MinerRows(blocks, miner));
    }
    var s :| Aggregates(blocks, MinerRows(blocks, miner), s);
    s
  }

  /** The rows that lead a set of rows: least energy, newest time, latest win. */
  datatype Leaders = Leaders(best: Hash, newest: Hash, last: Hash)

  ghost predicate Leads(blocks: map<Hash, BlockRecord>, rows: set<Hash>, l: Leaders)
    requires rows <= blocks.Keys
  {
    && l.best in rows && l.newest in rows && l.last in rows
    && (forall h :: h in rows ==> blocks[l.best].energy <= blocks[h].energy)
    && (forall h :: h in rows ==> blocks[h].timestamp <= blocks[l.newest].timestamp)
    && (forall h :: h in rows ==> NotLater(blocks, h, l.last))
  }

  /** One more row. */
  function Visit(blocks: map<Hash, BlockRecord>, l: Leaders, h: Hash): Leaders
    requires {l.best, l.newest, l.last, h} <= blocks.Keys
  {
    Leaders(if blocks[h].energy < blocks[l.best].energy then h else l.best,
            if blocks[h].timestamp > blocks[l.newest].timestamp then h else l.newest,
            if blocks[l.last].qblockId < blocks[h].qblockId
               || (blocks[l.last].qblockId == blocks[h].qblockId && l.last <= h) then h else l.last)
  }

  lemma VisitLeads(blocks: map<Hash, BlockRecord>, rows: set<Hash>, l: Leaders, h: Hash)
    requires rows <= blocks.Keys && h in blocks && Leads(blocks, rows, l)
    ensures Leads(blocks, rows + {h}, Visit(blocks, l, h))
  {
  }

  lemma LeadersAggregate(blocks: map<Hash, BlockRecord>, rows: set<Hash>, l: Leaders, mean: real)
    requires rows <= blocks.Keys && Leads(blocks, rows, l) && mean * |rows| as real == TotalTime(blocks, rows)
    ensures Aggregates(blocks, rows, Summary(|rows|, blocks[l.best].energy, mean, blocks[l.newest].timestamp,
                                             blocks[l.last].qblockId, l.last))
  {
  }

  lemma VisitTime(blocks: map<Hash, BlockRecord>, rows: set<Hash>, h: Hash)
    requires rows <= blocks.Keys && h in blocks && h !in rows
    ensures TotalTime(blocks, rows + {h}) == TotalTime(blocks, rows) + blocks[h].miningTime
  {
    TotalTimeSplit(blocks, rows + {h}, h);
    assert rows + {h} - {h} == rows;
  }

  lemma FirstLeads(blocks: map<Hash, BlockRecord>, h: Hash)
    requires h in blocks
    ensures Leads(blocks, {h}, Leaders(h, h, h)) && TotalTime(blocks, {h}) == blocks[h].miningTime
  {
    VisitTime(blocks, {}, h);
    assert {} + {h} == {h};
  }

  ghost predicate Split(rows: set<Hash>, seen: set<Hash>, rest: set<Hash>) {
    seen <= rows && rest <= rows && (forall h :: h in rows ==> (h in seen <==> h !in rest))
  }

  lemma MoveOne(rows: set<Hash>, seen: set<Hash>, rest: set<Hash>, h: Hash)
    requires Split(rows, seen, rest) && h in rest
    ensures Split(rows, seen + {h}, rest - {h}) && |seen + {h}| == |seen| + 1 && h !in seen && h in rows && seen <= rows
  {
  }

  /** Fold a non-empty set of rows into its leaders, count and total time. */
  method FoldRows(blocks: map<Hash, BlockRecord>, rows: set<Hash>) returns (l: Leaders, count: nat, total: real)
    requires rows <= blocks.Keys && rows != {}
    ensures Leads(blocks, rows, l) && count == |rows| && total == TotalTime(blocks, rows)
  {
    var first: Hash :| first in rows;
    var rest := rows - {first};
    ghost var seen := {first};
    FirstLeads(blocks, first);
    assert Split(rows, {first}, rest);
    hide Leads, TotalTime, Visit, Split;
    l, count, total := Leaders(first, first, first), 1, blocks[first].miningTime;
    while rest != {}
      invariant Split(rows, seen, rest) && count == |seen|
      invariant Leads(blocks, seen, l) && total == TotalTime(blocks, seen)
      decreases |rest|
    {
      var h: Hash :| h in rest;
      MoveOne(rows, seen, rest, h);
      VisitLeads(blocks, seen, l, h);
      VisitTime(blocks, seen, h);
      LeadersKnown(blocks, seen, l);
      l := Visit(blocks, l, h);
      total := total + blocks[h].miningTime;
      count := count + 1;
      seen := seen + {h};
      rest := rest - {h};
    }
    assert seen == rows by { AllSeen(rows, seen); }
  }

  lemma AllSeen(rows: set<Hash>, seen: set<Hash>)
    requires Split(rows, seen, {})
    ensures seen == rows
  {
  }

  lemma LeadersKnown(blocks: map<Hash, BlockRecord>, rows: set<Hash>, l: Leaders)
    requires rows <= blocks.Keys && Leads(blocks, rows, l)
    ensures {l.best, l.newest, l.last} <= blocks.Keys
  {
  }

  /** REFRESH_NODE_SUMMARY for one miner. */
  method RefreshSummary(blocks: map<Hash, BlockRecord>, miner: string) returns (s: Summary)
    requires MinerRows(blocks, miner) != {}
    ensures s == SummaryOf(blocks, miner)
  {
    var l, count, total := FoldRows(blocks, MinerRows(blocks, miner));
    var n := count as real;
    var mean := total / n;
    assert mean * n == total;
    s := Summary(count, blocks[l.best].energy, mean, blocks[l.newest].timestamp, blocks[l.last].qblockId, l.last);
    LeadersAggregate(blocks, MinerRows(blocks, miner), l, mean);
    AggregateUnique(blocks, MinerRows(blocks, miner), s, SummaryOf(blocks, miner));
  }

  // ---------------------------------------------------------------- writing

  /** Later enrichment may fill topology and device time but never erases them. */
  function Enrich(incoming: BlockRecord, existing: BlockRecord): BlockRecord {
    incoming.(topology := if incoming.topology.None? then existing.topology else incoming.topology,
              deviceTime := if incoming.deviceTime.None? then existing.deviceTime else incoming.deviceTime)
  }

  /** The row stored for a record, or nothing when the stored row already says it. */
  function UpsertRow(blocks: map<Hash, BlockRecord>, b: BlockRecord): Option<BlockRecord> {
    if b.blockHash in blocks then
      var merged := Enrich(b, blocks[b.blockHash]);
      if merged == blocks[b.blockHash] then None else Some(merged)
    else Some(b)
  }

  /** Upsert a winner and refresh its miner's summary; the flag says whether a row changed. */
  ghost function Write(t: Tables, b: BlockRecord): (Tables, bool) {
    match UpsertRow(t.blocks, b)
    case None => (t, false)
    case Some(row) =>
      var blocks := t.blocks[b.blockHash := row];
      assert b.blockHash in MinerRows(blocks, b.miner);
      (Tables(blocks, t.summary[b.miner := SummaryOf(blocks, b.miner)]), true)
  }

  /** `write_winner`. */
  method WriteWinner(t: Tables, b: BlockRecord) returns (u: Tables, changed: bool)
    ensures (u, changed) == Write(t, b)
  {
    var row := UpsertRow(t.blocks, b);
    if row.None? {
      return t, false;
    }
    var blocks := t.blocks[b.blockHash := row.value];
    assert b.blockHash in MinerRows(blocks, b.miner);
    var s := RefreshSummary(blocks, b.miner);
    return Tables(blocks, t.summary[b.miner := s]), true;
  }

  /** Every miner with rows has the aggregate of its rows; nobody else has a summary. */
  ghost predicate Agrees(t: Tables) {
    && (forall m :: m in t.summary <==> MinerRows(t.blocks, m) != {})
    && (forall m :: m in t.summary ==> Aggregates(t.blocks, MinerRows(t.blocks, m), t.summary[m]))
  }

  /** A record keeps the miner its block hash already has. */
  predicate KeepsMiner(t: Tables, b: BlockRecord) {
    b.blockHash in t.blocks ==> t.blocks[b.blockHash].miner == b.miner
  }

  lemma OtherMinersUntouched(t: Tables, b: BlockRecord, m: string)
    requires KeepsMiner(t, b) && m != b.miner
    ensures var u := Write(t, b).0;
            && MinerRows(u.blocks, m) == MinerRows(t.blocks, m)
            && (m in u.summary <==> m in t.summary)
            && (m in t.summary ==> u.summary[m] == t.summary[m])
            && forall h :: h in MinerRows(t.blocks, m) ==> u.blocks[h] == t.blocks[h]
  {
  }

  lemma AggregateLocal(b1: map<Hash, BlockRecord>, b2: map<Hash, BlockRecord>, rows: set<Hash>, s: Summary)
    requires rows <= b1.Keys && rows <= b2.Keys && Aggregates(b1, rows, s)
    requires forall h :: h in rows ==> b1[h] == b2[h]
    ensures Aggregates(b2, rows, s)
  {
    TotalTimeLocal(b1, b2, rows);
  }

  lemma WriteKeepsAgreement(t: Tables, b: BlockRecord)
    requires Agrees(t) && KeepsMiner(t, b)
    ensures Agrees(Write(t, b).0)
  {
    var u := Write(t, b).0;
    if u != t {
      forall m | m != b.miner
        ensures m in u.summary <==> MinerRows(u.blocks, m) != {}
        ensures m in u.summary ==> Aggregates(u.blocks, MinerRows(u.blocks, m), u.summary[m])
      {
        OtherMinersUntouched(t, b, m);
        if m in t.summary {
          AggregateLocal(t.blocks, u.blocks, MinerRows(t.blocks, m), t.summary[m]);
        }
      }
      assert b.blockHash in MinerRows(u.blocks, b.miner);
    }
  }

  lemma ChangedMinerLeavesRows(t: Tables, b: BlockRecord, former: string)
    requires b.blockHash in t.blocks && former == t.blocks[b.blockHash].miner && former != b.miner
    ensures var u := Write(t, b).0;
            && MinerRows(u.blocks, former) == MinerRows(t.blocks, former) - {b.blockHash}
            && b.blockHash in MinerRows(t.blocks, former)
            && (former in t.summary ==> former in u.summary && u.summary[former] == t.summary[former])
  {
  }

  lemma ChangedMinerBreaksAgreement(t: Tables, b: BlockRecord)
    requires Agrees(t) && !KeepsMiner(t, b)
    ensures !Agrees(Write(t, b).0)
  {
    var former := t.blocks[b.blockHash].miner;
    ChangedMinerLeavesRows(t, b, former);
    assert former in t.summary && t.summary[former].wins == |MinerRows(t.blocks, former)|;
    hide Write, Agrees, MinerRows;
    WrongCountDisagrees(Write(t, b).0, former);
  }

  lemma WrongCountDisagrees(t: Tables, m: string)
    requires m in t.summary && t.summary[m].wins != |MinerRows(t.blocks, m)|
    ensures !Agrees(t)
  {
  }

  /** From agreeing tables, one write agrees exactly when the hash keeps its miner. */
  lemma WriteAgreesIffMinerKept(t: Tables, b: BlockRecord)
    requires Agrees(t)
    ensures Agrees(Write(t, b).0) <==> KeepsMiner(t, b)
  {
    if KeepsMiner(t, b) {
      WriteKeepsAgreement(t, b);
    } else {
      ChangedMinerBreaksAgreement(t, b);
    }
  }

  // ---------------------------------------------------------------- runs

  /** What happens to the winner tables: a committed record or a reindex of the domain. */
  datatype Event = Wrote(record: BlockRecord) | Cleared

  ghost function After(t: Tables, events: seq<Event>): Tables {
    if events == [] then t
    else
      var before := After(t, events[..|events| - 1]);
      match events[|events| - 1]
      case Wrote(b) => Write(before, b).0
      case Cleared => EmptyTables()
  }

  /** Along the run no block hash changes miner. */
  ghost predicate MinersStable(t: Tables, events: seq<Event>) {
    forall k :: 0 <= k < |events| && events[k].Wrote? ==> KeepsMiner(After(t, events[..k]), events[k].record)
  }

  lemma {:induction false} SummaryAgreesOverRuns(t: Tables, events: seq<Event>)
    requires Agrees(t) && MinersStable(t, events)
    ensures Agrees(After(t, events))
  {
    if events != [] {
      var init := events[..|events| - 1];
      assert forall k :: 0 <= k < |init| ==> events[..k] == init[..k];
      SummaryAgreesOverRuns(t, init);
      if events[|events| - 1].Wrote? {
        WriteKeepsAgreement(After(t, init), events[|events| - 1].record);
      }
    }
  }

  // ---------------------------------------------------------------- what a stored row holds

  /** The record as it was last written, apart from the two columns that are only enriched. */
  function Bare(b: BlockRecord): BlockRecord {
    b.(topology := None, deviceTime := None)
  }

  /** One write: no row disappears and no other row changes; a first record is stored as it
      is; later ones replace every column but topology and device time, which they may fill
      or replace and never erase; and the flag says whether a row changed. */
  lemma WriteStores(t: Tables, b: BlockRecord)
    ensures var (u, changed) := Write(t, b);
            && u.blocks.Keys == t.blocks.Keys + {b.blockHash}
            && (forall h :: h in t.blocks && h != b.blockHash ==> u.blocks[h] == t.blocks[h])
            && (b.blockHash !in t.blocks ==> u.blocks[b.blockHash] == b)
            && Bare(u.blocks[b.blockHash]) == Bare(b)
            && (b.topology.Some? ==> u.blocks[b.blockHash].topology == b.topology)
            && (b.deviceTime.Some? ==> u.blocks[b.blockHash].deviceTime == b.deviceTime)
            && (b.blockHash in t.blocks && b.topology.None? ==>
                  u.blocks[b.blockHash].topology == t.blocks[b.blockHash].topology)
            && (b.blockHash in t.blocks && b.deviceTime.None? ==>
                  u.blocks[b.blockHash].deviceTime == t.blocks[b.blockHash].deviceTime)
            && (changed <==> u.blocks != t.blocks) && (!changed ==> u == t)
  {
  }

  /** The last record written under a hash since the tables were last cleared. */
  function LastRecord(events: seq<Event>, h: Hash): Option<BlockRecord> {
    if events == [] then None
    else
      match events[|events| - 1]
      case Cleared => None
      case Wrote(b) => if b.blockHash == h then Some(b) else LastRecord(events[..|events| - 1], h)
  }

  /** The last topology that a record brought for a hash since then. */
  function LastTopology(events: seq<Event>, h: Hash): Option<Hash> {
    if events == [] then None
    else
      match events[|events| - 1]
      case Cleared => None
      case Wrote(b) =>
        if b.blockHash == h && b.topology.Some? then b.topology else LastTopology(events[..|events| - 1], h)
  }

  /** The last device time that a record brought for a hash since then. */
  function LastDeviceTime(events: seq<Event>, h: Hash): Option<nat> {
    if events == [] then None
    else
      match events[|events| - 1]
      case Cleared => None
      case Wrote(b) =>
        if b.blockHash == h && b.deviceTime.Some? then b.deviceTime else LastDeviceTime(events[..|events| - 1], h)
  }

  lemma {:induction false} NoRecordNoDetail(events: seq<Event>, h: Hash)
    requires LastRecord(events, h).None?
    ensures LastTopology(events, h).None? && LastDeviceTime(events, h).None?
  {
    if events != [] && events[|events| - 1].Wrote? {
      NoRecordNoDetail(events[..|events| - 1], h);
    }
  }

  /** Over every run a hash has a row exactly when a record was written under it since the
      last reindex; the row is the last such record with the last topology and the last
      device time that any of them brought. */
  lemma {:induction false} RowsOverRuns(events: seq<Event>, h: Hash)
    ensures var t, last := After(EmptyTables(), events), LastRecord(events, h);
            && (h in t.blocks <==> last.Some?)
            && (last.Some? ==>
                  t.blocks[h] == last.value.(topology := LastTopology(events, h), deviceTime := LastDeviceTime(events, h)))
  {
    if events != [] {
      var init := events[..|events| - 1];
      RowsOverRuns(init, h);
      match events[|events| - 1]
      case Cleared =>
      case Wrote(b) =>
        WriteStores(After(EmptyTables(), init), b);
        if LastRecord(init, h).None? { NoRecordNoDetail(init, h); }
        hide Write;
    }
  }

  /** A second record for the only stored hash, with another miner, leaves the summary of the
      first miner behind. */
  lemma RewrittenMiner(first: BlockRecord, second: BlockRecord)
    requires second.blockHash == first.blockHash && second.miner != first.miner
    ensures var t := Write(Write(EmptyTables(), first).0, second).0;
            first.miner in t.summary && MinerRows(t.blocks, first.miner) == {}
    ensures forall h :: h in Write(EmptyTables(), first).0.blocks ==>
              Write(EmptyTables(), first).0.blocks[h].substrateHash == first.substrateHash
  {
    assert first.miner in Write(EmptyTables(), first).0.summary;
  }

  // ---------------------------------------------------------------- idempotence

  /** Writing the same record twice changes nothing the second time. */
  lemma WriteIdempotent(t: Tables, b: BlockRecord)
    ensures Write(Write(t, b).0, b) == (Write(t, b).0, false)
  {
  }

  /** A stored row keeps the identity of the record that was written. */
  lemma WriteIdentity(t: Tables, b: BlockRecord, h: Hash)
    requires h in Write(t, b).0.blocks
    ensures var row := Write(t, b).0.blocks[h];
            (h in t.blocks && row == t.blocks[h])
            || (h == b.blockHash && row.number == b.number && row.substrateHash == b.substrateHash)
  {
  }
}
