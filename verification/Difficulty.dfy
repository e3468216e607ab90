/** Difficulty history: rows derived from blocks laid over rows observed by polling.

    `visible` is the public table, `polls` preserves what polling observed. The program
    edits both; the visible table is proved to be, at all times, the block rows of the
    current generation over the first poll row of every height. */
module DifficultyTables {
  import opened Prelude

  datatype Source = Poll | Block

  datatype Row = Row(
    block: nat,
    energy: real,
    minDiversity: real,
    minSolutions: nat,
    observedAt: int,
    topology: Option<nat>,
    source: Source)

  datatype Tables = Tables(visible: map<nat, Row>, polls: map<nat, Row>)

  function EmptyTables(): Tables {
    Tables(map[], map[])
  }

  /** INSERT ... ON CONFLICT DO NOTHING. */
  function InsertNew(rows: map<nat, Row>, d: Row): map<nat, Row> {
    if d.block in rows then rows else rows[d.block := d]
  }

  predicate HasBlockRow(t: Tables, n: nat) {
    n in t.visible && t.visible[n].source == Block
  }

  /** `write_difficulty` for a block-derived row. */
  function WriteBlock(t: Tables, d: Row): Result<(Tables, bool)>
    requires d.source == Block
  {
    if HasBlockRow(t, d.block) then
      var existing := t.visible[d.block];
      var incoming := if d.topology.None? then d.(topology := existing.topology) else d;
      if incoming == existing then Ok((t, false))
      else
        var enriched := if existing.topology.None? then existing.(topology := incoming.topology) else existing;
        if incoming != enriched then Err(Invalid)
        else Ok((t.(visible := t.visible[d.block := incoming]), true))
    else
      var polls := if d.block in t.visible then InsertNew(t.polls, t.visible[d.block]) else t.polls;
      Ok((Tables(t.visible[d.block := d], polls), true))
  }

  /** `write_difficulty` for a polled row. */
  function WritePoll(t: Tables, d: Row): Tables
    requires d.source == Poll
  {
    Tables(InsertNew(t.visible, d), InsertNew(t.polls, d))
  }

  predicate SamePollValue(prev: Row, next: Row) {
    prev.energy == next.energy && prev.minDiversity == next.minDiversity
    && prev.minSolutions == next.minSolutions && prev.topology == next.topology
  }

  /** A row the engine may return for ORDER BY observed_at DESC LIMIT 1. */
  ghost predicate IsLatest(polls: map<nat, Row>, latest: Option<Row>) {
    && (latest.None? <==> polls == map[])
    && (latest.Some? ==> latest.value in polls.Values
                         && forall n :: n in polls ==> polls[n].observedAt <= latest.value.observedAt)
  }

  /** Read the latest poll row. */
  method LatestPoll(polls: map<nat, Row>) returns (latest: Option<Row>)
    ensures IsLatest(polls, latest)
  {
    latest := None;
    var rest := polls.Keys;
    while rest != {}
      invariant rest <= polls.Keys
      invariant latest.None? ==> rest == polls.Keys
      invariant latest.Some? ==> latest.value in polls.Values
                                 && forall n :: n in polls && n !in rest ==> polls[n].observedAt <= latest.value.observedAt
      decreases |rest|
    {
      var n: nat :| n in rest;
      if latest.None? || latest.value.observedAt < polls[n].observedAt {
        latest := Some(polls[n]);
      }
      rest := rest - {n};
    }
  }

  /** `insert_difficulty_snapshot`: record only changes of value. */
  function Snapshot(t: Tables, d: Row, latest: Option<Row>): Result<Tables> {
    if d.source != Poll then Err(Invalid)
    else if latest.Some? && SamePollValue(latest.value, d) then Ok(t)
    else Ok(WritePoll(t, d))
  }

  /** Reindex: delete block rows, then restore preserved poll rows where nothing is left. */
  function Reindex(t: Tables): Tables {
    var kept := map n | n in t.visible && t.visible[n].source != Block :: t.visible[n];
    t.(visible := t.polls + kept)
  }

  // ---------------------------------------------------------------- runs

  datatype Event = Committed(row: Row) | Polled(row: Row, latest: Option<Row>) | Reindexed

  function Step(t: Tables, e: Event): Tables {
    match e
    case Committed(d) =>
      if d.source != Block || WriteBlock(t, d).Err? then t else WriteBlock(t, d).value.0
    case Polled(d, latest) => if Snapshot(t, d, latest).Err? then t else Snapshot(t, d, latest).value
    case Reindexed => Reindex(t)
  }

  function After(events: seq<Event>): Tables {
    if events == [] then EmptyTables() else Step(After(events[..|events| - 1]), events[|events| - 1])
  }

  /** Polling recorded `d` (it was not suppressed as unchanged). */
  predicate Records(e: Event, n: nat) {
    e.Polled? && e.row.source == Poll && e.row.block == n && (e.latest.Some? ==> ValueOf(e.latest.value) != ValueOf(e.row))
  }

  /** The observed value, apart from when and where it was observed. */
  function ValueOf(row: Row): (real, real, nat, Option<nat>) {
    (row.energy, row.minDiversity, row.minSolutions, row.topology)
  }

  /** The first poll row recorded at a height, from the events alone. */
  function FirstPoll(events: seq<Event>, n: nat): Option<Row> {
    if events == [] then None
    else
      var earlier := FirstPoll(events[..|events| - 1], n);
      var e := events[|events| - 1];
      if earlier.Some? then earlier else if Records(e, n) then Some(e.row) else None
  }

  /** Two block rows that differ at most by a topology one of them lacks. */
  predicate Compatible(a: Row, b: Row) {
    a == b.(topology := a.topology) && (a.topology.None? || b.topology.None? || a.topology == b.topology)
  }

  /** The block row of the current generation at a height, from the events alone:
      the first committed row, completed by the first topology a compatible commit brings. */
  function BlockRow(events: seq<Event>, n: nat): Option<Row> {
    if events == [] then None
    else
      var earlier := BlockRow(events[..|events| - 1], n);
      match events[|events| - 1]
      case Reindexed => None
      case Polled(_, _) => earlier
      case Committed(d) =>
        if d.source != Block || d.block != n then earlier
        else if earlier.None? then Some(d)
        else if Compatible(earlier.value, d) && earlier.value.topology.None? then Some(d)
        else earlier
  }

  /** Both tables at one height, given its first poll row and its block row. */
  ghost predicate OverlayAt(t: Tables, n: nat, poll: Option<Row>, block: Option<Row>) {
    && (n in t.polls <==> poll.Some?)
    && (poll.Some? ==> t.polls[n] == poll.value && poll.value.source == Poll && poll.value.block == n)
    && (block.Some? ==> block.value.source == Block && block.value.block == n)
    && (n in t.visible <==> block.Some? || poll.Some?)
    && (n in t.visible ==> t.visible[n] == if block.Some? then block.value else poll.value)
  }

  ghost predicate Overlay(t: Tables, events: seq<Event>) {
    forall n :: OverlayAt(t, n, FirstPoll(events, n), BlockRow(events, n))
  }

  lemma CommitKeepsOverlayAt(t: Tables, d: Row, n: nat, poll: Option<Row>, block: Option<Row>)
    requires OverlayAt(t, n, poll, block) && d.source == Block && d.block == n
    ensures OverlayAt(Step(t, Committed(d)), n, poll,
                      if block.None? then Some(d)
                      else if Compatible(block.value, d) && block.value.topology.None? then Some(d)
                      else block)
  {
  }

  lemma ElsewhereUntouched(t: Tables, e: Event, n: nat)
    requires forall m :: m in t.visible ==> t.visible[m].block == m
    requires e.Reindexed? || e.row.block != n
    ensures !e.Reindexed? ==> (n in Step(t, e).visible <==> n in t.visible)
    ensures !e.Reindexed? && n in t.visible ==> Step(t, e).visible[n] == t.visible[n]
    ensures n in Step(t, e).polls <==> n in t.polls
    ensures n in t.polls ==> Step(t, e).polls[n] == t.polls[n]
  {
  }

  lemma StepKeepsOverlayAt(t: Tables, events: seq<Event>, e: Event, n: nat)
    requires OverlayAt(t, n, FirstPoll(events, n), BlockRow(events, n))
    requires forall m :: m in t.visible ==> t.visible[m].block == m
    ensures OverlayAt(Step(t, e), n, FirstPoll(events + [e], n), BlockRow(events + [e], n))
  {
    var next := events + [e];
    assert next[..|next| - 1] == events;
    if e.Reindexed? {
    } else if e.row.block != n {
      ElsewhereUntouched(t, e, n);
      hide Step;
    } else if e.Committed? {
      if e.row.source == Block {
        CommitKeepsOverlayAt(t, e.row, n, FirstPoll(events, n), BlockRow(events, n));
        hide Step;
      }
    }
  }

  /** Over every run the visible history is the block row of this generation if there is
      one, else the first poll row. */
  lemma {:induction false} OverlayOverRuns(events: seq<Event>)
    ensures Overlay(After(events), events)
  {
    if events != [] {
      var init, e := events[..|events| - 1], events[|events| - 1];
      OverlayOverRuns(init);
      assert events == init + [e];
      forall m | m in After(init).visible ensures After(init).visible[m].block == m {
        assert OverlayAt(After(init), m, FirstPoll(init, m), BlockRow(init, m));
      }
      forall n ensures OverlayAt(After(events), n, FirstPoll(events, n), BlockRow(events, n)) {
        StepKeepsOverlayAt(After(init), init, e, n);
      }
    }
  }

  /** A reindex after any run restores precisely the preserved poll rows. */
  lemma ReindexRestoresPolls(events: seq<Event>)
    ensures After(events + [Reindexed]).visible == After(events).polls
    ensures After(events + [Reindexed]).polls == After(events).polls
  {
    OverlayOverRuns(events);
    var t := After(events);
    assert (events + [Reindexed])[..|events|] == events;
    forall n ensures n in Reindex(t).visible <==> n in t.polls
             ensures n in t.polls ==> Reindex(t).visible[n] == t.polls[n] {
      assert OverlayAt(t, n, FirstPoll(events, n), BlockRow(events, n));
    }
  }

  /** Until a reindex, a visible block row changes only by gaining a topology. */
  lemma BlockRowOnlyGainsTopology(t: Tables, e: Event, n: nat)
    requires HasBlockRow(t, n) && e != Reindexed
    requires forall m :: m in t.visible ==> t.visible[m].block == m
    ensures HasBlockRow(Step(t, e), n)
    ensures var before, after := t.visible[n], Step(t, e).visible[n];
            after == before || (before.topology.None? && after == before.(topology := after.topology))
  {
  }

  /** A block row is refused exactly when the height already has one that differs in more than
      a topology one of them lacks; otherwise the flag says whether the tables changed. */
  lemma WriteBlockRefuses(t: Tables, d: Row)
    requires d.source == Block
    ensures WriteBlock(t, d).Err? <==> HasBlockRow(t, d.block) && !Compatible(t.visible[d.block], d)
    ensures WriteBlock(t, d).Ok? ==> (WriteBlock(t, d).value.1 <==> WriteBlock(t, d).value.0 != t)
  {
  }

  /** What an accepted block row leaves: it is visible, with a topology the stored row had;
      no other height changes; and a poll row it hides is preserved, whichever table held it. */
  lemma WriteBlockStores(t: Tables, d: Row)
    requires d.source == Block && WriteBlock(t, d).Ok? && forall n :: n in t.visible ==> t.visible[n].block == n
    ensures var u := WriteBlock(t, d).value.0;
            && d.block in u.visible
            && u.visible[d.block] == (if HasBlockRow(t, d.block) && d.topology.None?
                                      then d.(topology := t.visible[d.block].topology) else d)
            && (forall n :: n != d.block ==> (n in u.visible <==> n in t.visible) && (n in u.polls <==> n in t.polls))
            && (forall n :: n != d.block && n in t.visible ==> u.visible[n] == t.visible[n])
            && (forall n :: n in t.polls ==> n in u.polls && u.polls[n] == t.polls[n])
            && (d.block in t.visible && !HasBlockRow(t, d.block) && d.block !in t.polls ==>
                  d.block in u.polls && u.polls[d.block] == t.visible[d.block])
  {
  }

  /** From any tables, also those of a database older than the poll table: a poll row that a
      block row hides is visible again after the reindex. */
  lemma HiddenPollReturns(t: Tables, d: Row)
    requires d.source == Block && d.block in t.visible && t.visible[d.block].source == Poll
    requires forall n :: n in t.visible ==> t.visible[n].block == n
    requires d.block in t.polls ==> t.polls[d.block] == t.visible[d.block]
    ensures WriteBlock(t, d).Ok?
    ensures var u := Reindex(WriteBlock(t, d).value.0); d.block in u.visible && u.visible[d.block] == t.visible[d.block]
  {
    WriteBlockStores(t, d);
    hide WriteBlock;
  }

  /** A repeated block row changes nothing. */
  lemma WriteBlockIdempotent(t: Tables, d: Row)
    requires d.source == Block && WriteBlock(t, d).Ok?
    ensures WriteBlock(WriteBlock(t, d).value.0, d) == Ok((WriteBlock(t, d).value.0, false))
  {
  }
}
