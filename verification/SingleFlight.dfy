/** Single flight, and what the entries of a cache stand for, over every interleaving. */
module SingleFlight {
  import opened Prelude
  import opened Caches

  predicate IsLoading(s: State, t: Task) {
    t in s.tasks && s.tasks[t].Loading?
  }

  /** At most one task loads a cell, and only while the cell is empty. */
  ghost predicate OneLoader(s: State) {
    && (forall t, u :: IsLoading(s, t) && IsLoading(s, u) && s.tasks[t].cell == s.tasks[u].cell ==> t == u)
    && (forall t :: IsLoading(s, t) ==> s.tasks[t].cell !in s.contents)
  }

  /** A cell is entered under one key, the key its holders asked for. */
  ghost predicate Keyed(s: State) {
    && (forall k, l :: k in s.cells && l in s.cells && s.cells[k] == s.cells[l] ==> k == l)
    && (forall k, t :: k in s.cells && t in s.tasks && HoldsCell(s.tasks[t], s.cells[k]) ==> s.tasks[t].key == k)
  }

  /** Every entry is filled, or some task still holds its cell. */
  ghost predicate NoIdleEntry(s: State) {
    forall k :: k in s.cells ==> s.cells[k] in s.contents || InFlight(s, s.cells[k])
  }

  ghost predicate SubEntries(cells: map<Key, Ref>, all: map<Key, Ref>) {
    forall k :: k in cells ==> k in all && cells[k] == all[k]
  }

  // ---------------------------------------------------------------- shapes of the steps

  ghost predicate LoadShape(s: State, r: State, t: Task)
    requires t in s.tasks && s.tasks[t].Loading?
  {
    var p := s.tasks[t];
    && SubEntries(r.cells, s.cells)
    && (|| (r.tasks == s.tasks && r.contents == s.contents)
        || (r.tasks == s.tasks[t := Failed(p.key, p.cell)] && r.contents == s.contents)
        || (exists v :: r.tasks == s.tasks[t := Loaded(p.key, p.cell, v)] && r.contents == s.contents[p.cell := v]))
  }

  lemma {:induction false} MakeRoomShape(s: State, bytes: nat, victims: seq<Key>)
    ensures var r := MakeRoomFor(s, bytes, victims);
            SubEntries(r.cells, s.cells) && r.tasks == s.tasks && r.contents == s.contents
    decreases |victims|
  {
    hide Remove;
    if victims != [] && s.keptUsed + bytes > s.config.keptBytes && Removable(s, victims[0]) {
      RemoveFrame(s, victims[0]);
      MakeRoomShape(Remove(s, victims[0]), bytes, victims[1..]);
    }
  }

  lemma LoadHasShape(s: State, t: Task, bytes: nat, victims: seq<Key>)
    requires t in s.tasks && s.tasks[t].Loading?
    ensures LoadShape(s, Load(s, t, bytes, victims), t)
  {
    MakeRoomShape(s, bytes, victims);
    hide MakeRoomFor, SubEntries;
    assert SubEntries(s.cells, s.cells) by { EntriesThemselves(s.cells); }
    var r := MakeRoomFor(s, bytes, victims);
    if s.tasks[t].cell !in s.contents {
      if bytes > s.config.keptBytes {
        FillShape(s, t, Charge(Oversized, bytes));
      } else {
        FillShape(r, t, Charge(Kept, bytes));
      }
      hide Fill, Fail;
    }
  }

  lemma EntriesThemselves(cells: map<Key, Ref>)
    ensures SubEntries(cells, cells)
  {
  }

  lemma FillShape(s: State, t: Task, charge: Charge)
    requires t in s.tasks && s.tasks[t].Loading?
    ensures var p, r := s.tasks[t], Fill(s, t, charge);
            && r.cells == s.cells && r.tasks == s.tasks[t := Loaded(p.key, p.cell, s.next)]
            && r.contents == s.contents[p.cell := s.next]
    ensures var p, r := s.tasks[t], Fail(s, t);
            r.cells == s.cells && r.contents == s.contents && r.tasks == s.tasks[t := Failed(p.key, p.cell)]
  {
  }

  // ---------------------------------------------------------------- every step keeps them

  /** A new task with a value, or with a clone of the entry of its key. */
  lemma EnterKeepsOrder(s: State, t: Task, p: Phase)
    requires OneLoader(s) && Keyed(s) && t !in s.tasks
    requires p.Holding? || (p.Waiting? && p.key in s.cells && p.cell == s.cells[p.key])
    ensures OneLoader(s.(tasks := s.tasks[t := p])) && Keyed(s.(tasks := s.tasks[t := p]))
  {
  }

  lemma InsertKeepsOrder(s: State, t: Task, key: Key)
    requires OneLoader(s) && Keyed(s) && Known(s) && t !in s.tasks && key !in s.cells
    ensures OneLoader(Insert(s, t, key)) && Keyed(Insert(s, t, key))
  {
  }

  lemma FewerEntriesKeepOrder(s: State, r: State)
    requires OneLoader(s) && Keyed(s) && r.tasks == s.tasks && r.contents == s.contents && SubEntries(r.cells, s.cells)
    ensures OneLoader(r) && Keyed(r)
  {
  }

  lemma ReplaceKeepsOrder(s: State, t: Task, key: Key, victim: Key)
    requires Valid(s) && OneLoader(s) && Keyed(s) && t !in s.tasks && key !in s.cells && Removable(s, victim)
    ensures var r := Insert(Remove(s, victim), t, key); OneLoader(r) && Keyed(r)
  {
    RemoveFrame(s, victim);
    RemoveKeeps(s, victim);
    hide Remove, Removable, Insert, OneLoader, Keyed, Valid;
    ValidIsKnown(Remove(s, victim));
    hide Known;
    FewerEntriesKeepOrder(s, Remove(s, victim));
    InsertKeepsOrder(Remove(s, victim), t, key);
  }

  lemma RetainKeepsOrder(s: State)
    requires OneLoader(s) && Keyed(s)
    ensures OneLoader(Retain(s)) && Keyed(Retain(s)) && Retain(s).tasks == s.tasks && Retain(s).cells == s.cells
  {
    hide OneLoader, Keyed;
    FewerEntriesKeepOrder(s, Retain(s));
  }

  lemma LookupKeepsOrder(s: State, t: Task, key: Key, victim: Key)
    requires Valid(s) && OneLoader(s) && Keyed(s) && t !in s.tasks
    ensures OneLoader(Lookup(s, t, key, victim)) && Keyed(Lookup(s, t, key, victim))
  {
    hide Retain, OneLoader, Keyed, Valid, Known, Remove, Removable, Insert;
    var r := Retain(s);
    RetainKeeps(s);
    RetainKeepsOrder(s);
    ValidIsKnown(r);
    if key in r.uncached {
      EnterKeepsOrder(r, t, Holding(r.uncached[key]));
    } else if key in r.cells {
      EnterKeepsOrder(r, t, Waiting(key, r.cells[key]));
    } else if |r.cells| < r.config.entries - |r.uncached| {
      InsertKeepsOrder(r, t, key);
    } else if Removable(r, victim) {
      ReplaceKeepsOrder(r, t, key, victim);
    }
  }

  lemma ValidIsKnown(s: State)
    requires Valid(s)
    ensures Known(s)
  {
  }

  lemma LoadKeepsOrder(s: State, r: State, t: Task)
    requires OneLoader(s) && Keyed(s) && t in s.tasks && s.tasks[t].Loading? && LoadShape(s, r, t)
    ensures OneLoader(r) && Keyed(r)
  {
  }

  lemma StartKeepsOrder(s: State, t: Task)
    requires OneLoader(s) && Keyed(s) && t in s.tasks && s.tasks[t].Waiting?
    ensures OneLoader(Start(s, t)) && Keyed(Start(s, t)) && OneLoader(Share(s, t)) && Keyed(Share(s, t))
  {
  }

  lemma FinishKeepsOrder(s: State, t: Task, keep: bool)
    requires OneLoader(s) && Keyed(s) && t in s.tasks && s.tasks[t].Loaded?
    ensures OneLoader(Finish(s, t, keep)) && Keyed(Finish(s, t, keep))
  {
  }

  /** Fewer tasks and entries cannot disorder the rest. */
  lemma LeaveKeepsOrder(s: State, r: State, t: Task)
    requires OneLoader(s) && Keyed(s) && r.tasks == s.tasks - {t} && r.contents == s.contents && SubEntries(r.cells, s.cells)
    ensures OneLoader(r) && Keyed(r)
  {
  }

  lemma FailKeepsOrder(s: State, t: Task)
    requires OneLoader(s) && Keyed(s) && t in s.tasks && s.tasks[t].Loading?
    ensures OneLoader(Fail(s, t)) && Keyed(Fail(s, t))
  {
  }

  lemma GiveUpFrame(s: State, t: Task)
    requires t in s.tasks && s.tasks[t].Failed?
    ensures var r := GiveUp(s, t);
            && r.tasks == s.tasks - {t} && r.contents == s.contents
            && r.cells == (if s.config.dropsFailures && OwnsEntry(s, s.tasks[t].key, s.tasks[t].cell)
                           then s.cells - {s.tasks[t].key} else s.cells)
  {
    LeaveFrame(s, t);
    LeaveFrame(s.(cells := s.cells - {s.tasks[t].key}), t);
    hide Leave;
  }

  lemma StepKeepsOrder(s: State, e: Event)
    requires Valid(s) && OneLoader(s) && Keyed(s)
    ensures OneLoader(Step(s, e)) && Keyed(Step(s, e))
  {
    assert Known(s);
    hide Valid, OneLoader, Keyed, Known, Lookup, Start, Share, Load, Finish, GiveUp, Leave, Fail;
    var t := e.task;
    if e.Look? {
      if t !in s.tasks {
        LookupKeepsOrder(s, t, e.key, e.victim);
      }
    } else if t in s.tasks {
      match e
      case Starts(_) => if s.tasks[t].Waiting? { StartKeepsOrder(s, t); }
      case Shares(_) => if s.tasks[t].Waiting? { StartKeepsOrder(s, t); }
      case Completes(_, bytes, victims) =>
        if s.tasks[t].Loading? {
          LoadHasShape(s, t, bytes, victims);
          LoadKeepsOrder(s, Load(s, t, bytes, victims), t);
        }
      case Errs(_) => if s.tasks[t].Loading? { FailKeepsOrder(s, t); }
      case Returns(_, keep) => if s.tasks[t].Loaded? { FinishKeepsOrder(s, t, keep); }
      case Reports(_) => if s.tasks[t].Failed? { GiveUpFrame(s, t); LeaveKeepsOrder(s, GiveUp(s, t), t); }
      case Drops(_) => LeaveFrame(s, t); LeaveKeepsOrder(s, Leave(s, t), t);
      case Cancels(_) => LeaveFrame(s, t); LeaveKeepsOrder(s, Leave(s, t), t);
    }
  }

  /** Over every interleaving no cell has two loads in progress, no filled cell is loaded
      again, and a cell stays under the key its holders asked for. */
  lemma {:induction false} SingleFlightOverRuns(config: Config, events: seq<Event>)
    ensures var s := After(Empty(config), events); Valid(s) && OneLoader(s) && Keyed(s)
    decreases |events|
  {
    CacheOverRuns(config, events);
    if events != [] {
      var init := events[..|events| - 1];
      SingleFlightOverRuns(config, init);
      StepKeepsOrder(After(Empty(config), init), events[|events| - 1]);
      hide Step, Valid, OneLoader, Keyed;
    }
  }

  // ---------------------------------------------------------------- no idle entries

  lemma FlightKept(s: State, r: State, t: Task, p: Phase)
    requires t in s.tasks ==> forall c :: HoldsCell(s.tasks[t], c) ==> HoldsCell(p, c)
    requires r.tasks == s.tasks[t := p]
    ensures forall c :: InFlight(s, c) ==> InFlight(r, c)
  {
    forall c | InFlight(s, c) ensures InFlight(r, c) {
      var u :| u in s.tasks && HoldsCell(s.tasks[u], c);
      assert u in r.tasks && HoldsCell(r.tasks[u], c);
    }
  }

  lemma EnterKeepsEntries(s: State, t: Task, p: Phase)
    requires NoIdleEntry(s) && t !in s.tasks
    ensures NoIdleEntry(s.(tasks := s.tasks[t := p]))
  {
    FlightKept(s, s.(tasks := s.tasks[t := p]), t, p);
    hide InFlight;
  }

  lemma InsertKeepsEntries(s: State, t: Task, key: Key)
    requires NoIdleEntry(s) && t !in s.tasks
    ensures NoIdleEntry(Insert(s, t, key))
  {
    var r := Insert(s, t, key);
    FlightKept(s, r, t, Waiting(key, s.next));
    assert HoldsCell(r.tasks[t], s.next) && InFlight(r, s.next);
    hide InFlight;
  }

  lemma FewerEntriesKeepEntries(s: State, r: State)
    requires NoIdleEntry(s) && r.tasks == s.tasks && r.contents == s.contents && SubEntries(r.cells, s.cells)
    ensures NoIdleEntry(r)
  {
    assert forall c :: InFlight(s, c) <==> InFlight(r, c);
    hide InFlight;
  }

  lemma LookupKeepsEntries(s: State, t: Task, key: Key, victim: Key)
    requires NoIdleEntry(s) && t !in s.tasks
    ensures NoIdleEntry(Lookup(s, t, key, victim))
  {
    var r := Retain(s);
    assert r == s.(uncached := r.uncached);
    FewerEntriesKeepEntries(s, r);
    hide Retain, NoIdleEntry;
    if key in r.uncached {
      EnterKeepsEntries(r, t, Holding(r.uncached[key]));
    } else if key in r.cells {
      EnterKeepsEntries(r, t, Waiting(key, r.cells[key]));
    } else {
      InsertKeepsEntries(r, t, key);
      if Removable(r, victim) {
        RemoveFrame(r, victim);
        hide Remove, Removable, Insert;
        FewerEntriesKeepEntries(r, Remove(r, victim));
        InsertKeepsEntries(Remove(r, victim), t, key);
      }
    }
  }

  lemma RephaseKeepsEntries(s: State, r: State, t: Task, p: Phase)
    requires NoIdleEntry(s) && SubEntries(r.cells, s.cells) && r.tasks == s.tasks[t := p]
    requires t in s.tasks && !p.Holding? && !s.tasks[t].Holding? && p.cell == s.tasks[t].cell
    requires forall c :: c in s.contents ==> c in r.contents
    ensures NoIdleEntry(r)
  {
    FlightKept(s, r, t, p);
    hide InFlight;
  }

  lemma LoadKeepsEntries(s: State, r: State, t: Task)
    requires NoIdleEntry(s) && t in s.tasks && s.tasks[t].Loading? && LoadShape(s, r, t)
    ensures NoIdleEntry(r)
  {
    if r.tasks == s.tasks {
      assert forall c :: InFlight(s, c) <==> InFlight(r, c);
      hide InFlight;
    } else {
      RephaseKeepsEntries(s, r, t, r.tasks[t]);
    }
  }

  /** A task that held only a filled cell, or no cell, can go. */
  lemma GoneKeepsEntries(s: State, r: State, t: Task)
    requires NoIdleEntry(s) && r.contents == s.contents && SubEntries(r.cells, s.cells) && t in s.tasks
    requires forall u :: u in s.tasks && u != t ==> u in r.tasks && r.tasks[u] == s.tasks[u]
    requires forall k :: k in r.cells && HoldsCell(s.tasks[t], r.cells[k]) ==> r.cells[k] in r.contents
    ensures NoIdleEntry(r)
  {
    forall k | k in r.cells && r.cells[k] !in r.contents ensures InFlight(r, r.cells[k]) {
      var u :| u in s.tasks && HoldsCell(s.tasks[u], s.cells[k]);
      assert u in r.tasks && HoldsCell(r.tasks[u], r.cells[k]);
    }
  }

  lemma ReportKeepsEntries(s: State, t: Task)
    requires NoIdleEntry(s) && Keyed(s) && s.config.dropsFailures && t in s.tasks && s.tasks[t].Failed?
    ensures NoIdleEntry(GiveUp(s, t))
  {
    GiveUpFrame(s, t);
    hide GiveUp;
    GoneKeepsEntries(s, GiveUp(s, t), t);
  }

  lemma FinishKeepsEntries(s: State, t: Task, keep: bool)
    requires NoIdleEntry(s) && Known(s) && t in s.tasks && s.tasks[t].Loaded?
    ensures NoIdleEntry(Finish(s, t, keep))
  {
    GoneKeepsEntries(s, Finish(s, t, keep), t);
  }

  lemma StartKeepsEntries(s: State, t: Task)
    requires NoIdleEntry(s) && t in s.tasks && s.tasks[t].Waiting?
    ensures NoIdleEntry(Start(s, t)) && NoIdleEntry(Share(s, t))
  {
    var p := s.tasks[t];
    if Start(s, t) != s { RephaseKeepsEntries(s, Start(s, t), t, Loading(p.key, p.cell)); }
    if Share(s, t) != s { RephaseKeepsEntries(s, Share(s, t), t, Loaded(p.key, p.cell, s.contents[p.cell])); }
  }

  lemma DropKeepsEntries(s: State, t: Task)
    requires NoIdleEntry(s) && t in s.tasks && s.tasks[t].Holding?
    ensures NoIdleEntry(Leave(s, t))
  {
    LeaveFrame(s, t);
    hide Leave;
    GoneKeepsEntries(s, Leave(s, t), t);
  }

  lemma StepKeepsEntries(s: State, e: Event)
    requires Valid(s) && Keyed(s) && NoIdleEntry(s) && s.config.dropsFailures && !e.Cancels?
    ensures NoIdleEntry(Step(s, e))
  {
    assert Known(s);
    hide Valid, Keyed, Known, NoIdleEntry, Lookup, Start, Share, Load, Finish, GiveUp, Leave;
    var t := e.task;
    if e.Look? {
      if t !in s.tasks {
        LookupKeepsEntries(s, t, e.key, e.victim);
      }
    } else if t in s.tasks {
      match e
      case Starts(_) => if s.tasks[t].Waiting? { StartKeepsEntries(s, t); }
      case Shares(_) => if s.tasks[t].Waiting? { StartKeepsEntries(s, t); }
      case Completes(_, bytes, victims) =>
        if s.tasks[t].Loading? {
          LoadHasShape(s, t, bytes, victims);
          LoadKeepsEntries(s, Load(s, t, bytes, victims), t);
        }
      case Errs(_) => if s.tasks[t].Loading? { RephaseKeepsEntries(s, Fail(s, t), t, Failed(s.tasks[t].key, s.tasks[t].cell)); }
      case Returns(_, keep) => if s.tasks[t].Loaded? { FinishKeepsEntries(s, t, keep); }
      case Reports(_) => if s.tasks[t].Failed? { ReportKeepsEntries(s, t); }
      case Drops(_) => if s.tasks[t].Holding? { DropKeepsEntries(s, t); }
    }
  }

  /** A failed response load leaves no entry: along every run of the response cache without
      cancellations, each entry is filled or a task still holds its cell. */
  lemma {:induction false} EntriesFilledOrInFlight(config: Config, events: seq<Event>)
    requires config.dropsFailures && forall i :: 0 <= i < |events| ==> !events[i].Cancels?
    ensures NoIdleEntry(After(Empty(config), events))
    decreases |events|
  {
    if events != [] {
      var init := events[..|events| - 1];
      EntriesFilledOrInFlight(config, init);
      SingleFlightOverRuns(config, init);
      CacheOverRuns(config, init);
      StepKeepsEntries(After(Empty(config), init), events[|events| - 1]);
      hide Step, Valid, OneLoader, Keyed;
    }
  }

  // ---------------------------------------------------------------- single flight per key

  /** Whoever may still load holds the cell that is entered under its key. */
  ghost predicate Entered(s: State) {
    forall t :: t in s.tasks && !s.tasks[t].Holding? && s.tasks[t].cell !in s.contents ==>
      OwnsEntry(s, s.tasks[t].key, s.tasks[t].cell)
  }

  /** No two tasks load the same key. */
  ghost predicate OneLoadPerKey(s: State) {
    forall t, u :: IsLoading(s, t) && IsLoading(s, u) && s.tasks[t].key == s.tasks[u].key ==> t == u
  }

  lemma HeldIsInFlight(s: State, t: Task)
    requires t in s.tasks && !s.tasks[t].Holding?
    ensures InFlight(s, s.tasks[t].cell)
  {
    assert HoldsCell(s.tasks[t], s.tasks[t].cell);
  }

  /** Steps that keep held entries and empty no cell: old tasks stay entered. */
  lemma HeldStaysEntered(s: State, r: State, t: Task)
    requires Entered(s) && Spares(s, r) && (forall c :: c in s.contents ==> c in r.contents)
    requires forall u :: u in r.tasks && u != t ==> u in s.tasks && r.tasks[u] == s.tasks[u]
    requires t in r.tasks && !r.tasks[t].Holding? && r.tasks[t].cell !in r.contents ==>
               OwnsEntry(r, r.tasks[t].key, r.tasks[t].cell)
    ensures Entered(r)
  {
    forall u | u in r.tasks && !r.tasks[u].Holding? && r.tasks[u].cell !in r.contents
      ensures OwnsEntry(r, r.tasks[u].key, r.tasks[u].cell)
    {
      if u != t {
        HeldIsInFlight(s, u);
      }
    }
  }

  /** At most the task itself is new, with a value or with the cell entered under its key. */
  ghost predicate Joined(s: State, r: State, t: Task) {
    && r.contents == s.contents
    && (forall u :: u in r.tasks && u != t ==> u in s.tasks && r.tasks[u] == s.tasks[u])
    && (t in r.tasks && !r.tasks[t].Holding? ==> OwnsEntry(r, r.tasks[t].key, r.tasks[t].cell))
  }

  lemma EnterJoins(s: State, r: State, t: Task, p: Phase)
    requires r.contents == s.contents && r.tasks == s.tasks && (p.Holding? || OwnsEntry(r, p.key, p.cell))
    ensures Joined(s, r.(tasks := r.tasks[t := p]), t)
  {
  }

  lemma InsertJoins(s: State, r: State, t: Task, key: Key)
    requires r.contents == s.contents && r.tasks == s.tasks
    ensures Joined(s, Insert(r, t, key), t)
  {
  }

  lemma LookupJoins(s: State, t: Task, key: Key, victim: Key)
    requires t !in s.tasks
    ensures Joined(s, Lookup(s, t, key, victim), t)
  {
    var r := Retain(s);
    assert r.tasks == s.tasks && r.contents == s.contents;
    assert Joined(s, r, t);
    hide Retain, Remove, Removable, Joined, Insert;
    if key in r.uncached {
      EnterJoins(s, r, t, Holding(r.uncached[key]));
    } else if key in r.cells {
      EnterJoins(s, r, t, Waiting(key, r.cells[key]));
    } else {
      InsertJoins(s, r, t, key);
      if Removable(r, victim) {
        assert victim in r.cells by { RemovableIsEntry(r, victim); }
        RemoveFrame(r, victim);
        InsertJoins(s, Remove(r, victim), t, key);
      }
    }
  }

  lemma LookupKeepsEntered(s: State, t: Task, key: Key, victim: Key)
    requires Entered(s) && t !in s.tasks
    ensures Entered(Lookup(s, t, key, victim))
  {
    hide Lookup, Spares, Entered;
    LookupFrame(s, t, key, victim);
    LookupJoins(s, t, key, victim);
    HeldStaysEntered(s, Lookup(s, t, key, victim), t);
  }

  lemma LoadKeepsEntered(s: State, t: Task, bytes: nat, victims: seq<Key>)
    requires Valid(s) && Entered(s) && t in s.tasks && s.tasks[t].Loading?
    ensures Entered(Load(s, t, bytes, victims))
  {
    var r := Load(s, t, bytes, victims);
    LoadHasShape(s, t, bytes, victims);
    LoadFrame(s, t, bytes, victims);
    HeldIsInFlight(s, t);
    hide Load, InFlight, Valid;
    HeldStaysEntered(s, r, t);
  }

  /** An entry removed with its filled value concerns nobody who may still load. */
  lemma FinishKeepsEntered(s: State, t: Task, keep: bool)
    requires Entered(s) && Known(s) && t in s.tasks && s.tasks[t].Loaded?
    ensures Entered(Finish(s, t, keep))
  {
  }

  lemma LeaveKeepsEntered(s: State, t: Task)
    requires Entered(s) && t in s.tasks
    ensures Entered(Leave(s, t))
  {
    LeaveFrame(s, t);
    hide Leave;
  }

  lemma GiveUpKeepsEntered(s: State, t: Task)
    requires Entered(s) && t in s.tasks && s.tasks[t].Failed? && !s.config.dropsFailures
    ensures Entered(GiveUp(s, t))
  {
    GiveUpFrame(s, t);
    hide GiveUp;
  }

  lemma StepKeepsEntered(s: State, e: Event)
    requires Valid(s) && Entered(s) && (!s.config.dropsFailures || !e.Reports?)
    ensures Entered(Step(s, e))
  {
    ValidIsKnown(s);
    hide Valid, Known, Lookup, Load, Finish, GiveUp, Leave;
    var t := e.task;
    if e.Look? {
      if t !in s.tasks {
        LookupKeepsEntered(s, t, e.key, e.victim);
      }
    } else if t in s.tasks {
      match e
      case Starts(_) =>
      case Shares(_) =>
      case Completes(_, bytes, victims) => if s.tasks[t].Loading? { LoadKeepsEntered(s, t, bytes, victims); }
      case Errs(_) =>
      case Returns(_, keep) => if s.tasks[t].Loaded? { FinishKeepsEntered(s, t, keep); }
      case Reports(_) => if s.tasks[t].Failed? { GiveUpKeepsEntered(s, t); }
      case Drops(_) => if s.tasks[t].Holding? { LeaveKeepsEntered(s, t); }
      case Cancels(_) => if !s.tasks[t].Holding? { LeaveKeepsEntered(s, t); }
    }
  }

  /** No reported failure takes an entry away. */
  ghost predicate NoEntryDropped(config: Config, events: seq<Event>) {
    !config.dropsFailures || forall i :: 0 <= i < |events| ==> !events[i].Reports?
  }

  lemma {:induction false} EnteredOverRuns(config: Config, events: seq<Event>)
    requires NoEntryDropped(config, events)
    ensures Entered(After(Empty(config), events))
    decreases |events|
  {
    if events != [] {
      var init := events[..|events| - 1];
      EnteredOverRuns(config, init);
      CacheOverRuns(config, init);
      hide Step, Valid, Entered;
      StepKeepsEntered(After(Empty(config), init), events[|events| - 1]);
    }
  }

  /** Over every interleaving, of several loads of one key at most one holds the cell that
      is entered under it. */
  lemma OneOwnerPerKey(config: Config, events: seq<Event>, t: Task, u: Task)
    requires var s := After(Empty(config), events);
             && IsLoading(s, t) && IsLoading(s, u) && s.tasks[t].key == s.tasks[u].key
             && OwnsEntry(s, s.tasks[t].key, s.tasks[t].cell) && OwnsEntry(s, s.tasks[u].key, s.tasks[u].cell)
    ensures t == u
  {
    SingleFlightOverRuns(config, events);
  }

  /** A key is loaded once at a time in the block cache, and in the response cache as long as
      no reported failure drops an entry. */
  lemma KeySingleFlightOverRuns(config: Config, events: seq<Event>)
    requires NoEntryDropped(config, events)
    ensures OneLoadPerKey(After(Empty(config), events))
  {
    EnteredOverRuns(config, events);
    SingleFlightOverRuns(config, events);
    hide After, Valid, Keyed;
  }

  /** Once a reported failure has dropped the entry, a task that still waits on the dropped
      cell and one that looks the key up anew load it at the same time. */
  lemma TwoLoadsOfOneKeyExample()
    ensures var s := After(Empty(RESPONSES), [Look(0, 7, 0), Starts(0), Look(1, 7, 0), Errs(0), Starts(1), Reports(0),
                                              Look(2, 7, 0), Starts(2)]);
            IsLoading(s, 1) && IsLoading(s, 2) && s.tasks[1].key == 7 && s.tasks[2].key == 7
  {
    FailsWhileShared();
    LoadsBehind();
    LoadsAnew();
    hide Step, After;
    AfterEight(Empty(RESPONSES), Look(0, 7, 0), Starts(0), Look(1, 7, 0), Errs(0), Starts(1), Reports(0), Look(2, 7, 0), Starts(2));
  }

  lemma AfterEight(s: State, e1: Event, e2: Event, e3: Event, e4: Event, e5: Event, e6: Event, e7: Event, e8: Event)
    ensures After(s, [e1, e2, e3, e4, e5, e6, e7, e8]) ==
            Step(Step(Step(Step(Step(Step(Step(Step(s, e1), e2), e3), e4), e5), e6), e7), e8)
  {
    hide Step, After;
    assert [e1, e2, e3, e4, e5, e6, e7, e8] == [e1, e2, e3, e4] + [e5, e6, e7, e8];
    AfterMore(s, [e1, e2, e3, e4], [e5, e6, e7, e8]);
    AfterFour(s, e1, e2, e3, e4);
    AfterFour(After(s, [e1, e2, e3, e4]), e5, e6, e7, e8);
  }

  /** The first load of a key fails while a second task waits for it. */
  lemma FailsWhileShared()
    ensures Step(Step(Step(Step(Empty(RESPONSES), Look(0, 7, 0)), Starts(0)), Look(1, 7, 0)), Errs(0)) ==
            State(RESPONSES, map[7 := 0], map[], map[], map[0 := Failed(7, 0), 1 := Waiting(7, 0)], map[], 0, 0, 1)
  {
    assert Retain(Empty(RESPONSES)) == Empty(RESPONSES);
    var s1 := Step(Empty(RESPONSES), Look(0, 7, 0));
    assert s1 == State(RESPONSES, map[7 := 0], map[], map[], map[0 := Waiting(7, 0)], map[], 0, 0, 1);
    var s2 := Step(s1, Starts(0));
    assert s2 == s1.(tasks := map[0 := Loading(7, 0)]);
    assert Retain(s2) == s2;
    var s3 := Step(s2, Look(1, 7, 0));
    assert s3 == s2.(tasks := map[0 := Loading(7, 0), 1 := Waiting(7, 0)]);
  }

  /** The waiting task loads, and the reported failure drops the entry. */
  lemma LoadsBehind()
    ensures var s := State(RESPONSES, map[7 := 0], map[], map[], map[0 := Failed(7, 0), 1 := Waiting(7, 0)], map[], 0, 0, 1);
            Step(Step(s, Starts(1)), Reports(0)) == State(RESPONSES, map[], map[], map[], map[1 := Loading(7, 0)], map[], 0, 0, 1)
  {
    var s := State(RESPONSES, map[7 := 0], map[], map[], map[0 := Failed(7, 0), 1 := Waiting(7, 0)], map[], 0, 0, 1);
    var t := Step(s, Starts(1));
    assert t == s.(tasks := map[0 := Failed(7, 0), 1 := Loading(7, 0)]);
    var dropped := t.(cells := t.cells - {7});
    assert dropped.cells == map[] && dropped.tasks - {0} == map[1 := Loading(7, 0)];
    assert GiveUp(t, 0) == Leave(dropped, 0);
  }

  /** A third task looks the key up and loads it anew. */
  lemma LoadsAnew()
    ensures var s := State(RESPONSES, map[], map[], map[], map[1 := Loading(7, 0)], map[], 0, 0, 1);
            Step(Step(s, Look(2, 7, 0)), Starts(2)).tasks == map[1 := Loading(7, 0), 2 := Loading(7, 1)]
  {
    var s := State(RESPONSES, map[], map[], map[], map[1 := Loading(7, 0)], map[], 0, 0, 1);
    assert Retain(s) == s;
    var t := Step(s, Look(2, 7, 0));
    assert t == State(RESPONSES, map[7 := 1], map[], map[], map[1 := Loading(7, 0), 2 := Waiting(7, 1)], map[], 0, 0, 2);
    assert !BeingLoaded(t, 1);
  }

  lemma {:induction false} AfterMore(s: State, xs: seq<Event>, ys: seq<Event>)
    ensures After(s, xs + ys) == After(After(s, xs), ys)
    decreases |ys|
  {
    hide Step;
    if ys == [] {
      assert xs + ys == xs;
    } else {
      assert (xs + ys)[..|xs + ys| - 1] == xs + ys[..|ys| - 1];
      AfterMore(s, xs, ys[..|ys| - 1]);
    }
  }
}
