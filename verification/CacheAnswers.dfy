/** What the caches are for: what a task gets from each step, and that a loaded value is
    served again until something takes its entry away. */
module CacheAnswers {
  import opened Prelude
  import opened Caches
  import opened SingleFlight

  // ---------------------------------------------------------------- what a task gets

  /** Keys of values too large to keep that somebody still holds. */
  function Live(s: State): set<Key> {
    set k | k in s.uncached && s.uncached[k] in s.charges
  }

  lemma RetainFrame(s: State)
    ensures var r := Retain(s);
            && r == s.(uncached := r.uncached) && r.uncached.Keys == Live(s) && |r.uncached| == |Live(s)|
            && (forall k :: k in Live(s) ==> r.uncached[k] == s.uncached[k])
            && (forall k :: Removable(r, k) <==> Removable(s, k))
  {
    var r := Retain(s);
    assert |r.uncached| == |r.uncached.Keys|;
    SameTasksSameFlight(s, r);
    hide InFlight;
  }

  lemma SameTasksSameFlight(s: State, r: State)
    requires r.tasks == s.tasks
    ensures forall c :: InFlight(s, c) <==> InFlight(r, c)
  {
  }

  /** A new cell for a key without one, where there is room or an entry to remove. */
  ghost predicate MissAnswer(s: State, r: State, t: Task, key: Key, victim: Key) {
    var room := |s.cells| + |Live(s)| < s.config.entries;
    && (t in r.tasks <==> room || Removable(s, victim))
    && (t in r.tasks ==> r.tasks[t] == Waiting(key, s.next))
    && r.cells == (if room then s.cells[key := s.next]
                   else if Removable(s, victim) then (s.cells - {victim})[key := s.next] else s.cells)
  }

  /** A lookup answers with a value too large to keep while somebody holds it, else with the
      cell of the key, else with a new empty cell if there is room or an entry to remove, and
      is refused otherwise. */
  lemma LookAnswers(s: State, t: Task, key: Key, victim: Key)
    requires t !in s.tasks
    ensures var r := Step(s, Look(t, key, victim));
            && (key in Live(s) ==> t in r.tasks && r.tasks[t] == Holding(s.uncached[key]) && r.cells == s.cells)
            && (key !in Live(s) && key in s.cells ==>
                  t in r.tasks && r.tasks[t] == Waiting(key, s.cells[key]) && r.cells == s.cells)
            && (key !in Live(s) && key !in s.cells ==> MissAnswer(s, r, t, key, victim))
            && (forall u :: u in s.tasks ==> u in r.tasks && r.tasks[u] == s.tasks[u])
            && r.contents == s.contents
  {
    RetainFrame(s);
    hide Retain, Live, Removable, Remove, Insert, MissAnswer;
    if key !in Live(s) && key !in s.cells {
      LookMisses(s, t, key, victim);
      hide Lookup;
    }
  }

  lemma InsertFrame(s: State, t: Task, key: Key)
    ensures var r := Insert(s, t, key);
            r.tasks == s.tasks[t := Waiting(key, s.next)] && r.cells == s.cells[key := s.next] && r.contents == s.contents
  {
  }

  lemma LookMisses(s: State, t: Task, key: Key, victim: Key)
    requires t !in s.tasks && key !in Live(s) && key !in s.cells
    ensures var r := Lookup(s, t, key, victim);
            && MissAnswer(s, r, t, key, victim) && r.contents == s.contents
            && (forall u :: u in s.tasks ==> u in r.tasks && r.tasks[u] == s.tasks[u])
  {
    RetainFrame(s);
    hide Retain, Live, Removable, Remove, Insert;
    var r := Retain(s);
    InsertFrame(r, t, key);
    if Removable(r, victim) {
      assert victim in r.cells by { RemovableIsEntry(r, victim); }
      RemoveFrame(r, victim);
      InsertFrame(Remove(r, victim), t, key);
    }
  }

  lemma LookupWeak(s: State, t: Task, key: Key, victim: Key)
    requires t !in s.tasks
    ensures var r := Lookup(s, t, key, victim);
            && r.uncached == Retain(s).uncached
            && (forall v :: v in r.charges ==> v in s.charges)
            && (forall k :: k in r.cells ==> k in s.cells || (k == key && k !in r.uncached))
  {
    RetainFrame(s);
    hide Retain, Live, Removable, Remove;
    var r := Retain(s);
    if key !in r.uncached && key !in r.cells {
      if Removable(r, victim) {
        assert victim in r.cells by { RemovableIsEntry(r, victim); }
        RemoveFrame(r, victim);
      }
    }
  }

  /** A waiting task becomes the loader exactly when the cell is empty and nobody loads it,
      and gets the value exactly when the cell is filled. */
  lemma WaitAnswers(s: State, t: Task)
    requires t in s.tasks && s.tasks[t].Waiting?
    ensures var p := s.tasks[t];
            && Step(s, Starts(t)) == s.(tasks := s.tasks[t := if p.cell !in s.contents && !BeingLoaded(s, p.cell)
                                                              then Loading(p.key, p.cell) else p])
            && Step(s, Shares(t)) == s.(tasks := s.tasks[t := if p.cell in s.contents
                                                              then Loaded(p.key, p.cell, s.contents[p.cell]) else p])
  {
    assert s.tasks[t := s.tasks[t]] == s.tasks;
    hide BeingLoaded;
  }

  /** A finished request fills the cell with a charge of its size, kept or oversized, exactly
      when the bytes fit; a request that does not fit fails. */
  lemma LoadAnswers(s: State, t: Task, bytes: nat, victims: seq<Key>)
    requires t in s.tasks && s.tasks[t].Loading? && s.tasks[t].cell !in s.contents
    ensures var p, r := s.tasks[t], Step(s, Completes(t, bytes, victims));
            var room := MakeRoomFor(s, bytes, victims);
            var fits := if bytes > s.config.keptBytes then s.oversizedUsed + bytes <= s.config.oversizedBytes
                        else room.keptUsed + bytes <= s.config.keptBytes;
            && t in r.tasks
            && (fits ==>
                  && r.tasks[t] == Loaded(p.key, p.cell, s.next) && p.cell in r.contents && r.contents[p.cell] == s.next
                  && s.next in r.charges
                  && r.charges[s.next] == Charge(if bytes > s.config.keptBytes then Oversized else Kept, bytes))
            && (!fits ==> r.tasks[t] == Failed(p.key, p.cell) && r.contents == s.contents)
  {
    RoomFrame(s, bytes, victims);
    hide MakeRoomFor;
  }

  lemma {:induction false} RoomFrame(s: State, bytes: nat, victims: seq<Key>)
    ensures var r := MakeRoomFor(s, bytes, victims);
            r.tasks == s.tasks && r.contents == s.contents && r.next == s.next && r.config == s.config
    decreases |victims|
  {
    hide Remove;
    if victims != [] && s.keptUsed + bytes > s.config.keptBytes && Removable(s, victims[0]) {
      RemoveFrame(s, victims[0]);
      RoomFrame(Remove(s, victims[0]), bytes, victims[1..]);
    }
  }

  /** Errors, reports, cancellations and drops: who is still there afterwards, and as what. */
  lemma EndAnswers(s: State, t: Task)
    requires t in s.tasks
    ensures s.tasks[t].Loading? ==> Step(s, Errs(t)) == s.(tasks := s.tasks[t := Failed(s.tasks[t].key, s.tasks[t].cell)])
    ensures s.tasks[t].Failed? ==> Step(s, Reports(t)).tasks == s.tasks - {t}
    ensures s.tasks[t].Holding? ==> Step(s, Drops(t)).tasks == s.tasks - {t} && Step(s, Drops(t)).cells == s.cells
    ensures !s.tasks[t].Holding? ==> Step(s, Cancels(t)).tasks == s.tasks - {t} && Step(s, Cancels(t)).cells == s.cells
    ensures forall keep :: s.tasks[t].Loaded? ==> Step(s, Returns(t, keep)).tasks == s.tasks[t := Holding(s.tasks[t].value)]
  {
    LeaveFrame(s, t);
    if s.tasks[t].Failed? { GiveUpFrame(s, t); }
    hide Leave, GiveUp;
  }

  /** A returned value keeps its entry exactly when it is kept and not too large; one that is
      kept and too large is remembered weakly; all other entries stay. */
  lemma ReturnAnswers(s: State, t: Task, keep: bool)
    requires t in s.tasks && s.tasks[t].Loaded?
    ensures var p, r := s.tasks[t], Step(s, Returns(t, keep));
            var large := p.value in s.charges && s.charges[p.value].kind.Oversized?;
            var owns := OwnsEntry(s, p.key, p.cell);
            && r.cells == (if owns && (!keep || large) then s.cells - {p.key} else s.cells)
            && r.uncached == (if owns && keep && large then s.uncached[p.key := p.value] else s.uncached)
            && r.contents == s.contents && r.charges == s.charges && r.next == s.next
            && r.tasks == s.tasks[t := Holding(p.value)]
  {
  }

  /** A value that is not kept, an absence among them, is forgotten: the next lookup of its key
      gets a new empty cell or none. */
  lemma UnkeptValueIsForgotten(config: Config, events: seq<Event>, t: Task, u: Task, victim: Key)
    requires var s := After(Empty(config), events);
             t in s.tasks && s.tasks[t].Loaded? && OwnsEntry(s, s.tasks[t].key, s.tasks[t].cell) && u !in s.tasks
    ensures var s := After(Empty(config), events);
            var p := s.tasks[t];
            var r := Step(Step(s, Returns(t, false)), Look(u, p.key, victim));
            u in r.tasks ==> r.tasks[u].Waiting? && r.tasks[u].cell !in r.contents && r.tasks[u].cell != p.cell
  {
    var s := After(Empty(config), events);
    CacheOverRuns(config, events);
    ValidIsKnown(s);
    ApartOverRuns(config, events);
    var p := s.tasks[t];
    assert s.next !in s.contents && p.cell < s.next && p.key !in Live(s);
    hide After, Valid, Known, Apart;
    ReturnAnswers(s, t, false);
    var r := Step(s, Returns(t, false));
    hide Step, Removable;
    assert Live(r) == Live(s);
    LookAnswers(r, u, p.key, victim);
    hide Live;
  }

  // ---------------------------------------------------------------- entries stay

  /** The step may take the entry of this key away: to make room for others, because its
      value is not kept or too large, or because its load failed. */
  ghost predicate MayRemove(s: State, e: Event, k: Key)
    requires k in s.cells
  {
    var t := e.task;
    match e
    case Look(_, key, victim) => t !in s.tasks && key != k && victim == k && Removable(s, k)
    case Completes(_, bytes, victims) => IsLoading(s, t) && k in victims && Removable(s, k)
    case Returns(_, keep) =>
      && t in s.tasks && s.tasks[t].Loaded? && s.tasks[t].key == k && s.tasks[t].cell == s.cells[k]
      && (keep ==> s.tasks[t].value in s.charges && s.charges[s.tasks[t].value].kind.Oversized?)
    case Reports(_) =>
      && s.config.dropsFailures && t in s.tasks && s.tasks[t].Failed? && s.tasks[t].key == k && s.tasks[t].cell == s.cells[k]
    case _ => false
  }

  lemma {:induction false} RoomTakesVictims(s: State, bytes: nat, victims: seq<Key>, k: Key)
    requires k in s.cells && !(k in victims && Removable(s, k))
    ensures var r := MakeRoomFor(s, bytes, victims); k in r.cells && r.cells[k] == s.cells[k]
    decreases |victims|
  {
    hide Remove, InFlight;
    if victims != [] && s.keptUsed + bytes > s.config.keptBytes && Removable(s, victims[0]) {
      var r := Remove(s, victims[0]);
      RemoveFrame(s, victims[0]);
      assert forall c :: InFlight(s, c) <==> InFlight(r, c) by { SameTasksSameFlight(s, r); }
      assert forall j :: j in victims[1..] ==> j in victims;
      RoomTakesVictims(r, bytes, victims[1..], k);
    }
  }

  lemma LoadKeepsEntry(s: State, t: Task, bytes: nat, victims: seq<Key>, k: Key)
    requires t in s.tasks && s.tasks[t].Loading? && k in s.cells && !(k in victims && Removable(s, k))
    ensures var r := Load(s, t, bytes, victims); k in r.cells && r.cells[k] == s.cells[k]
  {
    RoomTakesVictims(s, bytes, victims, k);
    hide MakeRoomFor, Removable;
  }

  /** An entry leaves the map only in one of those ways. */
  lemma EntryStays(s: State, e: Event, k: Key)
    requires k in s.cells && !MayRemove(s, e, k)
    ensures k in Step(s, e).cells && Step(s, e).cells[k] == s.cells[k]
  {
    hide Lookup, Load, Leave, GiveUp, Removable;
    var t := e.task;
    match e
    case Look(_, key, victim) => if t !in s.tasks { LookAnswers(s, t, key, victim); }
    case Completes(_, bytes, victims) => if IsLoading(s, t) { LoadKeepsEntry(s, t, bytes, victims, k); }
    case Reports(_) => if t in s.tasks && s.tasks[t].Failed? { GiveUpFrame(s, t); }
    case Drops(_) => if t in s.tasks { LeaveFrame(s, t); }
    case Cancels(_) => if t in s.tasks { LeaveFrame(s, t); }
    case Starts(_) =>
    case Shares(_) =>
    case Errs(_) =>
    case Returns(_, _) =>
  }

  /** A filled cell keeps its value. */
  lemma ContentStays(s: State, e: Event, c: Ref)
    requires c in s.contents
    ensures c in Step(s, e).contents && Step(s, e).contents[c] == s.contents[c]
  {
    hide Lookup, Load, Leave, GiveUp;
    var t := e.task;
    match e
    case Look(_, key, victim) => if t !in s.tasks { LookAnswers(s, t, key, victim); }
    case Completes(_, bytes, victims) => if IsLoading(s, t) { LoadKeepsContent(s, t, bytes, victims, c); }
    case Reports(_) => if t in s.tasks && s.tasks[t].Failed? { GiveUpFrame(s, t); }
    case Drops(_) => if t in s.tasks { LeaveFrame(s, t); }
    case Cancels(_) => if t in s.tasks { LeaveFrame(s, t); }
    case Starts(_) =>
    case Shares(_) =>
    case Errs(_) =>
    case Returns(_, _) =>
  }

  lemma LoadKeepsContent(s: State, t: Task, bytes: nat, victims: seq<Key>, c: Ref)
    requires t in s.tasks && s.tasks[t].Loading? && c in s.contents
    ensures c in Load(s, t, bytes, victims).contents && Load(s, t, bytes, victims).contents[c] == s.contents[c]
  {
    RoomFrame(s, bytes, victims);
    hide MakeRoomFor;
  }

  /** No step of the run takes the entry away. */
  ghost predicate NeverRemoved(s: State, events: seq<Event>, k: Key)
    requires k in s.cells
  {
    forall i :: 0 <= i < |events| ==>
      var r := After(s, events[..i]); k in r.cells ==> !MayRemove(r, events[i], k)
  }

  lemma {:induction false} EntryStaysOverRuns(s: State, events: seq<Event>, k: Key)
    requires k in s.cells && NeverRemoved(s, events, k)
    ensures var r := After(s, events);
            && k in r.cells && r.cells[k] == s.cells[k]
            && (s.cells[k] in s.contents ==> s.cells[k] in r.contents && r.contents[s.cells[k]] == s.contents[s.cells[k]])
    decreases |events|
  {
    hide Step, MayRemove;
    if events != [] {
      var init, e := events[..|events| - 1], events[|events| - 1];
      assert forall i :: 0 <= i < |init| ==> events[..i] == init[..i];
      EntryStaysOverRuns(s, init, k);
      EntryStays(After(s, init), e, k);
      if s.cells[k] in s.contents { ContentStays(After(s, init), e, s.cells[k]); }
    }
  }

  // ---------------------------------------------------------------- oversized values

  /** A key with a cell has no live value too large to keep. */
  ghost predicate Apart(s: State) {
    forall k :: k in s.cells && k in s.uncached ==> s.uncached[k] !in s.charges
  }

  /** Nothing forgotten comes back: old values are charged only if they were. */
  ghost predicate NoneRevived(s: State, r: State) {
    && (forall k :: k in r.uncached ==> k in s.uncached && r.uncached[k] == s.uncached[k])
    && (forall v :: v in r.charges && v < s.next ==> v in s.charges)
    && (forall k :: k in r.cells ==> k in s.cells)
  }

  lemma ApartLater(s: State, r: State)
    requires Apart(s) && Known(s) && NoneRevived(s, r)
    ensures Apart(r)
  {
  }

  lemma LookKeepsApart(s: State, t: Task, key: Key, victim: Key)
    requires Apart(s) && t !in s.tasks
    ensures Apart(Lookup(s, t, key, victim))
  {
    RetainFrame(s);
    LookupWeak(s, t, key, victim);
    hide Lookup, Retain;
  }

  lemma LoadKeepsApart(s: State, t: Task, bytes: nat, victims: seq<Key>)
    requires Apart(s) && Known(s) && t in s.tasks && s.tasks[t].Loading?
    ensures Apart(Load(s, t, bytes, victims))
  {
    RoomRevivesNone(s, bytes, victims);
    RoomFrame(s, bytes, victims);
    var r := MakeRoomFor(s, bytes, victims);
    assert NoneRevived(s, s);
    hide MakeRoomFor, Apart, Known;
    FillRevivesNone(s, s, t, Charge(Oversized, bytes));
    FillRevivesNone(s, r, t, Charge(Kept, bytes));
    hide Fill, Fail, NoneRevived;
    ApartLater(s, Load(s, t, bytes, victims));
  }

  lemma FillRevivesNone(s: State, r: State, t: Task, charge: Charge)
    requires NoneRevived(s, r) && r.next == s.next && t in r.tasks && r.tasks[t].Loading?
    ensures NoneRevived(s, Fill(r, t, charge)) && NoneRevived(s, Fail(r, t))
  {
  }

  lemma {:induction false} RoomRevivesNone(s: State, bytes: nat, victims: seq<Key>)
    ensures NoneRevived(s, MakeRoomFor(s, bytes, victims))
    decreases |victims|
  {
    hide Remove;
    if victims != [] && s.keptUsed + bytes > s.config.keptBytes && Removable(s, victims[0]) {
      RemoveFrame(s, victims[0]);
      RoomRevivesNone(Remove(s, victims[0]), bytes, victims[1..]);
    }
  }

  lemma EndKeepsApart(s: State, t: Task)
    requires Apart(s) && Known(s) && t in s.tasks
    ensures Apart(Leave(s, t)) && (s.tasks[t].Failed? ==> Apart(GiveUp(s, t)))
  {
    var p := s.tasks[t];
    LeaveFrame(s, t);
    if p.Failed? { LeaveFrame(s.(cells := s.cells - {p.key}), t); }
    hide Leave;
  }

  lemma StepKeepsApart(s: State, e: Event)
    requires Valid(s) && Apart(s)
    ensures Apart(Step(s, e))
  {
    ValidIsKnown(s);
    hide Valid, Known, Lookup, Load, Leave, GiveUp;
    var t := e.task;
    match e
    case Look(_, key, victim) => if t !in s.tasks { LookKeepsApart(s, t, key, victim); }
    case Completes(_, bytes, victims) => if IsLoading(s, t) { LoadKeepsApart(s, t, bytes, victims); }
    case Reports(_) => if t in s.tasks { EndKeepsApart(s, t); }
    case Drops(_) => if t in s.tasks { EndKeepsApart(s, t); }
    case Cancels(_) => if t in s.tasks { EndKeepsApart(s, t); }
    case Starts(_) =>
    case Shares(_) =>
    case Errs(_) =>
    case Returns(_, _) =>
  }

  lemma {:induction false} ApartOverRuns(config: Config, events: seq<Event>)
    ensures Apart(After(Empty(config), events))
    decreases |events|
  {
    if events != [] {
      var init := events[..|events| - 1];
      ApartOverRuns(config, init);
      CacheOverRuns(config, init);
      hide Step, Valid, Apart;
      StepKeepsApart(After(Empty(config), init), events[|events| - 1]);
    }
  }

  // ---------------------------------------------------------------- values are served again

  /** Over every run: a value that was loaded and kept is what every later lookup of its key
      gets, until some step takes its entry away. */
  lemma KeptValueIsServed(config: Config, events: seq<Event>, later: seq<Event>, k: Key, u: Task, victim: Key)
    requires var s := After(Empty(config), events); k in s.cells && s.cells[k] in s.contents && NeverRemoved(s, later, k)
    requires u !in After(After(Empty(config), events), later).tasks
    ensures var s := After(Empty(config), events);
            var r := Step(Step(After(s, later), Look(u, k, victim)), Shares(u));
            u in r.tasks && r.tasks[u] == Loaded(k, s.cells[k], s.contents[s.cells[k]])
  {
    var s := After(Empty(config), events);
    var r := After(s, later);
    EntryStaysOverRuns(s, later, k);
    AfterMore(Empty(config), events, later);
    ApartOverRuns(config, events + later);
    hide After, NeverRemoved;
    LookAnswers(r, u, k, victim);
    WaitAnswers(Step(r, Look(u, k, victim)), u);
    hide Step;
  }

  /** Returning a kept value leaves its entry, and so serves it to the next lookup. */
  lemma ReturnedValueIsServed(config: Config, events: seq<Event>, t: Task, u: Task, victim: Key)
    requires var s := After(Empty(config), events);
             && t in s.tasks && s.tasks[t].Loaded? && OwnsEntry(s, s.tasks[t].key, s.tasks[t].cell) && u !in s.tasks
             && s.tasks[t].value in s.charges && s.charges[s.tasks[t].value].kind.Kept?
    ensures var s := After(Empty(config), events);
            var p := s.tasks[t];
            var r := Step(Step(Step(s, Returns(t, true)), Look(u, p.key, victim)), Shares(u));
            u in r.tasks && r.tasks[u] == Loaded(p.key, p.cell, p.value)
  {
    var s := After(Empty(config), events);
    var p := s.tasks[t];
    CacheOverRuns(config, events);
    ValidIsKnown(s);
    EndAnswers(s, t);
    var e := Returns(t, true);
    assert [e][..0] == [];
    assert After(s, [e]) == Step(After(s, []), e);
    assert NeverRemoved(s, [e], p.key);
    hide Step, Valid;
    KeptValueIsServed(config, events, [e], p.key, u, victim);
  }

  /** A value too large to keep is handed to every later lookup of its key for as long as it
      is charged, which is as long as somebody holds it. */
  lemma OversizedValueIsServed(s: State, t: Task, u: Task, victim: Key)
    requires Valid(s) && t in s.tasks && s.tasks[t].Loaded? && OwnsEntry(s, s.tasks[t].key, s.tasks[t].cell) && u !in s.tasks
    requires s.tasks[t].value in s.charges && s.charges[s.tasks[t].value].kind.Oversized?
    ensures var p, r := s.tasks[t], Step(s, Returns(t, true));
            && p.key !in r.cells && p.key in r.uncached && r.uncached[p.key] == p.value
            && u in Step(r, Look(u, p.key, victim)).tasks && Step(r, Look(u, p.key, victim)).tasks[u] == Holding(p.value)
  {
    hide Valid;
    LookAnswers(Step(s, Returns(t, true)), u, s.tasks[t].key, victim);
  }

  /** Its weak reference stays while the value is charged and no other one replaces it. */
  lemma WeakReferenceStays(s: State, e: Event, k: Key)
    requires Valid(s) && k in s.uncached && s.uncached[k] in Step(s, e).charges
    requires !(e.Returns? && e.task in s.tasks && s.tasks[e.task].Loaded? && s.tasks[e.task].key == k)
    ensures k in Step(s, e).uncached && Step(s, e).uncached[k] == s.uncached[k]
  {
    ValidIsKnown(s);
    hide Valid, Lookup, Load, Leave, GiveUp;
    var t := e.task;
    match e
    case Look(_, key, victim) => if t !in s.tasks { LookKeepsWeak(s, t, key, victim, k); }
    case Completes(_, bytes, victims) => if IsLoading(s, t) { LoadKeepsWeak(s, t, bytes, victims); }
    case Reports(_) => if t in s.tasks && s.tasks[t].Failed? { EndKeepsWeak(s, t); }
    case Drops(_) => if t in s.tasks { LeaveFrame(s, t); }
    case Cancels(_) => if t in s.tasks { LeaveFrame(s, t); }
    case Starts(_) =>
    case Shares(_) =>
    case Errs(_) =>
    case Returns(_, _) =>
  }

  lemma LookKeepsWeak(s: State, t: Task, key: Key, victim: Key, k: Key)
    requires t !in s.tasks && k in s.uncached && s.uncached[k] in Lookup(s, t, key, victim).charges
    ensures var r := Lookup(s, t, key, victim); k in r.uncached && r.uncached[k] == s.uncached[k]
  {
    LookupWeak(s, t, key, victim);
    hide Lookup;
  }

  lemma LoadKeepsWeak(s: State, t: Task, bytes: nat, victims: seq<Key>)
    requires t in s.tasks && s.tasks[t].Loading?
    ensures Load(s, t, bytes, victims).uncached == s.uncached
  {
    RoomKeepsWeak(s, bytes, victims);
    hide MakeRoomFor;
  }

  lemma {:induction false} RoomKeepsWeak(s: State, bytes: nat, victims: seq<Key>)
    ensures MakeRoomFor(s, bytes, victims).uncached == s.uncached
    decreases |victims|
  {
    hide Remove;
    if victims != [] && s.keptUsed + bytes > s.config.keptBytes && Removable(s, victims[0]) {
      RemoveFrame(s, victims[0]);
      RoomKeepsWeak(Remove(s, victims[0]), bytes, victims[1..]);
    }
  }

  lemma EndKeepsWeak(s: State, t: Task)
    requires t in s.tasks && s.tasks[t].Failed?
    ensures GiveUp(s, t).uncached == s.uncached
  {
    LeaveFrame(s, t);
    LeaveFrame(s.(cells := s.cells - {s.tasks[t].key}), t);
    hide Leave;
  }
}
