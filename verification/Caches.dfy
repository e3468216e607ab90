/** The bounded single-flight caches in front of the node: cells shared by concurrent
    loads, weak references to payloads too large to keep, and the payload charges that
    live exactly as long as the values they pay for. */
module Caches {
  import opened Prelude

  type Key = nat
  type Task = nat

  /** Identities of cells and values, handed out once. */
  type Ref = nat

  /** Retained in the cache, or too large for it. */
  datatype Kind = Kept | Oversized

  datatype Charge = Charge(kind: Kind, bytes: nat)

  /** Capacity of one cache; the response cache drops the entry of a failed load. */
  datatype Config = Config(entries: nat, keptBytes: nat, oversizedBytes: nat, dropsFailures: bool)

  const RESPONSES := Config(128, 12 * 1024 * 1024, 64 * 1024 * 1024, true)
  const BLOCKS := Config(64, 4 * 1024 * 1024, 64 * 1024 * 1024, false)

  /** A task holds a cell while it waits for it or loads it, then the value. */
  datatype Phase =
    | Waiting(key: Key, cell: Ref)
    | Loading(key: Key, cell: Ref)
    | Loaded(key: Key, cell: Ref, value: Ref)
    | Failed(key: Key, cell: Ref)
    | Holding(value: Ref)

  datatype State = State(
    config: Config,
    cells: map<Key, Ref>,
    contents: map<Ref, Ref>,
    uncached: map<Key, Ref>,
    tasks: map<Task, Phase>,
    charges: map<Ref, Charge>,
    keptUsed: int,
    oversizedUsed: int,
    next: nat)

  function Empty(config: Config): State {
    State(config, map[], map[], map[], map[], map[], 0, 0, 0)
  }

  // ---------------------------------------------------------------- references

  predicate HoldsCell(p: Phase, c: Ref) {
    !p.Holding? && p.cell == c
  }

  predicate HoldsValue(p: Phase, v: Ref) {
    (p.Loaded? || p.Holding?) && p.value == v
  }

  /** Some task has a clone of the cell: its strong count exceeds the map's own. */
  predicate InFlight(s: State, c: Ref) {
    exists t :: t in s.tasks && HoldsCell(s.tasks[t], c)
  }

  predicate Alive(s: State, c: Ref) {
    InFlight(s, c) || exists k :: k in s.cells && s.cells[k] == c
  }

  /** A strong reference to the value exists. */
  predicate Referenced(s: State, v: Ref) {
    || (exists t :: t in s.tasks && HoldsValue(s.tasks[t], v))
    || (exists c :: c in s.contents && s.contents[c] == v && Alive(s, c))
  }

  /** The last reference to a value returns its charge. */
  function Free(s: State, v: Ref): State {
    if v in s.charges && !Referenced(s, v) then
      var charge := s.charges[v];
      s.(charges := s.charges - {v},
         keptUsed := s.keptUsed - (if charge.kind.Kept? then charge.bytes else 0),
         oversizedUsed := s.oversizedUsed - (if charge.kind.Oversized? then charge.bytes else 0))
    else s
  }

  function FreeContent(s: State, c: Ref): State {
    if c in s.contents then Free(s, s.contents[c]) else s
  }

  // ---------------------------------------------------------------- steps

  predicate Removable(s: State, k: Key) {
    k in s.cells && !InFlight(s, s.cells[k])
  }

  function Remove(s: State, k: Key): State {
    if k in s.cells then FreeContent(s.(cells := s.cells - {k}), s.cells[k]) else s
  }

  /** Forget weak references whose value is gone. */
  function Retain(s: State): State {
    s.(uncached := map k | k in s.uncached && s.uncached[k] in s.charges :: s.uncached[k])
  }

  function Join(s: State, t: Task, key: Key): State
    requires key in s.cells
  {
    s.(tasks := s.tasks[t := Waiting(key, s.cells[key])])
  }

  function Insert(s: State, t: Task, key: Key): State {
    s.(cells := s.cells[key := s.next], tasks := s.tasks[t := Waiting(key, s.next)], next := s.next + 1)
  }

  /** Find a value or a cell, making room for a new cell by removing one that nobody holds. */
  function Lookup(s: State, t: Task, key: Key, victim: Key): State {
    var r := Retain(s);
    if key in r.uncached then r.(tasks := r.tasks[t := Holding(r.uncached[key])])
    else if key in r.cells then Join(r, t, key)
    else if |r.cells| < r.config.entries - |r.uncached| then Insert(r, t, key)
    else if Removable(r, victim) then Insert(Remove(r, victim), t, key)
    else r
  }

  /** Store a loaded value and its charge in the cell. */
  function Fill(s: State, t: Task, charge: Charge): State
    requires t in s.tasks && s.tasks[t].Loading?
  {
    var p := s.tasks[t];
    s.(contents := s.contents[p.cell := s.next], charges := s.charges[s.next := charge],
       keptUsed := s.keptUsed + (if charge.kind.Kept? then charge.bytes else 0),
       oversizedUsed := s.oversizedUsed + (if charge.kind.Oversized? then charge.bytes else 0),
       tasks := s.tasks[t := Loaded(p.key, p.cell, s.next)], next := s.next + 1)
  }

  /** Remove cells that nobody holds until the bytes fit or the victims run out. */
  function MakeRoomFor(s: State, bytes: nat, victims: seq<Key>): State
    decreases |victims|
  {
    if victims == [] || s.keptUsed + bytes <= s.config.keptBytes || !Removable(s, victims[0]) then s
    else MakeRoomFor(Remove(s, victims[0]), bytes, victims[1..])
  }

  function Fail(s: State, t: Task): State
    requires t in s.tasks && s.tasks[t].Loading?
  {
    s.(tasks := s.tasks[t := Failed(s.tasks[t].key, s.tasks[t].cell)])
  }

  /** Some task is loading the cell: everybody else waits for it. */
  predicate BeingLoaded(s: State, c: Ref) {
    exists t :: t in s.tasks && s.tasks[t].Loading? && s.tasks[t].cell == c
  }

  /** A waiting task becomes the loader of an empty cell that nobody loads. */
  function Start(s: State, t: Task): State
    requires t in s.tasks && s.tasks[t].Waiting?
  {
    var p := s.tasks[t];
    if p.cell in s.contents || BeingLoaded(s, p.cell) then s
    else s.(tasks := s.tasks[t := Loading(p.key, p.cell)])
  }

  /** A waiting task sees its cell filled. */
  function Share(s: State, t: Task): State
    requires t in s.tasks && s.tasks[t].Waiting?
  {
    var p := s.tasks[t];
    if p.cell in s.contents then s.(tasks := s.tasks[t := Loaded(p.key, p.cell, s.contents[p.cell])]) else s
  }

  /** The loader of a cell finishes its request. */
  function Load(s: State, t: Task, bytes: nat, victims: seq<Key>): State
    requires t in s.tasks && s.tasks[t].Loading?
  {
    if s.tasks[t].cell in s.contents then s
    else if bytes > s.config.keptBytes then
      if s.oversizedUsed + bytes <= s.config.oversizedBytes then Fill(s, t, Charge(Oversized, bytes)) else Fail(s, t)
    else
      var r := MakeRoomFor(s, bytes, victims);
      if t in r.tasks && r.tasks[t].Loading? then
        if r.keptUsed + bytes <= r.config.keptBytes then Fill(r, t, Charge(Kept, bytes)) else Fail(r, t)
      else r
  }

  predicate OwnsEntry(s: State, key: Key, cell: Ref) {
    key in s.cells && s.cells[key] == cell
  }

  /** Hand the value out; an oversized one stays reachable only while somebody holds it,
      and one the caller will not keep leaves the cache. */
  function Finish(s: State, t: Task, keep: bool): State
    requires t in s.tasks && s.tasks[t].Loaded?
  {
    var p := s.tasks[t];
    var done := s.(tasks := s.tasks[t := Holding(p.value)]);
    if !OwnsEntry(s, p.key, p.cell) then done
    else if !keep then done.(cells := done.cells - {p.key})
    else if p.value in s.charges && s.charges[p.value].kind.Oversized? then
      done.(cells := done.cells - {p.key}, uncached := done.uncached[p.key := p.value])
    else done
  }

  function Leave(s: State, t: Task): State
    requires t in s.tasks
  {
    var p := s.tasks[t];
    var gone := s.(tasks := s.tasks - {t});
    if p.Holding? then Free(gone, p.value) else FreeContent(gone, p.cell)
  }

  /** A reported failure removes its entry from the response cache. */
  function GiveUp(s: State, t: Task): State
    requires t in s.tasks && s.tasks[t].Failed?
  {
    var p := s.tasks[t];
    var dropped := if s.config.dropsFailures && OwnsEntry(s, p.key, p.cell) then s.(cells := s.cells - {p.key}) else s;
    Leave(dropped, t)
  }

  datatype Event =
    | Look(task: Task, key: Key, victim: Key)
    | Starts(task: Task)
    | Shares(task: Task)
    | Completes(task: Task, bytes: nat, victims: seq<Key>)
    | Errs(task: Task)
    | Returns(task: Task, keep: bool)
    | Reports(task: Task)
    | Drops(task: Task)
    | Cancels(task: Task)

  /** One critical section of one task. A value is dropped by its holder; everything before
      may be cancelled, also a failed load that still waits for the lock to clean up. */
  function Step(s: State, e: Event): State {
    var t := e.task;
    match e
    case Look(_, key, victim) => if t in s.tasks then s else Lookup(s, t, key, victim)
    case Starts(_) => if t in s.tasks && s.tasks[t].Waiting? then Start(s, t) else s
    case Shares(_) => if t in s.tasks && s.tasks[t].Waiting? then Share(s, t) else s
    case Completes(_, bytes, victims) => if t in s.tasks && s.tasks[t].Loading? then Load(s, t, bytes, victims) else s
    case Errs(_) => if t in s.tasks && s.tasks[t].Loading? then Fail(s, t) else s
    case Returns(_, keep) => if t in s.tasks && s.tasks[t].Loaded? then Finish(s, t, keep) else s
    case Reports(_) => if t in s.tasks && s.tasks[t].Failed? then GiveUp(s, t) else s
    case Drops(_) => if t in s.tasks && s.tasks[t].Holding? then Leave(s, t) else s
    case Cancels(_) => if t in s.tasks && !s.tasks[t].Holding? then Leave(s, t) else s
  }

  function After(s: State, events: seq<Event>): State
    decreases |events|
  {
    if events == [] then s else Step(After(s, events[..|events| - 1]), events[|events| - 1])
  }

  // ---------------------------------------------------------------- charges

  function Part(charge: Charge, kind: Kind): nat {
    if charge.kind == kind then charge.bytes else 0
  }

  ghost function Total(charges: map<Ref, Charge>, kind: Kind): nat
    decreases |charges|
  {
    if charges == map[] then 0
    else
      var v :| v in charges;
      Part(charges[v], kind) + Total(charges - {v}, kind)
  }

  lemma {:induction false} TotalSplit(charges: map<Ref, Charge>, kind: Kind, v: Ref)
    requires v in charges
    ensures Total(charges, kind) == Part(charges[v], kind) + Total(charges - {v}, kind)
    decreases |charges|
  {
    var p :| p in charges && Total(charges, kind) == Part(charges[p], kind) + Total(charges - {p}, kind);
    if p != v {
      TotalSplit(charges - {p}, kind, v);
      TotalSplit(charges - {v}, kind, p);
      assert charges - {p} - {v} == charges - {v} - {p};
    }
  }

  lemma TotalAdd(charges: map<Ref, Charge>, kind: Kind, v: Ref, charge: Charge)
    requires v !in charges
    ensures Total(charges[v := charge], kind) == Total(charges, kind) + Part(charge, kind)
  {
    TotalSplit(charges[v := charge], kind, v);
    assert charges[v := charge] - {v} == charges;
  }

  /** Each counter is the sum of the live charges of its kind, within the kind's limit. */
  ghost predicate Accounted(s: State) {
    && s.keptUsed == Total(s.charges, Kept) <= s.config.keptBytes
    && s.oversizedUsed == Total(s.charges, Oversized) <= s.config.oversizedBytes
  }

  lemma FreeKeepsAccounts(s: State, v: Ref)
    requires Accounted(s)
    ensures Accounted(Free(s, v))
  {
    hide Referenced;
    if v in s.charges {
      TotalSplit(s.charges, Kept, v);
      TotalSplit(s.charges, Oversized, v);
    }
  }

  lemma FillKeepsAccounts(s: State, t: Task, charge: Charge)
    requires t in s.tasks && s.tasks[t].Loading? && Accounted(s) && s.next !in s.charges
    requires charge.kind.Kept? ==> s.keptUsed + charge.bytes <= s.config.keptBytes
    requires charge.kind.Oversized? ==> s.oversizedUsed + charge.bytes <= s.config.oversizedBytes
    ensures Accounted(Fill(s, t, charge))
  {
    TotalAdd(s.charges, Kept, s.next, charge);
    TotalAdd(s.charges, Oversized, s.next, charge);
  }

  // ---------------------------------------------------------------- what every step keeps

  /** Identities are used once. */
  ghost predicate Known(s: State) {
    && (forall k :: k in s.cells ==> s.cells[k] < s.next)
    && (forall c :: c in s.contents ==> c < s.next && s.contents[c] < s.next)
    && (forall k :: k in s.uncached ==> s.uncached[k] < s.next)
    && (forall v :: v in s.charges ==> v < s.next)
    && (forall t :: t in s.tasks ==> (s.tasks[t].Holding? || s.tasks[t].cell < s.next)
                                     && (s.tasks[t].Holding? || s.tasks[t].Loaded? ==> s.tasks[t].value < s.next))
    && (forall t :: t in s.tasks && s.tasks[t].Loaded? ==>
          s.tasks[t].cell in s.contents && s.contents[s.tasks[t].cell] == s.tasks[t].value)
  }

  /** Charges belong to exactly the referenced values, except perhaps for one of them. */
  ghost predicate ChargedBut(s: State, except: Option<Ref>) {
    && (forall v :: Referenced(s, v) ==> v in s.charges)
    && (forall v :: v in s.charges && except != Some(v) ==> Referenced(s, v))
  }

  ghost predicate Bounded(s: State) {
    |s.cells| + |s.uncached| <= s.config.entries
  }

  ghost predicate Valid(s: State) {
    Known(s) && ChargedBut(s, None) && Accounted(s) && Bounded(s)
  }

  lemma FreeSettles(s: State, v: Ref)
    requires ChargedBut(s, Some(v))
    ensures ChargedBut(Free(s, v), None)
  {
    var f := Free(s, v);
    assert f.tasks == s.tasks && f.cells == s.cells && f.contents == s.contents;
    forall x ensures Referenced(f, x) <==> Referenced(s, x) {
      SameReferences(s, f, x);
    }
  }

  lemma SameReferences(s: State, t: State, v: Ref)
    requires t.tasks == s.tasks && t.cells == s.cells && t.contents == s.contents
    ensures Referenced(s, v) <==> Referenced(t, v)
  {
    forall c ensures Alive(s, c) <==> Alive(t, c) {
    }
  }

  /** Dropping an entry or a task can only lose references to one value: the content of the
      cell it held on to, or the value itself. */
  lemma RemoveLoses(s: State, k: Key, v: Ref)
    requires k in s.cells && Referenced(s, v)
    requires s.cells[k] in s.contents ==> s.contents[s.cells[k]] != v
    ensures Referenced(s.(cells := s.cells - {k}), v)
  {
    var r := s.(cells := s.cells - {k});
    if t :| t in s.tasks && HoldsValue(s.tasks[t], v) {
      assert t in r.tasks && HoldsValue(r.tasks[t], v);
    } else {
      var c :| c in s.contents && s.contents[c] == v && Alive(s, c);
      if !InFlight(s, c) {
        var j :| j in s.cells && s.cells[j] == c;
        assert j in r.cells && r.cells[j] == c;
      } else {
        assert InFlight(r, c);
      }
      assert Alive(r, c);
    }
  }

  lemma RemoveGains(s: State, k: Key, v: Ref)
    requires Referenced(s.(cells := s.cells - {k}), v)
    ensures Referenced(s, v)
  {
    var r := s.(cells := s.cells - {k});
    if t :| t in r.tasks && HoldsValue(r.tasks[t], v) {
      assert t in s.tasks && HoldsValue(s.tasks[t], v);
    } else {
      var c :| c in r.contents && r.contents[c] == v && Alive(r, c);
      assert InFlight(r, c) ==> InFlight(s, c);
      assert Alive(s, c);
    }
  }

  /** A value that may have lost its last reference. */
  ghost function Content(s: State, c: Ref): Option<Ref> {
    if c in s.contents then Some(s.contents[c]) else None
  }

  lemma EntryRemoved(s: State, k: Key)
    requires k in s.cells && ChargedBut(s, None)
    ensures ChargedBut(s.(cells := s.cells - {k}), Content(s, s.cells[k]))
  {
    var r := s.(cells := s.cells - {k});
    forall v | Referenced(r, v) ensures v in r.charges {
      RemoveGains(s, k, v);
    }
    forall v | v in r.charges && Content(s, s.cells[k]) != Some(v) ensures Referenced(r, v) {
      RemoveLoses(s, k, v);
    }
  }

  lemma FreeContentSettles(s: State, c: Ref)
    requires ChargedBut(s, Content(s, c)) && Accounted(s)
    ensures ChargedBut(FreeContent(s, c), None) && Accounted(FreeContent(s, c))
  {
    if c in s.contents {
      FreeSettles(s, s.contents[c]);
      FreeKeepsAccounts(s, s.contents[c]);
    }
    hide ChargedBut, Accounted, Free;
  }

  lemma FreeFrame(s: State, v: Ref)
    ensures var f := Free(s, v);
            && f == s.(charges := f.charges, keptUsed := f.keptUsed, oversizedUsed := f.oversizedUsed)
            && (forall x :: x in f.charges ==> x in s.charges && f.charges[x] == s.charges[x])
  {
    hide Referenced;
  }

  lemma FreeContentFrame(s: State, c: Ref)
    ensures var f := FreeContent(s, c);
            && f == s.(charges := f.charges, keptUsed := f.keptUsed, oversizedUsed := f.oversizedUsed)
            && (forall x :: x in f.charges ==> x in s.charges)
  {
    if c in s.contents { FreeFrame(s, s.contents[c]); }
    hide Free;
  }

  /** Fewer entries, tasks and charges need no new identities. */
  lemma KnownLess(s: State, t: State)
    requires Known(s) && t.contents == s.contents && t.uncached == s.uncached && t.next == s.next
    requires forall k :: k in t.cells ==> k in s.cells && t.cells[k] == s.cells[k]
    requires forall v :: v in t.charges ==> v in s.charges
    requires forall u :: u in t.tasks ==> u in s.tasks && t.tasks[u] == s.tasks[u]
    ensures Known(t)
  {
  }

  lemma RemoveFrame(s: State, k: Key)
    requires k in s.cells
    ensures var r := Remove(s, k);
            && r.tasks == s.tasks && r.next == s.next && r.config == s.config && r.uncached == s.uncached
            && r.contents == s.contents && r.cells == s.cells - {k} && |r.cells| == |s.cells| - 1
            && forall v :: v in r.charges ==> v in s.charges
  {
    FreeContentFrame(s.(cells := s.cells - {k}), s.cells[k]);
    hide FreeContent;
    assert s.cells == (s.cells - {k})[k := s.cells[k]];
  }

  lemma RemoveKeeps(s: State, k: Key)
    requires Valid(s) && k in s.cells
    ensures Valid(Remove(s, k))
  {
    EntryRemoved(s, k);
    assert Accounted(s.(cells := s.cells - {k}));
    hide ChargedBut, Accounted;
    FreeContentSettles(s.(cells := s.cells - {k}), s.cells[k]);
    RemoveFrame(s, k);
    KnownLess(s, Remove(s, k));
    hide Known, FreeContent;
  }

  lemma LeaveLoses(s: State, t: Task, v: Ref)
    requires t in s.tasks && Referenced(s, v) && !HoldsValue(s.tasks[t], v)
    requires !s.tasks[t].Holding? ==> Content(s, s.tasks[t].cell) != Some(v)
    ensures Referenced(s.(tasks := s.tasks - {t}), v)
  {
    var r := s.(tasks := s.tasks - {t});
    if u :| u in s.tasks && HoldsValue(s.tasks[u], v) {
      assert u in r.tasks && HoldsValue(r.tasks[u], v);
    } else {
      var c :| c in s.contents && s.contents[c] == v && Alive(s, c);
      if InFlight(s, c) {
        var u :| u in s.tasks && HoldsCell(s.tasks[u], c);
        assert u in r.tasks && HoldsCell(r.tasks[u], c);
      }
      assert Alive(r, c);
    }
  }

  lemma LeaveGains(s: State, t: Task, v: Ref)
    requires Referenced(s.(tasks := s.tasks - {t}), v)
    ensures Referenced(s, v)
  {
    var r := s.(tasks := s.tasks - {t});
    if u :| u in r.tasks && HoldsValue(r.tasks[u], v) {
      assert u in s.tasks && HoldsValue(s.tasks[u], v);
    } else {
      var c :| c in r.contents && r.contents[c] == v && Alive(r, c);
      if InFlight(r, c) {
        var u :| u in r.tasks && HoldsCell(r.tasks[u], c);
        assert u in s.tasks && HoldsCell(s.tasks[u], c);
      }
      assert Alive(s, c);
    }
  }

  /** The one value a leaving task may release. */
  ghost function Last(s: State, p: Phase): Option<Ref> {
    if p.Holding? then Some(p.value) else Content(s, p.cell)
  }

  lemma TaskRemoved(s: State, t: Task)
    requires t in s.tasks && ChargedBut(s, None) && Known(s)
    ensures ChargedBut(s.(tasks := s.tasks - {t}), Last(s, s.tasks[t]))
  {
    var r := s.(tasks := s.tasks - {t});
    forall v | Referenced(r, v) ensures v in r.charges {
      LeaveGains(s, t, v);
    }
    forall v | v in r.charges && Last(s, s.tasks[t]) != Some(v) ensures Referenced(r, v) {
      LeaveLoses(s, t, v);
    }
  }

  lemma LeaveFrame(s: State, t: Task)
    requires t in s.tasks
    ensures var r := Leave(s, t);
            && r.tasks == s.tasks - {t} && r.next == s.next && r.config == s.config && r.uncached == s.uncached
            && r.contents == s.contents && r.cells == s.cells
            && forall v :: v in r.charges ==> v in s.charges
  {
    var r, p := s.(tasks := s.tasks - {t}), s.tasks[t];
    if p.Holding? { FreeFrame(r, p.value); } else { FreeContentFrame(r, p.cell); }
    hide Free, FreeContent;
  }

  lemma LeaveKeeps(s: State, t: Task)
    requires Valid(s) && t in s.tasks
    ensures Valid(Leave(s, t))
  {
    var r, p := s.(tasks := s.tasks - {t}), s.tasks[t];
    TaskRemoved(s, t);
    assert Accounted(r);
    hide ChargedBut, Accounted;
    if p.Holding? {
      FreeSettles(r, p.value);
      FreeKeepsAccounts(r, p.value);
    } else {
      FreeContentSettles(r, p.cell);
    }
    LeaveFrame(s, t);
    KnownLess(s, Leave(s, t));
    hide Known, Free, FreeContent;
  }

  lemma RetainFrame(s: State)
    ensures var r := Retain(s);
            && r == s.(uncached := r.uncached) && |r.uncached| <= |s.uncached|
            && forall k :: k in r.uncached ==> k in s.uncached && r.uncached[k] == s.uncached[k] && r.uncached[k] in s.charges
  {
    assert Retain(s).uncached.Keys <= s.uncached.Keys;
    KeysShrink(Retain(s).uncached, s.uncached);
  }

  lemma RetainKnown(s: State, r: State)
    requires Known(s) && r == s.(uncached := r.uncached)
    requires forall k :: k in r.uncached ==> k in s.uncached && r.uncached[k] == s.uncached[k]
    ensures Known(r)
  {
  }

  lemma SameCharges(s: State, r: State)
    requires ChargedBut(s, None) && r.tasks == s.tasks && r.cells == s.cells && r.contents == s.contents && r.charges == s.charges
    ensures ChargedBut(r, None)
  {
    forall v ensures Referenced(s, v) <==> Referenced(r, v) { SameReferences(s, r, v); }
    hide Referenced;
  }

  lemma RetainKeeps(s: State)
    requires Valid(s)
    ensures Valid(Retain(s)) && |Retain(s).uncached| <= |s.uncached|
    ensures forall k :: k in Retain(s).uncached ==> Retain(s).uncached[k] in s.charges
  {
    RetainFrame(s);
    hide Retain;
    RetainKnown(s, Retain(s));
    SameCharges(s, Retain(s));
    hide Known, ChargedBut;
  }

  lemma KeysShrink(m: map<Key, Ref>, n: map<Key, Ref>)
    requires m.Keys <= n.Keys
    ensures |m| <= |n|
  {
    assert n.Keys == m.Keys + (n.Keys - m.Keys);
    assert |m| == |m.Keys| && |n| == |n.Keys|;
  }

  /** A task that takes a clone of a live cell or value adds no new reference. */
  lemma EnterKeeps(s: State, t: Task, p: Phase)
    requires Valid(s) && t !in s.tasks
    requires p.Waiting? || p.Holding?
    requires p.Waiting? ==> Alive(s, p.cell) && p.cell < s.next
    requires p.Holding? ==> p.value in s.charges
    ensures Valid(s.(tasks := s.tasks[t := p]))
  {
    var r := s.(tasks := s.tasks[t := p]);
    forall v ensures Referenced(r, v) <==> Referenced(s, v) {
      EnterReferences(s, t, p, v);
    }
    hide Referenced;
  }

  lemma EnterReferences(s: State, t: Task, p: Phase, v: Ref)
    requires ChargedBut(s, None) && t !in s.tasks
    requires p.Waiting? || p.Holding?
    requires p.Waiting? ==> Alive(s, p.cell)
    requires p.Holding? ==> p.value in s.charges
    ensures Referenced(s.(tasks := s.tasks[t := p]), v) <==> Referenced(s, v)
  {
    var r := s.(tasks := s.tasks[t := p]);
    assert r.(tasks := r.tasks - {t}) == s;
    if Referenced(s, v) {
      LeaveGains(r, t, v);
    }
    if Referenced(r, v) && !HoldsValue(p, v) {
      if u :| u in r.tasks && HoldsValue(r.tasks[u], v) {
        assert u in s.tasks;
      } else {
        var c :| c in r.contents && r.contents[c] == v && Alive(r, c);
        if InFlight(r, c) {
          var u :| u in r.tasks && HoldsCell(r.tasks[u], c);
          assert u == t || (u in s.tasks && HoldsCell(s.tasks[u], c));
        }
        assert Alive(s, c);
      }
    }
  }

  lemma InsertKeeps(s: State, t: Task, key: Key)
    requires Valid(s) && t !in s.tasks && key !in s.cells && |s.cells| + |s.uncached| < s.config.entries
    ensures Valid(Insert(s, t, key))
  {
    var r := Insert(s, t, key);
    forall v ensures Referenced(r, v) <==> Referenced(s, v) {
      InsertReferences(s, t, key, v);
    }
    hide Referenced;
  }

  lemma InsertReferences(s: State, t: Task, key: Key, v: Ref)
    requires Known(s) && t !in s.tasks && key !in s.cells
    ensures Referenced(Insert(s, t, key), v) <==> Referenced(s, v)
  {
    var r := Insert(s, t, key);
    if Referenced(r, v) {
      if u :| u in r.tasks && HoldsValue(r.tasks[u], v) {
        assert u in s.tasks && HoldsValue(s.tasks[u], v);
      } else {
        var c :| c in r.contents && r.contents[c] == v && Alive(r, c);
        assert c < s.next;
        if InFlight(r, c) {
          var u :| u in r.tasks && HoldsCell(r.tasks[u], c);
          assert u in s.tasks && HoldsCell(s.tasks[u], c);
        } else {
          var k :| k in r.cells && r.cells[k] == c;
          assert k in s.cells;
        }
        assert Alive(s, c);
      }
    }
    if Referenced(s, v) {
      if u :| u in s.tasks && HoldsValue(s.tasks[u], v) {
        assert u in r.tasks && HoldsValue(r.tasks[u], v);
      } else {
        var c :| c in s.contents && s.contents[c] == v && Alive(s, c);
        if InFlight(s, c) {
          var u :| u in s.tasks && HoldsCell(s.tasks[u], c);
          assert u in r.tasks && HoldsCell(r.tasks[u], c);
        } else {
          var k :| k in s.cells && s.cells[k] == c;
          assert k in r.cells && r.cells[k] == c;
        }
        assert Alive(r, c);
      }
    }
  }

  lemma LookupKeeps(s: State, t: Task, key: Key, victim: Key)
    requires Valid(s) && t !in s.tasks
    ensures Valid(Lookup(s, t, key, victim))
  {
    var r := Retain(s);
    RetainKeeps(s);
    if key in r.uncached {
      EnterKeeps(r, t, Holding(r.uncached[key]));
    } else if key in r.cells {
      assert Alive(r, r.cells[key]);
      EnterKeeps(r, t, Waiting(key, r.cells[key]));
    } else if |r.cells| < r.config.entries - |r.uncached| {
      InsertKeeps(r, t, key);
    } else if Removable(r, victim) {
      RemoveKeeps(r, victim);
      RemoveFrame(r, victim);
      hide Valid;
      assert |r.cells| + |r.uncached| <= r.config.entries by { BoundedOf(r); }
      InsertKeeps(Remove(r, victim), t, key);
    }
  }

  lemma BoundedOf(s: State)
    requires Valid(s)
    ensures |s.cells| + |s.uncached| <= s.config.entries
  {
  }

  /** A task that keeps its cell while its phase changes changes no reference, apart from
      a value that its cell holds anyway. */
  lemma RephaseReferences(s: State, t: Task, p: Phase, v: Ref)
    requires t in s.tasks && (s.tasks[t].Waiting? || s.tasks[t].Loading?)
    requires (p.Loading? || p.Failed? || p.Loaded?) && p.cell == s.tasks[t].cell
    requires p.Loaded? ==> p.cell in s.contents && p.value == s.contents[p.cell]
    ensures Referenced(s.(tasks := s.tasks[t := p]), v) <==> Referenced(s, v)
  {
    var r := s.(tasks := s.tasks[t := p]);
    forall c ensures Alive(s, c) <==> Alive(r, c) {
      if InFlight(s, c) {
        var u :| u in s.tasks && HoldsCell(s.tasks[u], c);
        assert u in r.tasks && HoldsCell(r.tasks[u], c);
      }
      if InFlight(r, c) {
        var u :| u in r.tasks && HoldsCell(r.tasks[u], c);
        assert u in s.tasks && HoldsCell(s.tasks[u], c);
      }
    }
    assert HoldsCell(s.tasks[t], p.cell);
    if u :| u in s.tasks && HoldsValue(s.tasks[u], v) {
      assert u in r.tasks && HoldsValue(r.tasks[u], v);
    }
    if u :| u in r.tasks && HoldsValue(r.tasks[u], v) && u != t {
      assert u in s.tasks && HoldsValue(s.tasks[u], v);
    }
  }

  lemma RephaseKeeps(s: State, t: Task, p: Phase)
    requires Valid(s) && t in s.tasks && (s.tasks[t].Waiting? || s.tasks[t].Loading?)
    requires (p.Loading? || p.Failed? || p.Loaded?) && p.cell == s.tasks[t].cell
    requires p.Loaded? ==> p.cell in s.contents && p.value == s.contents[p.cell]
    ensures Valid(s.(tasks := s.tasks[t := p]))
  {
    var r := s.(tasks := s.tasks[t := p]);
    forall v ensures Referenced(r, v) <==> Referenced(s, v) {
      RephaseReferences(s, t, p, v);
    }
    hide Referenced;
  }

  lemma FillReferences(s: State, t: Task, charge: Charge, v: Ref)
    requires Known(s) && t in s.tasks && s.tasks[t].Loading? && s.tasks[t].cell !in s.contents
    ensures Referenced(Fill(s, t, charge), v) <==> Referenced(s, v) || v == s.next
  {
    var r, p := Fill(s, t, charge), s.tasks[t];
    assert HoldsValue(r.tasks[t], s.next);
    forall c ensures Alive(s, c) <==> Alive(r, c) {
      if InFlight(s, c) {
        var u :| u in s.tasks && HoldsCell(s.tasks[u], c);
        assert u in r.tasks && HoldsCell(r.tasks[u], c);
      }
      if InFlight(r, c) {
        var u :| u in r.tasks && HoldsCell(r.tasks[u], c);
        assert u in s.tasks && HoldsCell(s.tasks[u], c);
      }
    }
    if Referenced(s, v) {
      if u :| u in s.tasks && HoldsValue(s.tasks[u], v) {
        assert u in r.tasks && HoldsValue(r.tasks[u], v);
      } else {
        var c :| c in s.contents && s.contents[c] == v && Alive(s, c);
        assert c in r.contents && r.contents[c] == v;
      }
    }
    if Referenced(r, v) && v != s.next {
      if u :| u in r.tasks && HoldsValue(r.tasks[u], v) {
        assert u in s.tasks && HoldsValue(s.tasks[u], v);
      } else {
        var c :| c in r.contents && r.contents[c] == v && Alive(r, c);
        assert c in s.contents && s.contents[c] == v;
      }
    }
  }

  lemma FillKeeps(s: State, t: Task, charge: Charge)
    requires Valid(s) && t in s.tasks && s.tasks[t].Loading? && s.tasks[t].cell !in s.contents
    requires charge.kind.Kept? ==> s.keptUsed + charge.bytes <= s.config.keptBytes
    requires charge.kind.Oversized? ==> s.oversizedUsed + charge.bytes <= s.config.oversizedBytes
    ensures Valid(Fill(s, t, charge))
  {
    var r := Fill(s, t, charge);
    FillKeepsAccounts(s, t, charge);
    FillCharges(s, t, charge);
    FillKnown(s, t, charge);
    hide ChargedBut, Accounted, Known;
  }

  lemma FillKnown(s: State, t: Task, charge: Charge)
    requires Known(s) && t in s.tasks && s.tasks[t].Loading? && s.tasks[t].cell !in s.contents
    ensures Known(Fill(s, t, charge))
  {
  }

  lemma FillCharges(s: State, t: Task, charge: Charge)
    requires Known(s) && ChargedBut(s, None)
    requires t in s.tasks && s.tasks[t].Loading? && s.tasks[t].cell !in s.contents
    ensures ChargedBut(Fill(s, t, charge), None)
  {
    var r := Fill(s, t, charge);
    forall v ensures Referenced(r, v) <==> v in r.charges {
      FillReferences(s, t, charge, v);
      hide Referenced;
    }
    hide Referenced;
  }

  /** Entries of loads in flight stay where they are. */
  ghost predicate Spares(s: State, r: State) {
    forall k :: k in s.cells && InFlight(s, s.cells[k]) ==> k in r.cells && r.cells[k] == s.cells[k]
  }

  lemma SparesCompose(s: State, r: State, q: State)
    requires Spares(s, r) && Spares(r, q) && r.tasks == s.tasks
    ensures Spares(s, q)
  {
  }

  lemma RemoveSpares(s: State, k: Key)
    requires Removable(s, k)
    ensures Spares(s, Remove(s, k))
  {
    RemoveFrame(s, k);
    hide Remove;
  }

  lemma {:induction false} MakeRoomKeeps(s: State, bytes: nat, victims: seq<Key>)
    requires Valid(s)
    ensures var r := MakeRoomFor(s, bytes, victims);
            Valid(r) && r.tasks == s.tasks && r.contents == s.contents && r.config == s.config && Spares(s, r)
    decreases |victims|
  {
    hide Valid, Remove, Spares;
    if victims == [] || s.keptUsed + bytes <= s.config.keptBytes || !Removable(s, victims[0]) {
      assert Spares(s, s) by { SparesItself(s); }
    } else {
      var k := victims[0];
      RemoveKeeps(s, k);
      RemoveFrame(s, k);
      RemoveSpares(s, k);
      hide Removable;
      MakeRoomKeeps(Remove(s, k), bytes, victims[1..]);
      SparesCompose(s, Remove(s, k), MakeRoomFor(Remove(s, k), bytes, victims[1..]));
    }
  }

  lemma SparesItself(s: State)
    ensures Spares(s, s)
  {
  }

  lemma LoadKeeps(s: State, t: Task, bytes: nat, victims: seq<Key>)
    requires Valid(s) && t in s.tasks && s.tasks[t].Loading?
    ensures Valid(Load(s, t, bytes, victims))
  {
    var p := s.tasks[t];
    hide Valid;
    if p.cell in s.contents {
    } else if bytes > s.config.keptBytes {
      if s.oversizedUsed + bytes <= s.config.oversizedBytes {
        FillKeeps(s, t, Charge(Oversized, bytes));
      } else {
        RephaseKeeps(s, t, Failed(p.key, p.cell));
      }
    } else {
      MakeRoomKeeps(s, bytes, victims);
      var r := MakeRoomFor(s, bytes, victims);
      hide MakeRoomFor;
      if r.keptUsed + bytes <= r.config.keptBytes {
        FillKeeps(r, t, Charge(Kept, bytes));
      } else {
        RephaseKeeps(r, t, Failed(p.key, p.cell));
      }
    }
  }

  lemma FinishReferences(s: State, t: Task, keep: bool, v: Ref)
    requires Known(s) && t in s.tasks && s.tasks[t].Loaded?
    ensures Referenced(Finish(s, t, keep), v) <==> Referenced(s, v)
  {
    var r, p := Finish(s, t, keep), s.tasks[t];
    assert HoldsValue(r.tasks[t], p.value) && HoldsValue(s.tasks[t], p.value);
    if v != p.value {
      if Referenced(s, v) {
        if u :| u in s.tasks && HoldsValue(s.tasks[u], v) {
          assert u in r.tasks && HoldsValue(r.tasks[u], v);
        } else {
          var c :| c in s.contents && s.contents[c] == v && Alive(s, c);
          assert c != p.cell;
          if InFlight(s, c) {
            var u :| u in s.tasks && HoldsCell(s.tasks[u], c);
            assert u in r.tasks && HoldsCell(r.tasks[u], c);
          } else {
            var k :| k in s.cells && s.cells[k] == c;
            assert k in r.cells && r.cells[k] == c;
          }
          assert Alive(r, c);
        }
      }
      if Referenced(r, v) {
        if u :| u in r.tasks && HoldsValue(r.tasks[u], v) {
          assert u in s.tasks && HoldsValue(s.tasks[u], v);
        } else {
          var c :| c in r.contents && r.contents[c] == v && Alive(r, c);
          if InFlight(r, c) {
            var u :| u in r.tasks && HoldsCell(r.tasks[u], c);
            assert u in s.tasks && HoldsCell(s.tasks[u], c);
          }
          assert Alive(s, c);
        }
      }
    }
  }

  lemma FinishFrame(s: State, t: Task, keep: bool)
    requires Known(s) && Bounded(s) && t in s.tasks && s.tasks[t].Loaded?
    ensures Known(Finish(s, t, keep)) && Bounded(Finish(s, t, keep))
    ensures Finish(s, t, keep).charges == s.charges
  {
    FinishKnown(s, t, keep);
    FinishBounded(s, t, keep);
  }

  lemma FinishKnown(s: State, t: Task, keep: bool)
    requires Known(s) && t in s.tasks && s.tasks[t].Loaded?
    ensures Known(Finish(s, t, keep)) && Finish(s, t, keep).charges == s.charges
  {
  }

  lemma FinishBounded(s: State, t: Task, keep: bool)
    requires Bounded(s) && t in s.tasks && s.tasks[t].Loaded?
    ensures Bounded(Finish(s, t, keep))
  {
    var p := s.tasks[t];
    if OwnsEntry(s, p.key, p.cell) {
      assert s.cells == (s.cells - {p.key})[p.key := p.cell];
    }
  }

  lemma FinishKeeps(s: State, t: Task, keep: bool)
    requires Valid(s) && t in s.tasks && s.tasks[t].Loaded?
    ensures Valid(Finish(s, t, keep))
  {
    FinishFrame(s, t, keep);
    forall v ensures Referenced(Finish(s, t, keep), v) <==> Referenced(s, v) {
      FinishReferences(s, t, keep, v);
    }
    hide Known, Bounded, Referenced;
  }

  lemma GiveUpKeeps(s: State, t: Task)
    requires Valid(s) && t in s.tasks && s.tasks[t].Failed?
    ensures Valid(GiveUp(s, t))
  {
    var p := s.tasks[t];
    if s.config.dropsFailures && OwnsEntry(s, p.key, p.cell) {
      var r := s.(cells := s.cells - {p.key});
      assert s.cells == r.cells[p.key := p.cell];
      KnownLess(s, r);
      DropStillHeld(s, p.key, t);
      assert Valid(r);
      hide Valid;
      LeaveKeeps(r, t);
    } else {
      hide Valid;
      LeaveKeeps(s, t);
    }
  }

  /** An entry whose cell a task still holds can go without releasing its content. */
  lemma DropStillHeld(s: State, k: Key, t: Task)
    requires ChargedBut(s, None) && k in s.cells && t in s.tasks && HoldsCell(s.tasks[t], s.cells[k])
    ensures ChargedBut(s.(cells := s.cells - {k}), None)
  {
    var r := s.(cells := s.cells - {k});
    EntryRemoved(s, k);
    var c := s.cells[k];
    if c in s.contents {
      assert InFlight(r, c) && Alive(r, c);
      assert Referenced(r, r.contents[c]);
    }
    hide Referenced;
  }

  /** Every critical section of every task keeps the cache valid. */
  lemma StepKeeps(s: State, e: Event)
    requires Valid(s)
    ensures Valid(Step(s, e))
  {
    hide Valid, Lookup, Start, Share, Load, Finish, GiveUp, Leave, Fail;
    var t := e.task;
    if e.Look? {
      if t !in s.tasks { LookupKeeps(s, t, e.key, e.victim); }
    } else if t in s.tasks {
      match e
      case Starts(_) => if s.tasks[t].Waiting? { WaitingKeeps(s, t); }
      case Shares(_) => if s.tasks[t].Waiting? { WaitingKeeps(s, t); }
      case Completes(_, bytes, victims) => if s.tasks[t].Loading? { LoadKeeps(s, t, bytes, victims); }
      case Errs(_) => if s.tasks[t].Loading? { FailKeeps(s, t); }
      case Returns(_, keep) => if s.tasks[t].Loaded? { FinishKeeps(s, t, keep); }
      case Reports(_) => if s.tasks[t].Failed? { GiveUpKeeps(s, t); }
      case _ => LeaveKeeps(s, t);
    }
  }

  lemma WaitingKeeps(s: State, t: Task)
    requires Valid(s) && t in s.tasks && s.tasks[t].Waiting?
    ensures Valid(Start(s, t)) && Valid(Share(s, t))
  {
    hide Valid;
    var p := s.tasks[t];
    RephaseKeeps(s, t, Loading(p.key, p.cell));
    if p.cell in s.contents {
      RephaseKeeps(s, t, Loaded(p.key, p.cell, s.contents[p.cell]));
    }
  }

  lemma FailKeeps(s: State, t: Task)
    requires Valid(s) && t in s.tasks && s.tasks[t].Loading?
    ensures Valid(Fail(s, t))
  {
    hide Valid;
    RephaseKeeps(s, t, Failed(s.tasks[t].key, s.tasks[t].cell));
  }

  lemma EmptyValid(config: Config)
    ensures Valid(Empty(config))
  {
  }

  /** Over every interleaving of lookups, loads, failures, cancellations and drops: the
      entries stay within the limit, so the room left for cells never underflows; each
      counter is the sum of the live charges, within its kind's limit; and a charge is live
      exactly while its value is referenced. */
  lemma {:induction false} CacheOverRuns(config: Config, events: seq<Event>)
    ensures var s := After(Empty(config), events);
            && Valid(s) && s.config == config
            && |s.uncached| <= config.entries && |s.cells| <= config.entries - |s.uncached|
            && 0 <= s.keptUsed <= config.keptBytes && 0 <= s.oversizedUsed <= config.oversizedBytes
    decreases |events|
  {
    if events == [] {
      EmptyValid(config);
    } else {
      var init := events[..|events| - 1];
      CacheOverRuns(config, init);
      StepKeeps(After(Empty(config), init), events[|events| - 1]);
      StepKeepsConfig(After(Empty(config), init), events[|events| - 1]);
      hide Step;
    }
  }

  lemma SparesExtension(s: State, r: State, q: State)
    requires Spares(s, r) && forall k :: k in r.cells ==> k in q.cells && q.cells[k] == r.cells[k]
    ensures Spares(s, q)
  {
  }

  lemma InsertSpares(s: State, r: State, t: Task, key: Key)
    requires Spares(s, r) && key !in r.cells
    ensures Spares(s, Insert(r, t, key)) && Insert(r, t, key).config == r.config
  {
    SparesExtension(s, r, Insert(r, t, key));
  }

  lemma LookupFrame(s: State, t: Task, key: Key, victim: Key)
    requires t !in s.tasks
    ensures var r := Lookup(s, t, key, victim); r.config == s.config && Spares(s, r)
  {
    SparesItself(s);
    var r := Retain(s);
    assert r == s.(uncached := r.uncached);
    SparesExtension(s, s, r);
    if key in r.uncached {
      SparesExtension(s, r, Lookup(s, t, key, victim));
    } else if key in r.cells {
      SparesExtension(s, r, Join(r, t, key));
    } else {
      InsertSpares(s, r, t, key);
      if Removable(r, victim) {
        RemoveFrame(r, victim);
        RemoveSpares(r, victim);
        hide Remove, Removable, Spares, Insert, Retain;
        SparesCompose(s, r, Remove(r, victim));
        InsertSpares(s, Remove(r, victim), t, key);
      }
    }
  }

  lemma FillFrame(s: State, t: Task, charge: Charge)
    requires t in s.tasks && s.tasks[t].Loading?
    ensures Fill(s, t, charge).cells == s.cells && Fill(s, t, charge).config == s.config
    ensures Fail(s, t).cells == s.cells && Fail(s, t).config == s.config
  {
  }

  lemma LoadFrame(s: State, t: Task, bytes: nat, victims: seq<Key>)
    requires Valid(s) && t in s.tasks && s.tasks[t].Loading?
    ensures var r := Load(s, t, bytes, victims); r.config == s.config && Spares(s, r)
  {
    MakeRoomKeeps(s, bytes, victims);
    SparesItself(s);
    hide MakeRoomFor, Valid, Spares, Fill, Fail;
    var p, r, q := s.tasks[t], MakeRoomFor(s, bytes, victims), Load(s, t, bytes, victims);
    if p.cell in s.contents {
    } else if bytes > s.config.keptBytes {
      FillFrame(s, t, Charge(Oversized, bytes));
      SparesExtension(s, s, q);
    } else {
      FillFrame(r, t, Charge(Kept, bytes));
      SparesExtension(s, r, q);
    }
  }

  lemma EndFrame(s: State, t: Task)
    requires t in s.tasks
    ensures Leave(s, t).config == s.config
    ensures s.tasks[t].Failed? ==> GiveUp(s, t).config == s.config
  {
    var p := s.tasks[t];
    LeaveFrame(s, t);
    if p.Failed? {
      LeaveFrame(s.(cells := s.cells - {p.key}), t);
    }
    hide Leave;
  }

  lemma StepKeepsConfig(s: State, e: Event)
    requires Valid(s)
    ensures Step(s, e).config == s.config
  {
    hide Valid, Lookup, Load, GiveUp, Leave;
    var t := e.task;
    match e
    case Look(_, key, victim) => if t !in s.tasks { LookupFrame(s, t, key, victim); }
    case Completes(_, bytes, victims) => if t in s.tasks && s.tasks[t].Loading? { LoadFrame(s, t, bytes, victims); }
    case Reports(_) => if t in s.tasks { EndFrame(s, t); }
    case Drops(_) => if t in s.tasks { EndFrame(s, t); }
    case Cancels(_) => if t in s.tasks { EndFrame(s, t); }
    case _ =>
  }

  /** Making room never takes an entry away from a load in flight. */
  lemma InFlightIsKept(s: State, e: Event, k: Key)
    requires Valid(s) && (e.Look? || e.Completes?) && k in s.cells && InFlight(s, s.cells[k])
    ensures k in Step(s, e).cells && Step(s, e).cells[k] == s.cells[k]
  {
    hide Valid, Lookup, Load, InFlight;
    var t := e.task;
    if e.Look? && t !in s.tasks {
      LookupFrame(s, t, e.key, e.victim);
    } else if e.Completes? && t in s.tasks && s.tasks[t].Loading? {
      LoadFrame(s, t, e.bytes, e.victims);
    }
  }

  // ---------------------------------------------------------------- failed loads

  /** What becomes of the entry of a failed load when it ends: it survives exactly when the
      cache keeps failures, as the block cache does, or the task is cancelled before the
      cleanup. */
  lemma FailedEntrySurvivesIff(s: State, t: Task, e: Event)
    requires t in s.tasks && s.tasks[t].Failed? && (e == Reports(t) || e == Cancels(t))
    ensures OwnsEntry(Step(s, e), s.tasks[t].key, s.tasks[t].cell) <==>
            OwnsEntry(s, s.tasks[t].key, s.tasks[t].cell) && (!s.config.dropsFailures || e.Cancels?)
  {
    var p := s.tasks[t];
    LeaveFrame(s, t);
    LeaveFrame(s.(cells := s.cells - {p.key}), t);
    hide Leave;
  }

  /** The first task looks a key up in an empty cache, loads and fails. */
  lemma FirstLoadFails(config: Config, last: Event)
    requires config.entries > 0 && last.task == 0
    ensures var s := State(config, map[7 := 0], map[], map[], map[0 := Failed(7, 0)], map[], 0, 0, 1);
            After(Empty(config), [Look(0, 7, 0), Starts(0), Errs(0), last]) == Step(s, last)
  {
    var a := Step(Empty(config), Look(0, 7, 0));
    assert Retain(Empty(config)) == Empty(config);
    assert a == State(config, map[7 := 0], map[], map[], map[0 := Waiting(7, 0)], map[], 0, 0, 1);
    var b := Step(a, Starts(0));
    assert b == a.(tasks := map[0 := Loading(7, 0)]);
    var c := Step(b, Errs(0));
    assert c == a.(tasks := map[0 := Failed(7, 0)]);
    hide Step;
    AfterFour(Empty(config), Look(0, 7, 0), Starts(0), Errs(0), last);
  }

  lemma AfterFour(s: State, e1: Event, e2: Event, e3: Event, e4: Event)
    ensures After(s, [e1, e2, e3, e4]) == Step(Step(Step(Step(s, e1), e2), e3), e4)
  {
    hide Step;
    var events := [e1, e2, e3, e4];
    assert events[..3] == [e1, e2, e3] && events[..3][..2] == [e1, e2] && events[..3][..2][..1] == [e1];
    assert events[..3][..2][..1][..0] == [];
    assert After(s, events[..3][..2][..1]) == Step(After(s, events[..3][..2][..1][..0]), e1);
    assert After(s, events[..3][..2]) == Step(After(s, events[..3][..2][..1]), e2);
    assert After(s, events[..3]) == Step(After(s, events[..3][..2]), e3);
  }

  /** A failed block load leaves its empty cell behind; a later caller fills it. */
  lemma FailedBlockLoadExample()
    ensures var s := After(Empty(BLOCKS), [Look(0, 7, 0), Starts(0), Errs(0), Reports(0)]);
            7 in s.cells && s.cells[7] !in s.contents && s.tasks == map[]
  {
    FirstLoadFails(BLOCKS, Reports(0));
    LeaveFrame(State(BLOCKS, map[7 := 0], map[], map[], map[0 := Failed(7, 0)], map[], 0, 0, 1), 0);
    hide Leave, After;
  }

  /** So does a failed response load that is cancelled while it waits to clean up. */
  lemma CancelledFailureExample()
    ensures var s := After(Empty(RESPONSES), [Look(0, 7, 0), Starts(0), Errs(0), Cancels(0)]);
            7 in s.cells && s.cells[7] !in s.contents && s.tasks == map[]
  {
    FirstLoadFails(RESPONSES, Cancels(0));
    LeaveFrame(State(RESPONSES, map[7 := 0], map[], map[], map[0 := Failed(7, 0)], map[], 0, 0, 1), 0);
    hide Leave, After;
  }

  // ---------------------------------------------------------------- the loops

  /** The first entry, in key order, that nobody holds. */
  method FirstRemovable(s: State) returns (r: Option<Key>)
    ensures r.None? ==> forall k :: k in s.cells ==> !Removable(s, k)
    ensures r.Some? ==> Removable(s, r.value) && forall k :: k in s.cells && Removable(s, k) ==> r.value <= k
  {
    hide Removable;
    r := None;
    var rest := s.cells.Keys;
    while rest != {}
      invariant rest <= s.cells.Keys
      invariant r.None? ==> forall k :: k in s.cells && k !in rest ==> !Removable(s, k)
      invariant r.Some? ==> r.value in s.cells && Removable(s, r.value)
      invariant r.Some? ==> forall k :: k in s.cells && k !in rest && Removable(s, k) ==> r.value <= k
      decreases |rest|
    {
      var k: Key :| k in rest;
      if Removable(s, k) && (r.None? || k < r.value) {
        r := Some(k);
      }
      rest := rest - {k};
    }
  }

  /** `make_room`: nothing to do below the limit; otherwise remove the first free entry, and
      be busy only when every entry is in use. */
  method MakeRoom(s: State, limit: int) returns (r: State, busy: bool)
    ensures |s.cells| < limit ==> r == s && !busy
    ensures busy <==> |s.cells| >= limit && forall k :: k in s.cells ==> !Removable(s, k)
    ensures |s.cells| >= limit && !busy ==>
            exists k :: k in s.cells && Removable(s, k) && (forall j :: j in s.cells && Removable(s, j) ==> k <= j) && r == Remove(s, k)
    ensures busy ==> r == s
  {
    hide Removable, Remove;
    if |s.cells| < limit {
      return s, false;
    }
    var first := FirstRemovable(s);
    if first.None? {
      return s, true;
    }
    assert first.value in s.cells by { RemovableIsEntry(s, first.value); }
    return Remove(s, first.value), false;
  }

  lemma RemovableIsEntry(s: State, k: Key)
    requires Removable(s, k)
    ensures k in s.cells
  {
  }

  lemma MakeRoomStep(s: State, bytes: nat, k: Key, rest: seq<Key>)
    requires s.keptUsed + bytes > s.config.keptBytes && Removable(s, k)
    ensures MakeRoomFor(s, bytes, [k] + rest) == MakeRoomFor(Remove(s, k), bytes, rest)
  {
    assert ([k] + rest)[1..] == rest;
  }

  /** What the loop has removed so far is a prefix of what it removes in all. */
  ghost predicate Continues(s: State, bytes: nat, victims: seq<Key>, r: State) {
    forall rest: seq<Key> :: MakeRoomFor(s, bytes, victims + rest) == MakeRoomFor(r, bytes, rest)
  }

  lemma ContinuesBegin(s: State, bytes: nat)
    ensures Continues(s, bytes, [], s)
  {
    forall rest: seq<Key> ensures MakeRoomFor(s, bytes, [] + rest) == MakeRoomFor(s, bytes, rest) {
      assert [] + rest == rest;
    }
  }

  lemma ContinuesStep(s: State, bytes: nat, victims: seq<Key>, r: State, k: Key)
    requires Continues(s, bytes, victims, r) && r.keptUsed + bytes > r.config.keptBytes && Removable(r, k)
    ensures Continues(s, bytes, victims + [k], Remove(r, k))
  {
    hide MakeRoomFor, Remove, Removable;
    forall rest: seq<Key> ensures MakeRoomFor(s, bytes, victims + [k] + rest) == MakeRoomFor(Remove(r, k), bytes, rest) {
      assert victims + [k] + rest == victims + ([k] + rest);
      MakeRoomStep(r, bytes, k, rest);
    }
  }

  lemma ContinuesEnd(s: State, bytes: nat, victims: seq<Key>, r: State)
    requires Continues(s, bytes, victims, r)
    ensures r == MakeRoomFor(s, bytes, victims)
  {
    EndsHere(r, bytes);
    assert victims + [] == victims;
  }

  /** The victims are, in key order, the first of the entries that nobody holds. */
  ghost predicate FirstFree(s: State, victims: seq<Key>) {
    && (forall i :: 0 <= i < |victims| ==> Removable(s, victims[i]))
    && (forall i, j :: 0 <= i < j < |victims| ==> victims[i] < victims[j])
    && (forall k, i :: Removable(s, k) && k !in victims && 0 <= i < |victims| ==> victims[i] < k)
  }

  lemma NoneFreed(s: State)
    ensures FirstFree(s, []) && s.cells == s.cells - (set k | k in [])
  {
  }

  lemma OneMoreFreed(s: State, r: State, victims: seq<Key>, k: Key)
    requires FirstFree(s, victims) && r.tasks == s.tasks && r.cells == s.cells - (set v | v in victims)
    requires Removable(r, k) && forall j :: j in r.cells && Removable(r, j) ==> k <= j
    ensures FirstFree(s, victims + [k]) && r.cells - {k} == s.cells - (set v | v in victims + [k])
  {
    assert forall c :: InFlight(s, c) <==> InFlight(r, c);
    hide InFlight;
    assert k !in victims;
    assert (set v | v in victims + [k]) == (set v | v in victims) + {k};
    forall j, i | Removable(s, j) && j !in victims + [k] && 0 <= i < |victims + [k]| ensures (victims + [k])[i] < j {
      assert j in r.cells && Removable(r, j);
      assert j !in victims && j != k;
    }
  }

  /** The charge loop: remove free entries, first ones first, until the bytes fit; give up
      only when they do not fit and every remaining entry is in use. */
  method ChargeLoop(s: State, bytes: nat) returns (r: State, victims: seq<Key>, busy: bool)
    requires Valid(s)
    ensures r == MakeRoomFor(s, bytes, victims) && Valid(r)
    ensures !busy <==> r.keptUsed + bytes <= r.config.keptBytes
    ensures busy ==> forall k :: k in r.cells ==> !Removable(r, k)
    ensures FirstFree(s, victims) && r.cells == s.cells - (set k | k in victims)
  {
    hide Valid, Removable, Remove, MakeRoomFor, Continues, FirstFree;
    r, victims := s, [];
    ContinuesBegin(s, bytes);
    NoneFreed(s);
    while r.keptUsed + bytes > r.config.keptBytes
      invariant Valid(r) && Continues(s, bytes, victims, r)
      invariant FirstFree(s, victims) && r.tasks == s.tasks && r.cells == s.cells - (set k | k in victims)
      decreases |r.cells|
    {
      var first := FirstRemovable(r);
      if first.None? {
        ContinuesEnd(s, bytes, victims, r);
        return r, victims, true;
      }
      var k := first.value;
      RemovableIsEntry(r, k);
      RemoveKeeps(r, k);
      RemoveFrame(r, k);
      ContinuesStep(s, bytes, victims, r, k);
      OneMoreFreed(s, r, victims, k);
      r := Remove(r, k);
      victims := victims + [k];
    }
    ContinuesEnd(s, bytes, victims, r);
    busy := false;
  }

  lemma EndsHere(s: State, bytes: nat)
    ensures MakeRoomFor(s, bytes, []) == s
  {
  }
}
