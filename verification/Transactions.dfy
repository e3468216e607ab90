/** The single writer connection and its rollback flag, when any await may fail or be
    cancelled with the engine's statement done, not done, or its transaction lost. */
module Transactions {
  import opened Prelude

  /** A statement acts on the database as a function. */
  type Statement<!S> = S -> S

  /** What the engine had done when an await broke: nothing, the statement, or it had
      aborted the transaction by itself. */
  datatype Effect = Untouched | TookPlace | Aborted

  /** How an await ends. Errors and cancellation leave the caller the same way: it drops
      what it holds. */
  datatype Fate = Completes | Breaks(effect: Effect)

  /** Who holds the writer: nobody, a task that must still recover it, a task that may
      begin, or a task inside its transaction after `done` statements. */
  datatype Phase<!S> = Free | Locked | Ready | Inside(program: seq<Statement<S>>, done: nat)

  /** A committed transaction, and whether its caller was told so. */
  datatype Entry<!S> = Entry(program: seq<Statement<S>>, acknowledged: bool)

  /** `nested` and `stray` record a BEGIN inside an open transaction and an embedded
      ROLLBACK outside one. */
  datatype State<!S> = State(
    embedded: bool,
    committed: S,
    work: Option<S>,
    rollback: bool,
    phase: Phase<S>,
    history: seq<Entry<S>>,
    nested: bool,
    stray: bool)

  datatype Event<!S> =
    | Acquire
    | Recover(recovering: Fate)
    | Begin(program: seq<Statement<S>>, beginning: Fate)
    | Execute(executing: Fate)
    | Commit(committing: Fate)
    | Abandon
    | Restart

  // ---------------------------------------------------------------- engine

  function Rollback<S>(s: State<S>): State<S> {
    s.(work := None, stray := s.stray || (s.embedded && s.work.None?))
  }

  function BeginWork<S>(s: State<S>): State<S> {
    s.(work := Some(s.committed), nested := s.nested || s.work.Some?)
  }

  /** Outside a transaction a statement takes effect at once. */
  function Apply<S>(s: State<S>, f: Statement<S>): State<S> {
    if s.work.Some? then s.(work := Some(f(s.work.value))) else s.(committed := f(s.committed))
  }

  function CommitWork<S>(s: State<S>, program: seq<Statement<S>>, acknowledged: bool): State<S> {
    s.(committed := if s.work.Some? then s.work.value else s.committed, work := None,
       history := s.history + [Entry(program, acknowledged)])
  }

  // ---------------------------------------------------------------- steps

  function AfterRecover<S>(s: State<S>, fate: Fate): State<S> {
    if !s.rollback then s.(phase := Ready)
    else if s.embedded && s.work.None? then
      if fate.Completes? then s.(rollback := false, phase := Ready) else s.(phase := Free)
    else match fate
      case Completes => Rollback(s).(rollback := false, phase := Ready)
      case Breaks(e) => (if e == Untouched then s else Rollback(s)).(phase := Free)
  }

  function AfterBegin<S>(s: State<S>, program: seq<Statement<S>>, fate: Fate): State<S> {
    var armed := s.(rollback := true);
    match fate
    case Completes => BeginWork(armed).(phase := Inside(program, 0))
    case Breaks(e) => (if e == TookPlace then BeginWork(armed) else armed).(phase := Free)
  }

  function AfterExecute<S>(s: State<S>, fate: Fate): State<S>
    requires s.phase.Inside? && s.phase.done < |s.phase.program|
  {
    var f := s.phase.program[s.phase.done];
    match fate
    case Completes => Apply(s, f).(phase := Inside(s.phase.program, s.phase.done + 1))
    case Breaks(e) =>
      (match e
       case Untouched => s
       case TookPlace => Apply(s, f)
       case Aborted => s.(work := None)).(rollback := true, phase := Free)
  }

  function AfterCommit<S>(s: State<S>, fate: Fate): State<S>
    requires s.phase.Inside?
  {
    match fate
    case Completes => CommitWork(s, s.phase.program, true).(rollback := false, phase := Free)
    case Breaks(e) =>
      (match e
       case Untouched => s
       case TookPlace => CommitWork(s, s.phase.program, false)
       case Aborted => s.(work := None)).(rollback := true, phase := Free)
  }

  /** One event; an event that does not apply to the phase does not happen. */
  function Step<S>(s: State<S>, e: Event<S>): State<S> {
    match e
    case Acquire => if s.phase.Free? then s.(phase := Locked) else s
    case Recover(fate) => if s.phase.Locked? then AfterRecover(s, fate) else s
    case Begin(program, fate) => if s.phase.Ready? then AfterBegin(s, program, fate) else s
    case Execute(fate) =>
      if s.phase.Inside? && s.phase.done < |s.phase.program| then AfterExecute(s, fate) else s
    case Commit(fate) => if s.phase.Inside? && s.phase.done == |s.phase.program| then AfterCommit(s, fate) else s
    case Abandon => if s.phase.Inside? then s.(rollback := true, phase := Free) else s.(phase := Free)
    case Restart => s.(work := None, rollback := false, phase := Free)
  }

  function After<S>(s: State<S>, events: seq<Event<S>>): State<S>
    decreases |events|
  {
    if events == [] then s else Step(After(s, events[..|events| - 1]), events[|events| - 1])
  }

  function Opened<S>(embedded: bool, initial: S): State<S> {
    State(embedded, initial, None, false, Free, [], false, false)
  }

  // ---------------------------------------------------------------- atomicity

  /** A prefix of a transaction's statements, in order. */
  function RunStatements<S>(from: S, program: seq<Statement<S>>): S
    decreases |program|
  {
    if program == [] then from else program[|program| - 1](RunStatements(from, program[..|program| - 1]))
  }

  /** Whole transactions, one after the other. */
  function RunHistory<S>(from: S, history: seq<Entry<S>>): S
    decreases |history|
  {
    if history == [] then from
    else RunStatements(RunHistory(from, history[..|history| - 1]), history[|history| - 1].program)
  }

  ghost predicate Consistent<S>(s: State<S>, initial: S) {
    && (s.work.Some? ==> s.rollback)
    && (s.phase.Ready? ==> s.work.None?)
    && (s.phase.Inside? ==>
          && s.phase.done <= |s.phase.program|
          && s.work == Some(RunStatements(s.committed, s.phase.program[..s.phase.done])))
    && s.committed == RunHistory(initial, s.history)
    && !s.nested && !s.stray
  }

  lemma ExecuteKeeps<S>(s: State<S>, initial: S, fate: Fate)
    requires Consistent(s, initial) && s.phase.Inside? && s.phase.done < |s.phase.program|
    ensures Consistent(AfterExecute(s, fate), initial)
  {
    var p, i := s.phase.program, s.phase.done;
    assert p[..i + 1][..i] == p[..i];
  }

  lemma CommitKeeps<S>(s: State<S>, initial: S, fate: Fate)
    requires Consistent(s, initial) && s.phase.Inside? && s.phase.done == |s.phase.program|
    ensures Consistent(AfterCommit(s, fate), initial)
  {
    var p := s.phase.program;
    assert p[..|p|] == p;
    var t := AfterCommit(s, fate);
    if t.history != s.history {
      assert t.history[..|t.history| - 1] == s.history;
    }
  }

  lemma StepKeeps<S>(s: State<S>, initial: S, e: Event<S>)
    requires Consistent(s, initial)
    ensures Consistent(Step(s, e), initial)
  {
    if e.Execute? && s.phase.Inside? && s.phase.done < |s.phase.program| {
      ExecuteKeeps(s, initial, e.executing);
    } else if e.Commit? && s.phase.Inside? && s.phase.done == |s.phase.program| {
      CommitKeeps(s, initial, e.committing);
    }
  }

  /** Over every run with failures and cancellations anywhere: an open transaction implies
      the rollback flag; BEGIN never runs inside an open transaction; an embedded ROLLBACK
      never runs outside one; and the committed state is the result of whole transactions,
      one after the other. */
  lemma {:induction false} AtomicOverRuns<S>(embedded: bool, initial: S, events: seq<Event<S>>)
    ensures Consistent(After(Opened(embedded, initial), events), initial)
    decreases |events|
  {
    if events != [] {
      AtomicOverRuns(embedded, initial, events[..|events| - 1]);
      StepKeeps(After(Opened(embedded, initial), events[..|events| - 1]), initial, events[|events| - 1]);
    } else {
      assert Opened(embedded, initial).history == [];
    }
  }

  /** Committed transactions stay committed, and only a COMMIT of a task that has run its
      whole program adds one. */
  lemma StepHistory<S>(s: State<S>, e: Event<S>)
    ensures s.history <= Step(s, e).history
    ensures Step(s, e).history != s.history ==>
            && e.Commit? && s.phase.Inside? && s.phase.done == |s.phase.program|
            && Step(s, e).history == s.history + [Entry(s.phase.program, e.committing.Completes?)]
  {
    if !(e.Commit? && s.phase.Inside? && s.phase.done == |s.phase.program|) {
      OthersKeepHistory(s, e);
      hide Step;
    }
  }

  lemma OthersKeepHistory<S>(s: State<S>, e: Event<S>)
    requires !(e.Commit? && s.phase.Inside? && s.phase.done == |s.phase.program|)
    ensures Step(s, e).history == s.history
  {
  }

  lemma {:induction false} HistoryGrows<S>(s: State<S>, events: seq<Event<S>>)
    ensures s.history <= After(s, events).history
    decreases |events|
  {
    if events != [] {
      var init := events[..|events| - 1];
      HistoryGrows(s, init);
      StepHistory(After(s, init), events[|events| - 1]);
    }
  }

  /** A caller that was told its commit succeeded finds it in every later state, with the
      effect of its whole program on the state it began from. */
  lemma AcknowledgedIsDurable<S>(embedded: bool, initial: S, events: seq<Event<S>>, later: seq<Event<S>>)
    requires var s := After(Opened(embedded, initial), events); s.phase.Inside? && s.phase.done == |s.phase.program|
    ensures var s := After(Opened(embedded, initial), events);
            var t := Step(s, Commit(Completes));
            && t.committed == RunStatements(s.committed, s.phase.program)
            && t.history == s.history + [Entry(s.phase.program, true)]
            && t.history <= After(t, later).history
  {
    AtomicOverRuns(embedded, initial, events);
    var s := After(Opened(embedded, initial), events);
    assert s.phase.program[..|s.phase.program|] == s.phase.program;
    HistoryGrows(Step(s, Commit(Completes)), later);
  }

  /** Abandoning a transaction anywhere before its COMMIT leaves no trace once the next
      task has recovered the writer. */
  lemma AbandonedLeavesNothing<S>(embedded: bool, initial: S, events: seq<Event<S>>)
    requires After(Opened(embedded, initial), events).phase.Inside?
    ensures var s := After(Opened(embedded, initial), events);
            var t := Step(Step(Step(s, Abandon), Acquire), Recover(Completes));
            t.phase.Ready? && t.committed == s.committed && t.history == s.history && t.work.None? && !t.rollback
  {
    AtomicOverRuns(embedded, initial, events);
  }

  // ---------------------------------------------------------------- an undisturbed write

  lemma {:induction false} AfterMore<S>(s: State<S>, xs: seq<Event<S>>, ys: seq<Event<S>>)
    ensures After(s, xs + ys) == After(After(s, xs), ys)
    decreases |ys|
  {
    hide Step;
    if ys == [] {
      assert xs + ys == xs;
    } else {
      assert (xs + ys)[..|xs + ys| - 1] == xs + ys[..|ys| - 1];
      AfterMore(s, xs, ys[..|ys| - 1]);
    }
  }

  function Executes<S>(n: nat): seq<Event<S>> {
    seq(n, _ => Execute(Completes))
  }

  lemma {:induction false} ExecutesAll<S>(s: State<S>, program: seq<Statement<S>>, n: nat)
    requires s.phase == Inside(program, 0) && s.work == Some(s.committed) && n <= |program|
    ensures After(s, Executes(n)) ==
            s.(phase := Inside(program, n), work := Some(RunStatements(s.committed, program[..n])))
    decreases n
  {
    if n > 0 {
      ExecutesAll(s, program, n - 1);
      assert Executes<S>(n)[..n - 1] == Executes(n - 1);
      assert program[..n][..n - 1] == program[..n - 1];
    }
  }

  /** The writer's calls for one program when every await completes. */
  function WriteEvents<S>(program: seq<Statement<S>>): seq<Event<S>> {
    [Acquire, Recover(Completes), Begin(program, Completes)] + Executes(|program|) + [Commit(Completes)]
  }

  lemma OpensWrite<S>(s: State<S>, program: seq<Statement<S>>)
    requires s.phase.Free? && !s.nested && !s.stray && (s.work.Some? ==> s.rollback)
    ensures After(s, [Acquire, Recover(Completes), Begin(program, Completes)]) ==
            s.(phase := Inside(program, 0), work := Some(s.committed), rollback := true)
  {
    var a, b, c := Event<S>.Acquire, Event<S>.Recover(Completes), Event<S>.Begin(program, Completes);
    var events := [a, b, c];
    assert events[..2] == [a, b] && events[..2][..1] == [a] && events[..2][..1][..0] == [];
    assert After(s, events[..2][..1]) == Step(After(s, events[..2][..1][..0]), a);
    assert After(s, events[..2]) == Step(After(s, events[..2][..1]), b);
    var ready := After(s, events[..2]);
    assert ready == s.(phase := Ready, work := None, rollback := false) || ready == s.(phase := Ready);
    assert After(s, events) == Step(ready, c);
  }

  /** From every reachable state in which the writer is free, and whatever an interrupted write
      left behind: when every await completes, the whole program takes effect on the committed
      state, the caller is told so, and nothing is left to roll back. */
  lemma WriteSucceeds<S>(embedded: bool, initial: S, events: seq<Event<S>>, program: seq<Statement<S>>)
    requires After(Opened(embedded, initial), events).phase.Free?
    ensures var s := After(Opened(embedded, initial), events);
            var t := After(s, WriteEvents(program));
            && t.committed == RunStatements(s.committed, program)
            && t.history == s.history + [Entry(program, true)]
            && t.phase.Free? && t.work.None? && !t.rollback
  {
    AtomicOverRuns(embedded, initial, events);
    var s := After(Opened(embedded, initial), events);
    var opening := [Event<S>.Acquire, Event<S>.Recover(Completes), Event<S>.Begin(program, Completes)];
    OpensWrite(s, program);
    var inside := s.(phase := Inside(program, 0), work := Some(s.committed), rollback := true);
    ExecutesAll(inside, program, |program|);
    assert program[..|program|] == program;
    var done := inside.(phase := Inside(program, |program|), work := Some(RunStatements(s.committed, program)));
    var c := Event<S>.Commit(Completes);
    assert Step(done, c).committed == RunStatements(s.committed, program) && Step(done, c).history == s.history + [Entry(program, true)];
    assert Step(done, c).phase.Free? && Step(done, c).work.None? && !Step(done, c).rollback;
    hide Step, After, RunStatements, Consistent;
    AfterMore(s, opening, Executes(|program|));
    AfterMore(s, opening + Executes(|program|), [c]);
    AfterOne(done, c);
  }

  lemma AfterOne<S>(s: State<S>, e: Event<S>)
    ensures After(s, [e]) == Step(s, e)
  {
    hide Step;
    assert [e][..0] == [];
    assert After(s, [e]) == Step(After(s, []), e);
  }

  // ---------------------------------------------------------------- the writer object

  /** `Writer`, with the connection it owns. The awaited calls take the fate of their await. */
  class Writer<!S> {
    const embedded: bool
    var committed: S
    var work: Option<S>
    var rollback: bool
    ghost var phase: Phase<S>
    ghost var history: seq<Entry<S>>
    ghost var nested: bool
    ghost var stray: bool

    ghost function Value(): State<S>
      reads this
    {
      State(embedded, committed, work, rollback, phase, history, nested, stray)
    }

    constructor (embedded: bool, initial: S)
      ensures Value() == Opened(embedded, initial)
    {
      this.embedded, committed, work, rollback := embedded, initial, None, false;
      phase, history, nested, stray := Free, [], false, false;
    }

    method EngineRollback()
      modifies `work, `stray
      ensures Value() == Rollback(old(Value()))
    {
      stray := stray || (embedded && work.None?);
      work := None;
    }

    method EngineBegin()
      modifies `work, `nested
      ensures Value() == BeginWork(old(Value()))
    {
      nested := nested || work.Some?;
      work := Some(committed);
    }

    method EngineExecute(f: Statement<S>)
      modifies `work, `committed
      ensures Value() == Apply(old(Value()), f)
    {
      if work.Some? {
        work := Some(f(work.value));
      } else {
        committed := f(committed);
      }
    }

    method EngineCommit(ghost program: seq<Statement<S>>, ghost acknowledged: bool)
      modifies `work, `committed, `history
      ensures Value() == CommitWork(old(Value()), program, acknowledged)
    {
      if work.Some? {
        committed := work.value;
      }
      work := None;
      history := history + [Entry(program, acknowledged)];
    }

    method Acquire()
      modifies `phase
      ensures Value() == Step(old(Value()), Event.Acquire)
    {
      if phase.Free? {
        phase := Locked;
      }
    }

    /** `lock_writer` after the mutex: roll back what an interrupted write left behind. */
    method Recover(fate: Fate) returns (ok: bool)
      requires phase.Locked?
      modifies `phase, `work, `rollback, `stray
      ensures Value() == Step(old(Value()), Event.Recover(fate))
      ensures ok <==> phase.Ready?
    {
      if rollback {
        if embedded && work.None? {
          if fate.Breaks? {
            phase := Free;
            return false;
          }
        } else {
          if fate.Completes? || fate.effect != Untouched {
            EngineRollback();
          }
          if fate.Breaks? {
            phase := Free;
            return false;
          }
        }
        rollback := false;
      }
      phase := Ready;
      return true;
    }

    /** `Write::begin`: the flag is armed before BEGIN is sent. */
    method Begin(ghost program: seq<Statement<S>>, fate: Fate) returns (ok: bool)
      requires phase.Ready?
      modifies `phase, `work, `rollback, `nested
      ensures Value() == Step(old(Value()), Event.Begin(program, fate))
      ensures ok <==> phase.Inside?
    {
      rollback := true;
      if fate.Completes? || fate.effect == TookPlace {
        EngineBegin();
      }
      if fate.Breaks? {
        phase := Free;
        return false;
      }
      phase := Inside(program, 0);
      return true;
    }

    /** One statement of the transaction; on failure the guard is dropped. */
    method Execute(f: Statement<S>, fate: Fate) returns (ok: bool)
      requires phase.Inside? && phase.done < |phase.program| && f == phase.program[phase.done]
      modifies `phase, `work, `committed, `rollback
      ensures Value() == Step(old(Value()), Event.Execute(fate))
      ensures ok <==> phase.Inside?
    {
      if fate.Completes? || fate.effect == TookPlace {
        EngineExecute(f);
      } else if fate.effect == Aborted {
        work := None;
      }
      if fate.Breaks? {
        Drop();
        return false;
      }
      phase := Inside(phase.program, phase.done + 1);
      return true;
    }

    /** `Write::commit`: the flag is cleared only after COMMIT returned. */
    method Commit(fate: Fate) returns (ok: bool)
      requires phase.Inside? && phase.done == |phase.program|
      modifies `phase, `work, `committed, `rollback, `history
      ensures Value() == Step(old(Value()), Event.Commit(fate))
      ensures ok <==> |history| > |old(history)| && history[|history| - 1].acknowledged
      ensures ok && old(work).Some? ==> committed == old(work).value && work.None? && !rollback
    {
      if fate.Completes? || fate.effect == TookPlace {
        EngineCommit(phase.program, fate.Completes?);
      } else if fate.effect == Aborted {
        work := None;
      }
      if fate.Breaks? {
        Drop();
        return false;
      }
      rollback := false;
      phase := Free;
      return true;
    }

    /** `Drop for Write` on an unfinished write. */
    method Drop()
      requires phase.Inside?
      modifies `phase, `rollback
      ensures Value() == Step(old(Value()), Abandon)
    {
      rollback := true;
      phase := Free;
    }
  }
}
