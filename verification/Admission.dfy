/** Two-counter admission with a reserve for live work. Every access to a counter is one
    atomic step, and the steps of any number of tasks interleave in any order. */
module Admission {
  import opened Prelude

  type Task = nat

  /** Where a task stands between atomic steps. */
  datatype Phase = Out | Live | Claimed | Refused | Working | Releasing

  datatype State = State(total: nat, backfill: nat, active: int, backfillActive: int, tasks: map<Task, Phase>)

  datatype Event =
    | TryLive(task: Task)
    | DropLive(task: Task)
    | ClaimBackfill(task: Task)
    | ClaimGlobal(task: Task)
    | UndoBackfill(task: Task)
    | ReleaseGlobal(task: Task)
    | ReleaseBackfill(task: Task)

  function PhaseOf(s: State, t: Task): Phase {
    if t in s.tasks then s.tasks[t] else Out
  }

  function Move(s: State, t: Task, p: Phase): State {
    s.(tasks := s.tasks[t := p])
  }

  /** One atomic step; a step that does not apply to the task's phase does not happen.
      Claiming takes the backfill slot first, releasing gives it back last. */
  function Step(s: State, e: Event): State {
    var t := e.task;
    match e
    case TryLive(_) =>
      if PhaseOf(s, t).Out? && s.active < s.total then Move(s, t, Live).(active := s.active + 1) else s
    case DropLive(_) => if PhaseOf(s, t).Live? then Move(s, t, Out).(active := s.active - 1) else s
    case ClaimBackfill(_) =>
      if PhaseOf(s, t).Out? && s.backfillActive < s.backfill
      then Move(s, t, Claimed).(backfillActive := s.backfillActive + 1) else s
    case ClaimGlobal(_) =>
      if !PhaseOf(s, t).Claimed? then s
      else if s.active < s.total then Move(s, t, Working).(active := s.active + 1)
      else Move(s, t, Refused)
    case UndoBackfill(_) =>
      if PhaseOf(s, t).Refused? then Move(s, t, Out).(backfillActive := s.backfillActive - 1) else s
    case ReleaseGlobal(_) => if PhaseOf(s, t).Working? then Move(s, t, Releasing).(active := s.active - 1) else s
    case ReleaseBackfill(_) =>
      if PhaseOf(s, t).Releasing? then Move(s, t, Out).(backfillActive := s.backfillActive - 1) else s
  }

  function After(s: State, events: seq<Event>): State
    decreases |events|
  {
    if events == [] then s else Step(After(s, events[..|events| - 1]), events[|events| - 1])
  }

  /** `Admission::new`. */
  function Create(total: nat, reservedLive: nat): Option<State> {
    if total == 0 || reservedLive > total then None
    else Some(State(total, total - reservedLive, 0, 0, map[]))
  }

  /** An admission exists exactly for a positive total that covers the reserve; it begins empty
      and leaves the reserve to live work. */
  lemma CreateAnswers(total: nat, reservedLive: nat)
    ensures Create(total, reservedLive).Some? <==> 0 < total && reservedLive <= total
    ensures forall s :: Create(total, reservedLive) == Some(s) ==>
              && s.total == total && s.backfill + reservedLive == total && s.active == 0 && s.backfillActive == 0
              && forall t :: PhaseOf(s, t).Out?
  {
  }

  // ---------------------------------------------------------------- counting

  predicate OwnsGlobal(p: Phase) {
    p.Live? || p.Working?
  }

  predicate OwnsBackfill(p: Phase) {
    p.Claimed? || p.Refused? || p.Working? || p.Releasing?
  }

  ghost function Tasks(s: State, owns: Phase -> bool): set<Task> {
    set t | t in s.tasks && owns(s.tasks[t])
  }

  lemma WithoutOne(s: set<Task>, t: Task)
    ensures |s - {t}| == |s| - (if t in s then 1 else 0)
  {
    if t !in s {
      assert s - {t} == s;
    }
  }

  /** Moving one task changes a count exactly by that task. */
  lemma MoveCounts(s: State, t: Task, p: Phase, owns: Phase -> bool)
    requires !owns(Out)
    ensures |Tasks(Move(s, t, p), owns)| == |Tasks(s, owns)|
            + (if owns(p) then 1 else 0) - (if owns(PhaseOf(s, t)) then 1 else 0)
  {
    MoveTasks(s, t, p, owns);
    hide Tasks, Move, PhaseOf;
    WithoutOne(Tasks(s, owns), t);
    WithoutOne(Tasks(Move(s, t, p), owns), t);
  }

  lemma MoveTasks(s: State, t: Task, p: Phase, owns: Phase -> bool)
    requires !owns(Out)
    ensures Tasks(Move(s, t, p), owns) - {t} == Tasks(s, owns) - {t}
    ensures t in Tasks(s, owns) <==> owns(PhaseOf(s, t))
    ensures t in Tasks(Move(s, t, p), owns) <==> owns(p)
  {
  }

  /** Each counter is the number of tasks that own a slot of its kind, within its limit. */
  ghost predicate Counted(s: State) {
    && s.active == |Tasks(s, OwnsGlobal)| && s.active <= s.total
    && s.backfillActive == |Tasks(s, OwnsBackfill)| && s.backfillActive <= s.backfill
  }

  lemma StepKeepsCounts(s: State, e: Event)
    requires Counted(s)
    ensures Counted(Step(s, e))
  {
    hide Tasks;
    var t := Step(s, e);
    if t != s {
      var p := PhaseOf(t, e.task);
      assert t == Move(s, e.task, p).(active := t.active, backfillActive := t.backfillActive);
      SameTasks(Move(s, e.task, p), t);
      MoveCounts(s, e.task, p, OwnsGlobal);
      MoveCounts(s, e.task, p, OwnsBackfill);
    }
  }

  lemma SameTasks(s: State, t: State)
    requires s.tasks == t.tasks
    ensures Tasks(s, OwnsGlobal) == Tasks(t, OwnsGlobal) && Tasks(s, OwnsBackfill) == Tasks(t, OwnsBackfill)
  {
  }

  /** Over every interleaving: owned slots never exceed the total, backfill slots never
      exceed what the reserve leaves, and no counter wraps. */
  lemma {:induction false} CountsOverRuns(total: nat, reservedLive: nat, events: seq<Event>)
    requires Create(total, reservedLive).Some?
    ensures var s := After(Create(total, reservedLive).value, events);
            && Counted(s) && s.total == total && s.backfill == total - reservedLive
            && 0 <= s.active <= total && 0 <= s.backfillActive <= total - reservedLive
    decreases |events|
  {
    if events == [] {
      var s := Create(total, reservedLive).value;
      assert Tasks(s, OwnsGlobal) == {} && Tasks(s, OwnsBackfill) == {};
    } else {
      var init := events[..|events| - 1];
      CountsOverRuns(total, reservedLive, init);
      StepKeepsCounts(After(Create(total, reservedLive).value, init), events[|events| - 1]);
    }
  }

  // ---------------------------------------------------------------- the live reserve

  lemma SlotsSplit(s: State)
    ensures |Tasks(s, OwnsGlobal)| <= |Tasks(s, (p: Phase) => p.Live?)| + |Tasks(s, OwnsBackfill)|
  {
    var live := Tasks(s, (p: Phase) => p.Live?);
    var global, backfill := Tasks(s, OwnsGlobal), Tasks(s, OwnsBackfill);
    assert global <= live + backfill;
    assert |live + backfill| <= |live| + |backfill|;
    assert live + backfill == global + (live + backfill - global);
  }

  /** While fewer than the reserved number of live permits are held, live work is admitted,
      whatever backfill tasks are doing. */
  lemma ReserveServesLive(total: nat, reservedLive: nat, events: seq<Event>, t: Task)
    requires Create(total, reservedLive).Some?
    requires var s := After(Create(total, reservedLive).value, events);
             PhaseOf(s, t).Out? && |Tasks(s, (p: Phase) => p.Live?)| < reservedLive
    ensures var s := After(Create(total, reservedLive).value, events);
            PhaseOf(Step(s, TryLive(t)), t).Live?
  {
    CountsOverRuns(total, reservedLive, events);
    SlotsSplit(After(Create(total, reservedLive).value, events));
  }

  /** Permits that backfill tasks hold never exceed what the reserve leaves. */
  lemma BackfillPermitsBounded(total: nat, reservedLive: nat, events: seq<Event>)
    requires Create(total, reservedLive).Some?
    ensures var s := After(Create(total, reservedLive).value, events);
            |Tasks(s, (p: Phase) => p.Working?)| <= total - reservedLive
            && |Tasks(s, (p: Phase) => p.Live?)| + |Tasks(s, (p: Phase) => p.Working?)| <= total
  {
    CountsOverRuns(total, reservedLive, events);
    var s := After(Create(total, reservedLive).value, events);
    var live, working := Tasks(s, (p: Phase) => p.Live?), Tasks(s, (p: Phase) => p.Working?);
    assert working <= Tasks(s, OwnsBackfill);
    assert Tasks(s, OwnsBackfill) == working + (Tasks(s, OwnsBackfill) - working);
    assert Tasks(s, OwnsGlobal) == live + working && live !! working;
  }

  // ---------------------------------------------------------------- the counters as an object

  /** The task is the next to act in none of these events. */
  ghost predicate ByOthers(events: seq<Event>, t: Task) {
    forall i :: 0 <= i < |events| ==> events[i].task != t
  }

  lemma {:induction false} OthersKeepPhase(s: State, events: seq<Event>, t: Task)
    requires ByOthers(events, t)
    ensures PhaseOf(After(s, events), t) == PhaseOf(s, t)
    decreases |events|
  {
    if events != [] {
      OthersKeepPhase(s, events[..|events| - 1], t);
    }
  }

  lemma OwnerCounted(s: State, t: Task)
    requires Counted(s)
    ensures OwnsGlobal(PhaseOf(s, t)) ==> s.active >= 1
    ensures OwnsBackfill(PhaseOf(s, t)) ==> s.backfillActive >= 1
  {
    assert OwnsGlobal(PhaseOf(s, t)) ==> t in Tasks(s, OwnsGlobal);
    assert OwnsBackfill(PhaseOf(s, t)) ==> t in Tasks(s, OwnsBackfill);
  }

  /** The shared counters. They are unsigned, so every decrement must be shown not to wrap.
      `tasks` holds where each task stands in its own code. */
  class Counters {
    const total: nat
    const backfill: nat
    var active: nat
    var backfillActive: nat
    var tasks: map<Task, Phase>

    function Value(): State
      reads this
    {
      State(total, backfill, active, backfillActive, tasks)
    }

    constructor (total: nat, reservedLive: nat)
      requires total != 0 && reservedLive <= total
      ensures Create(total, reservedLive) == Some(Value()) && Counted(Value())
    {
      this.total, backfill, active, backfillActive, tasks := total, total - reservedLive, 0, 0, map[];
      new;
      assert Tasks(Value(), OwnsGlobal) == {} && Tasks(Value(), OwnsBackfill) == {};
    }

    /** Any one atomic step of any task. */
    method Perform(e: Event)
      requires Counted(Value())
      modifies this
      ensures Value() == Step(old(Value()), e) && Counted(Value())
    {
      StepKeepsCounts(Value(), e);
      OwnerCounted(Value(), e.task);
      hide Counted;
      var t, phase := e.task, PhaseOf(Value(), e.task);
      match e {
        case TryLive(_) =>
          if phase.Out? && active < total {
            active := active + 1;
            tasks := tasks[t := Live];
          }
        case DropLive(_) =>
          if phase.Live? {
            active := active - 1;
            tasks := tasks[t := Out];
          }
        case ClaimBackfill(_) =>
          if phase.Out? && backfillActive < backfill {
            backfillActive := backfillActive + 1;
            tasks := tasks[t := Claimed];
          }
        case ClaimGlobal(_) =>
          if phase.Claimed? {
            if active < total {
              active := active + 1;
              tasks := tasks[t := Working];
            } else {
              tasks := tasks[t := Refused];
            }
          }
        case UndoBackfill(_) =>
          if phase.Refused? {
            backfillActive := backfillActive - 1;
            tasks := tasks[t := Out];
          }
        case ReleaseGlobal(_) =>
          if phase.Working? {
            active := active - 1;
            tasks := tasks[t := Releasing];
          }
        case ReleaseBackfill(_) =>
          if phase.Releasing? {
            backfillActive := backfillActive - 1;
            tasks := tasks[t := Out];
          }
      }
    }

    /** Other tasks act between two steps of this one. */
    method Interleave(events: seq<Event>, ghost t: Task)
      requires Counted(Value()) && ByOthers(events, t)
      modifies this
      ensures Value() == After(old(Value()), events) && Counted(Value())
      ensures PhaseOf(Value(), t) == old(PhaseOf(Value(), t))
    {
      hide Counted, Step;
      for k := 0 to |events|
        invariant Counted(Value()) && Value() == After(old(Value()), events[..k])
      {
        assert events[..k + 1][..k] == events[..k];
        Perform(events[k]);
      }
      assert events[..|events|] == events;
      OthersKeepPhase(old(Value()), events, t);
    }

    /** `try_live`: admitted exactly when a slot is free at that moment. */
    method TryLive(t: Task) returns (ok: bool)
      requires Counted(Value()) && PhaseOf(Value(), t).Out?
      modifies this
      ensures Counted(Value()) && PhaseOf(Value(), t) == if ok then Live else Out
      ensures ok <==> old(active) < total
      ensures |Tasks(old(Value()), (p: Phase) => p.Live?)| < total - backfill ==> ok
    {
      SlotsSplit(Value());
      ok := active < total;
      Perform(Event.TryLive(t));
    }

    /** `try_backfill`, with other tasks between its atomic steps: afterwards the task holds
        a permit or nothing at all. */
    method TryBackfill(t: Task, between: seq<Event>, undoing: seq<Event>) returns (ok: bool)
      requires Counted(Value()) && PhaseOf(Value(), t).Out? && ByOthers(between, t) && ByOthers(undoing, t)
      modifies this
      ensures Counted(Value()) && PhaseOf(Value(), t) == if ok then Working else Out
      ensures ok <==> old(backfillActive) < backfill && After(Step(old(Value()), ClaimBackfill(t)), between).active < total
    {
      hide Counted, After;
      Perform(ClaimBackfill(t));
      if PhaseOf(Value(), t).Out? {
        return false;
      }
      Interleave(between, t);
      Perform(ClaimGlobal(t));
      if PhaseOf(Value(), t).Refused? {
        Interleave(undoing, t);
        Perform(UndoBackfill(t));
        return false;
      }
      return true;
    }

    /** `Drop for Permit`, with other tasks between its two decrements. */
    method Drop(t: Task, between: seq<Event>)
      requires Counted(Value()) && OwnsGlobal(PhaseOf(Value(), t)) && ByOthers(between, t)
      modifies this
      ensures Counted(Value()) && PhaseOf(Value(), t).Out?
    {
      hide Counted, After;
      if PhaseOf(Value(), t).Live? {
        Perform(DropLive(t));
      } else {
        Perform(ReleaseGlobal(t));
        Interleave(between, t);
        Perform(ReleaseBackfill(t));
      }
    }
  }
}
