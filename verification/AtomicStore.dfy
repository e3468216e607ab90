/** The writer's transactions applied to the store: why a store operation is one step. */
module AtomicStore {
  import opened Prelude
  import opened StoreModel
  import T = Transactions

  /** The statements of the program have, from every state, the effect of the operation. */
  ghost predicate Implements(program: seq<T.Statement<State>>, op: Op) {
    forall s: State :: T.RunStatements(s, program) == Step(s, op)
  }

  /** There is such a program for every operation. */
  lemma OperationsExist(op: Op)
    ensures IsOperation([(s: State) => Step(s, op)])
  {
    hide Step;
    var program: seq<T.Statement<State>> := [(s: State) => Step(s, op)];
    forall s: State ensures T.RunStatements(s, program) == Step(s, op) {
      assert program[..0] == [] && program[1..] == [];
    }
    assert Implements(program, op);
  }

  ghost predicate IsOperation(program: seq<T.Statement<State>>) {
    exists op :: Implements(program, op)
  }

  /** Callers begin only programs of store operations. */
  ghost predicate StoreCalls(events: seq<T.Event<State>>) {
    forall i :: 0 <= i < |events| && events[i].Begin? ==> IsOperation(events[i].program)
  }

  /** Whatever is committed or under way was begun by a caller. */
  ghost predicate OnlyOperations(s: T.State<State>) {
    && (s.phase.Inside? ==> IsOperation(s.phase.program))
    && (forall i :: 0 <= i < |s.history| ==> IsOperation(s.history[i].program))
  }

  lemma StepOnlyOperations(s: T.State<State>, e: T.Event<State>)
    requires OnlyOperations(s) && (e.Begin? ==> IsOperation(e.program))
    ensures OnlyOperations(T.Step(s, e))
  {
    hide IsOperation;
  }

  lemma {:induction false} RunOnlyOperations(embedded: bool, events: seq<T.Event<State>>)
    requires StoreCalls(events)
    ensures OnlyOperations(T.After(T.Opened(embedded, FreshStore()), events))
    decreases |events|
  {
    hide IsOperation, T.Step;
    if events != [] {
      var init := events[..|events| - 1];
      RunOnlyOperations(embedded, init);
      StepOnlyOperations(T.After(T.Opened(embedded, FreshStore()), init), events[|events| - 1]);
    }
  }

  /** Whole programs of operations, one after the other, are a run of the operations. */
  lemma {:induction false} HistoryIsRun(history: seq<T.Entry<State>>) returns (ops: seq<Op>)
    requires forall i :: 0 <= i < |history| ==> IsOperation(history[i].program)
    ensures |ops| == |history| && forall i :: 0 <= i < |ops| ==> Implements(history[i].program, ops[i])
    ensures T.RunHistory(FreshStore(), history) == After(FreshStore(), ops)
    decreases |history|
  {
    hide Step;
    if history == [] {
      ops := [];
    } else {
      var init, last := history[..|history| - 1], history[|history| - 1];
      var before := HistoryIsRun(init);
      var op :| Implements(last.program, op);
      ops := before + [op];
      assert ops[..|ops| - 1] == before;
    }
  }

  /** With failures and cancellation at any await, what is committed is at all times the
      state after a run of store operations: those of the committed transactions, in order. */
  lemma CommittedIsRun(embedded: bool, events: seq<T.Event<State>>) returns (ops: seq<Op>)
    requires StoreCalls(events)
    ensures var s := T.After(T.Opened(embedded, FreshStore()), events);
            && |ops| == |s.history| && (forall i :: 0 <= i < |ops| ==> Implements(s.history[i].program, ops[i]))
            && s.committed == After(FreshStore(), ops)
  {
    T.AtomicOverRuns(embedded, FreshStore(), events);
    RunOnlyOperations(embedded, events);
    ops := HistoryIsRun(T.After(T.Opened(embedded, FreshStore()), events).history);
  }
}
