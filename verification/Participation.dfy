/** Declared participation in a qblock, keyed by qblock and account. */
module ParticipationTables {
  import opened Prelude

  datatype Participant = Participant(
    qblock: nat, account: string, kind: string, budget: Option<real>, blockNumber: nat)

  datatype Entry = Entry(kind: string, budget: Option<int>, blockNumber: nat)

  type Rows = map<(nat, string), Entry>

  /** Integer storage accepts only whole, non-negative 32-bit budgets. */
  predicate ValidBudget(p: Participant) {
    p.budget.Some? ==>
      && p.budget.value >= 0.0
      && p.budget.value.Floor as real == p.budget.value
      && p.budget.value <= 2147483647.0
  }

  function Key(p: Participant): (nat, string) {
    (p.qblock, p.account)
  }

  function Stored(p: Participant): Entry {
    Entry(p.kind, if p.budget.Some? then Some(p.budget.value.Floor) else None, p.blockNumber)
  }

  /** Upsert that touches a row only when some column differs. */
  function Write(rows: Rows, p: Participant): Result<(Rows, bool)> {
    if !ValidBudget(p) then Err(Invalid)
    else if Key(p) in rows && rows[Key(p)] == Stored(p) then Ok((rows, false))
    else Ok((rows[Key(p) := Stored(p)], true))
  }

  function Seconds(n: nat): real {
    n as real
  }

  /** Accepted budgets are exactly the whole numbers of a signed 32-bit column. */
  lemma BudgetsAreWhole(p: Participant)
    ensures ValidBudget(p) <==> p.budget.None? || exists n: nat :: n <= 0x7fff_ffff && Seconds(n) == p.budget.value
  {
    if p.budget.Some? {
      if ValidBudget(p) {
        assert Seconds(p.budget.value.Floor) == p.budget.value;
      }
    }
  }

  /** A row says what its participant declared. */
  ghost predicate Declares(e: Entry, p: Participant) {
    && e.kind == p.kind && e.blockNumber == p.blockNumber
    && (e.budget.Some? <==> p.budget.Some?)
    && (e.budget.Some? ==> e.budget.value as real == p.budget.value)
  }

  lemma StoredDeclares(p: Participant)
    requires ValidBudget(p)
    ensures Declares(Stored(p), p)
    ensures forall e :: Declares(e, p) ==> e == Stored(p)
  {
  }

  /** The participants of a batch, in order; the flag says whether any row changed. */
  function WriteAll(rows: Rows, ps: seq<Participant>): Result<(Rows, bool)> {
    if ps == [] then Ok((rows, false))
    else
      match WriteAll(rows, ps[..|ps| - 1])
      case Err(e) => Err(e)
      case Ok((r, changed)) =>
        match Write(r, ps[|ps| - 1])
        case Err(e) => Err(e)
        case Ok((s, more)) => Ok((s, changed || more))
  }

  /** Entries of a batch that share a key agree. */
  ghost predicate Consistent(ps: seq<Participant>) {
    forall i, j :: 0 <= i < j < |ps| && Key(ps[i]) == Key(ps[j]) ==> Stored(ps[i]) == Stored(ps[j])
  }

  ghost predicate Present(rows: Rows, ps: seq<Participant>) {
    forall i :: 0 <= i < |ps| ==> Key(ps[i]) in rows && rows[Key(ps[i])] == Stored(ps[i])
  }

  lemma {:induction false} WriteAllAccepts(rows: Rows, ps: seq<Participant>)
    ensures WriteAll(rows, ps).Ok? <==> forall i :: 0 <= i < |ps| ==> ValidBudget(ps[i])
  {
    if ps != [] { WriteAllAccepts(rows, ps[..|ps| - 1]); }
  }

  lemma {:induction false} UnchangedIffPresent(rows: Rows, ps: seq<Participant>)
    requires WriteAll(rows, ps).Ok?
    ensures !WriteAll(rows, ps).value.1 <==> Present(rows, ps)
    ensures !WriteAll(rows, ps).value.1 ==> WriteAll(rows, ps).value.0 == rows
  {
    if ps != [] {
      var init := ps[..|ps| - 1];
      UnchangedIffPresent(rows, init);
      assert Present(rows, ps) ==> Present(rows, init);
    }
  }

  /** The last entry of a key wins; other keys keep their row. */
  lemma {:induction false} LastEntryWins(rows: Rows, ps: seq<Participant>, i: nat)
    requires WriteAll(rows, ps).Ok? && i < |ps|
    requires forall j :: i < j < |ps| ==> Key(ps[j]) != Key(ps[i])
    ensures var r := WriteAll(rows, ps).value.0; Key(ps[i]) in r && r[Key(ps[i])] == Stored(ps[i])
  {
    var init := ps[..|ps| - 1];
    if i < |init| {
      assert init[i] == ps[i];
      LastEntryWins(rows, init, i);
    }
  }

  lemma {:induction false} LastOfKey(ps: seq<Participant>, i: nat) returns (j: nat)
    requires i < |ps|
    ensures i <= j < |ps| && Key(ps[j]) == Key(ps[i])
    ensures forall k :: j < k < |ps| ==> Key(ps[k]) != Key(ps[j])
    decreases |ps| - i
  {
    if k :| i < k < |ps| && Key(ps[k]) == Key(ps[i]) {
      j := LastOfKey(ps, k);
    } else {
      j := i;
    }
  }

  /** After a batch, its own entries are all present exactly when they are consistent. */
  lemma PresentAfterwards(rows: Rows, ps: seq<Participant>)
    requires WriteAll(rows, ps).Ok?
    ensures Present(WriteAll(rows, ps).value.0, ps) <==> Consistent(ps)
  {
    var r := WriteAll(rows, ps).value.0;
    if Consistent(ps) {
      forall i | 0 <= i < |ps| ensures Key(ps[i]) in r && r[Key(ps[i])] == Stored(ps[i]) {
        var j := LastOfKey(ps, i);
        LastEntryWins(rows, ps, j);
      }
    }
  }

  /** The last declaration of a key in a batch. */
  function LastOf(ps: seq<Participant>, k: (nat, string)): Option<Participant> {
    if ps == [] then None
    else if (ps[|ps| - 1].qblock, ps[|ps| - 1].account) == k then Some(ps[|ps| - 1])
    else LastOf(ps[..|ps| - 1], k)
  }

  /** A batch leaves for each of its keys what was declared last, and other keys alone. */
  lemma {:induction false} BatchDeclares(rows: Rows, ps: seq<Participant>, k: (nat, string))
    requires WriteAll(rows, ps).Ok?
    ensures var r, last := WriteAll(rows, ps).value.0, LastOf(ps, k);
            && (last.Some? ==> k in r && Declares(r[k], last.value))
            && (last.None? ==> (k in r <==> k in rows) && (k in r ==> r[k] == rows[k]))
  {
    if ps != [] {
      BatchDeclares(rows, ps[..|ps| - 1], k);
      WriteAllAccepts(rows, ps);
      StoredDeclares(ps[|ps| - 1]);
    }
  }

  lemma {:induction false} KeyFromBatch(rows: Rows, ps: seq<Participant>, k: (nat, string))
    requires WriteAll(rows, ps).Ok?
    requires forall i :: 0 <= i < |ps| ==> Key(ps[i]) != k
    ensures var r := WriteAll(rows, ps).value.0; (k in r <==> k in rows) && (k in r ==> r[k] == rows[k])
  {
    if ps != [] {
      KeyFromBatch(rows, ps[..|ps| - 1], k);
    }
  }

  /** Repeating a batch never changes the table; it reports a change exactly when the
      batch holds two different entries for one key. */
  lemma RepeatedBatch(rows: Rows, ps: seq<Participant>)
    requires WriteAll(rows, ps).Ok?
    ensures var r := WriteAll(rows, ps).value.0;
            WriteAll(r, ps) == Ok((r, !Consistent(ps)))
  {
    var r := WriteAll(rows, ps).value.0;
    WriteAllAccepts(rows, ps);
    WriteAllAccepts(r, ps);
    UnchangedIffPresent(r, ps);
    PresentAfterwards(rows, ps);
    var again := WriteAll(r, ps).value.0;
    forall k ensures (k in again <==> k in r) && (k in r ==> again[k] == r[k]) {
      if i :| 0 <= i < |ps| && Key(ps[i]) == k {
        var j := LastOfKey(ps, i);
        LastEntryWins(rows, ps, j);
        LastEntryWins(r, ps, j);
      } else {
        KeyFromBatch(r, ps, k);
      }
    }
    assert again == r;
  }
}
