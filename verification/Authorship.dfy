/** Validator authorship: one fact per authored height, a legacy summary that floors the
    public counts until the facts have caught up, and the cutover between the two. */
module AuthorshipTables {
  import opened Prelude
  import opened Ordering

  datatype Record = Record(account: string, number: nat, timestamp: nat, hadWinner: bool)

  datatype Fact = Fact(timestamp: nat, hadWinner: bool)

  datatype Totals = Totals(blocks: nat, withPow: nat)

  type Facts = map<(string, nat), Fact>

  datatype Tables = Tables(facts: Facts, summary: map<string, Totals>, cutover: bool)

  function EmptyTables(): Tables {
    Tables(map[], map[], false)
  }

  /** Facts of one validator. */
  function FactsOf(facts: Facts, v: string): set<(string, nat)> {
    set k | k in facts && k.0 == v
  }

  /** Authored heights of one validator that carried a win. */
  function PowFactsOf(facts: Facts, v: string): set<(string, nat)> {
    set k | k in facts && k.0 == v && facts[k].hadWinner
  }

  function Authors(facts: Facts): set<string> {
    set k | k in facts :: k.0
  }

  /** The aggregate computed from facts. */
  function FromFacts(facts: Facts, v: string): Totals {
    Totals(|FactsOf(facts, v)|, |PowFactsOf(facts, v)|)
  }

  function FloorOf(t: Tables, v: string): Totals {
    if v in t.summary then t.summary[v] else Totals(0, 0)
  }

  // ---------------------------------------------------------------- writing

  /** Another author or time already stored for the height. */
  predicate Conflicts(facts: Facts, a: Record) {
    exists k :: k in facts && k.1 == a.number && (k.0 != a.account || facts[k].timestamp != a.timestamp)
  }

  /** `write_authorship`: a fact is inserted once and may only learn that it had a winner. */
  function Write(t: Tables, a: Record): Result<(Tables, bool)> {
    var key := (a.account, a.number);
    if Conflicts(t.facts, a) then Err(Invalid)
    else if key !in t.facts || (!t.facts[key].hadWinner && a.hadWinner) then
      Ok((t.(facts := t.facts[key := Fact(a.timestamp, a.hadWinner)]), true))
    else Ok((t, false))
  }

  /** `recompute`: the summary of every validator with facts becomes its aggregate. */
  function Recompute(t: Tables): Tables {
    t.(summary := t.summary + map v | v in Authors(t.facts) :: FromFacts(t.facts, v))
  }

  /** The authorship part of one committed block. */
  function Commit(t: Tables, a: Record): Result<(Tables, bool)> {
    match Write(t, a)
    case Err(e) => Err(e)
    case Ok((u, changed)) => Ok((if u.cutover then Recompute(u) else u, changed))
  }

  /** `try_authorship_cutover`: only once every legacy count is represented by facts. */
  function TryCutover(t: Tables): (Tables, bool) {
    if t.cutover then (t, true)
    else if exists v :: v in t.summary && FromFacts(t.facts, v).blocks < t.summary[v].blocks then (t, false)
    else (Recompute(t).(cutover := true), true)
  }

  function Reindex(t: Tables): Tables {
    t.(facts := map[], cutover := false)
  }

  /** A fact is refused exactly when its height has another author or time. Otherwise it is
      stored once, learns that its block had a winner and never forgets it; no other fact and
      no summary changes; and the flag says whether a fact changed. */
  lemma WriteLearns(t: Tables, a: Record)
    ensures Write(t, a).Err? <==>
            exists k :: k in t.facts && k.1 == a.number && !(k.0 == a.account && t.facts[k].timestamp == a.timestamp)
    ensures Write(t, a).Ok? ==>
            var (u, changed) := Write(t, a).value;
            var key := (a.account, a.number);
            && u.facts.Keys == t.facts.Keys + {key}
            && u.facts[key] == Fact(a.timestamp, a.hadWinner || (key in t.facts && t.facts[key].hadWinner))
            && (forall k :: k in t.facts && k != key ==> u.facts[k] == t.facts[k])
            && u.summary == t.summary && u.cutover == t.cutover
            && (changed <==> u.facts != t.facts)
  {
  }

  // ---------------------------------------------------------------- what readers see

  /** `get_validator_authorship`, per validator: legacy counts floor fresh facts until cutover. */
  function Public(t: Tables, v: string): Totals {
    var floor, fromFacts := FloorOf(t, v), FromFacts(t.facts, v);
    if t.cutover then floor
    else Totals(Max(floor.blocks, fromFacts.blocks), Max(floor.withPow, fromFacts.withPow))
  }

  /** No height has two authors. */
  ghost predicate OneAuthor(facts: Facts) {
    forall k, l :: k in facts && l in facts && k.1 == l.1 ==> k == l
  }

  /** After cutover the summary is the fact aggregate: every column of every validator with
      facts, and no authored blocks for anybody else. */
  ghost predicate CutoverExact(t: Tables) {
    t.cutover ==> forall v ::
      && FloorOf(t, v).blocks == FromFacts(t.facts, v).blocks
      && (v in Authors(t.facts) ==> FloorOf(t, v) == FromFacts(t.facts, v))
  }

  ghost predicate Valid(t: Tables) {
    OneAuthor(t.facts) && CutoverExact(t)
  }

  lemma NoFactsNoCount(facts: Facts, v: string)
    requires v !in Authors(facts)
    ensures FactsOf(facts, v) == {} && PowFactsOf(facts, v) == {}
  {
    assert forall k :: k in facts ==> k.0 in Authors(facts);
  }

  lemma AuthorHasFacts(facts: Facts, v: string)
    requires v in Authors(facts)
    ensures FromFacts(facts, v).blocks > 0
  {
    var k :| k in facts && k.0 == v;
    assert k in FactsOf(facts, v);
  }

  /** A commit leaves every fact count at least where it was. */
  lemma FactsGrow(t: Tables, a: Record, v: string)
    requires Write(t, a).Ok?
    ensures FromFacts(Write(t, a).value.0.facts, v).blocks >= FromFacts(t.facts, v).blocks
  {
    SubsetSize(FactsOf(t.facts, v), FactsOf(Write(t, a).value.0.facts, v));
  }

  lemma RecomputeIsExact(t: Tables, v: string)
    ensures v in Authors(t.facts) ==> FloorOf(Recompute(t), v) == FromFacts(t.facts, v)
    ensures v !in Authors(t.facts) ==> FloorOf(Recompute(t), v) == FloorOf(t, v)
    ensures Recompute(t).facts == t.facts && Recompute(t).cutover == t.cutover
  {
  }

  lemma CommitKeepsValid(t: Tables, a: Record)
    requires Valid(t) && Commit(t, a).Ok?
    ensures Valid(Commit(t, a).value.0)
  {
    var written := Write(t, a).value.0;
    var u := Commit(t, a).value.0;
    if u.cutover {
      forall v ensures FloorOf(u, v).blocks == FromFacts(u.facts, v).blocks {
        RecomputeIsExact(written, v);
        if v !in Authors(written.facts) {
          NoFactsNoCount(written.facts, v);
          FactsGrow(t, a, v);
        }
      }
    }
  }

  lemma CutoverKeepsValid(t: Tables)
    requires Valid(t)
    ensures Valid(TryCutover(t).0)
  {
    var u := TryCutover(t).0;
    if u.cutover && !t.cutover {
      forall v ensures FloorOf(u, v).blocks == FromFacts(u.facts, v).blocks {
        RecomputeIsExact(t, v);
        if v !in Authors(t.facts) { NoFactsNoCount(t.facts, v); }
      }
    }
  }

  /** The cutover step never changes a public count of authored blocks. */
  lemma CutoverKeepsPublicBlocks(t: Tables, v: string)
    requires Valid(t)
    ensures Public(TryCutover(t).0, v).blocks == Public(t, v).blocks
  {
    if TryCutover(t).0 != t {
      RecomputeIsExact(t, v);
      if v !in Authors(t.facts) { NoFactsNoCount(t.facts, v); }
      assert v in t.summary ==> FromFacts(t.facts, v).blocks >= t.summary[v].blocks;
    }
  }

  /** Wins carried by authored blocks are not checked by the cutover: their public count
      survives it exactly when no validator with facts has a higher legacy count. */
  lemma CutoverKeepsPublicPowIff(t: Tables)
    requires Valid(t) && !t.cutover && TryCutover(t).1
    ensures (forall v :: Public(TryCutover(t).0, v).withPow == Public(t, v).withPow) <==>
            (forall v :: v in t.summary && v in Authors(t.facts) ==>
               t.summary[v].withPow <= FromFacts(t.facts, v).withPow)
  {
    var u := TryCutover(t).0;
    forall v ensures Public(u, v).withPow == Public(t, v).withPow <==>
        (v in t.summary && v in Authors(t.facts) ==> t.summary[v].withPow <= FromFacts(t.facts, v).withPow) {
      RecomputeIsExact(t, v);
      if v !in Authors(t.facts) { NoFactsNoCount(t.facts, v); }
    }
  }

  lemma ReindexShowsFloor(t: Tables, v: string)
    ensures Public(Reindex(t), v) == FloorOf(t, v)
  {
    assert v !in Authors(Reindex(t).facts);
    NoFactsNoCount(Reindex(t).facts, v);
  }

  /** A reindex keeps every public count of a column exactly when the facts were not ahead
      of the floor in that column, or the cutover had happened. */
  lemma ReindexKeepsPublicIff(t: Tables)
    requires Valid(t)
    ensures (forall v :: Public(Reindex(t), v).blocks == Public(t, v).blocks) <==>
            t.cutover || forall v :: v in Authors(t.facts) ==> FromFacts(t.facts, v).blocks <= FloorOf(t, v).blocks
    ensures (forall v :: Public(Reindex(t), v).withPow == Public(t, v).withPow) <==>
            t.cutover || forall v :: v in Authors(t.facts) ==> FromFacts(t.facts, v).withPow <= FloorOf(t, v).withPow
  {
    forall v ensures Public(Reindex(t), v) == FloorOf(t, v) { ReindexShowsFloor(t, v); }
    hide Reindex;
    if !t.cutover {
      forall v
        ensures Public(t, v).blocks == FloorOf(t, v).blocks <==>
                (v in Authors(t.facts) ==> FromFacts(t.facts, v).blocks <= FloorOf(t, v).blocks)
        ensures Public(t, v).withPow == FloorOf(t, v).withPow <==>
                (v in Authors(t.facts) ==> FromFacts(t.facts, v).withPow <= FloorOf(t, v).withPow)
      {
        if v !in Authors(t.facts) { NoFactsNoCount(t.facts, v); }
      }
    }
  }

  // ---------------------------------------------------------------- the loops

  lemma FloorIsPublic(t: Tables, v: string)
    requires v in t.summary && (t.cutover || v !in Authors(t.facts))
    ensures Public(t, v) == t.summary[v]
  {
    if v !in Authors(t.facts) { NoFactsNoCount(t.facts, v); }
  }

  /** The rows merged so far: fact rows of `all` but `rest` over the summary rows. */
  ghost predicate Merged(t: Tables, all: set<string>, rest: set<string>, merged: map<string, Totals>) {
    && (forall v :: v in merged <==> v in t.summary || (v in all && v !in rest))
    && (forall v :: v in merged && v in rest ==> merged[v] == t.summary[v])
    && (forall v :: v in merged && v !in rest ==> merged[v] == Public(t, v))
  }

  function MergeRow(t: Tables, merged: map<string, Totals>, v: string): Totals {
    var row := FromFacts(t.facts, v);
    if v in merged then Totals(Max(row.blocks, merged[v].blocks), Max(row.withPow, merged[v].withPow)) else row
  }

  lemma MergeOne(t: Tables, all: set<string>, rest: set<string>, merged: map<string, Totals>, v: string)
    requires Merged(t, all, rest, merged) && v in rest && rest <= all && !t.cutover
    ensures Merged(t, all, rest - {v}, merged[v := MergeRow(t, merged, v)])
  {
    hide FromFacts;
    assert MergeRow(t, merged, v) == Public(t, v);
    hide MergeRow, Public;
  }

  /** The merge of `get_validator_authorship`: summary rows first, then fact rows unless
      cut over, keeping the larger count of each kind. */
  method ValidatorAuthorship(t: Tables) returns (merged: map<string, Totals>)
    ensures forall v :: v in merged <==> v in t.summary || (!t.cutover && v in Authors(t.facts))
    ensures forall v :: v in merged ==> merged[v] == Public(t, v)
  {
    merged := t.summary;
    var rest := if t.cutover then {} else Authors(t.facts);
    ghost var all := rest;
    assert Merged(t, all, rest, merged) by {
      forall v | v in t.summary && v !in rest ensures t.summary[v] == Public(t, v) { FloorIsPublic(t, v); }
    }
    hide MergeRow, Public;
    while rest != {}
      invariant rest <= all && Merged(t, all, rest, merged)
      decreases |rest|
    {
      hide Merged;
      var v :| v in rest;
      MergeOne(t, all, rest, merged, v);
      merged := merged[v := MergeRow(t, merged, v)];
      rest := rest - {v};
    }
  }

  /** The check of `try_authorship_cutover`, one legacy row at a time. */
  method AttemptCutover(t: Tables) returns (u: Tables, done: bool)
    ensures (u, done) == TryCutover(t)
  {
    if t.cutover {
      return t, true;
    }
    var rest := t.summary.Keys;
    hide FromFacts, Recompute;
    while rest != {}
      invariant rest <= t.summary.Keys
      invariant forall v :: v in t.summary && v !in rest ==> FromFacts(t.facts, v).blocks >= t.summary[v].blocks
      decreases |rest|
    {
      var v :| v in rest;
      if FromFacts(t.facts, v).blocks < t.summary[v].blocks {
        return t, false;
      }
      rest := rest - {v};
    }
    return Recompute(t).(cutover := true), true;
  }

  // ---------------------------------------------------------------- runs

  datatype Event = Committed(record: Record) | TriedCutover

  function Step(t: Tables, e: Event): Tables {
    match e
    case Committed(a) => if Commit(t, a).Err? then t else Commit(t, a).value.0
    case TriedCutover => TryCutover(t).0
  }

  function After(t: Tables, events: seq<Event>): Tables {
    if events == [] then t else Step(After(t, events[..|events| - 1]), events[|events| - 1])
  }

  lemma StepNeverLosesBlocks(t: Tables, e: Event, v: string)
    requires Valid(t)
    ensures Valid(Step(t, e)) && Public(Step(t, e), v).blocks >= Public(t, v).blocks
  {
    match e
    case Committed(a) =>
      if Commit(t, a).Ok? {
        CommitKeepsValid(t, a);
        FactsGrow(t, a, v);
        RecomputeIsExact(Write(t, a).value.0, v);
      }
    case TriedCutover =>
      CutoverKeepsValid(t);
      CutoverKeepsPublicBlocks(t, v);
  }

  /** Over any run of commits and cutover attempts no public count decreases, and once
      cut over the summary is the fact aggregate. */
  lemma {:induction false} AuthorshipNeverLosesBlocks(t: Tables, events: seq<Event>, v: string)
    requires Valid(t)
    ensures Valid(After(t, events)) && Public(After(t, events), v).blocks >= Public(t, v).blocks
  {
    if events != [] {
      var init := events[..|events| - 1];
      AuthorshipNeverLosesBlocks(t, init, v);
      StepNeverLosesBlocks(After(t, init), events[|events| - 1], v);
    }
  }

  // ---------------------------------------------------------------- totals

  ghost function Total(facts: Facts, vs: set<string>): nat {
    if vs == {} then 0 else var v :| v in vs; FromFacts(facts, v).blocks + Total(facts, vs - {v})
  }

  ghost function FactsIn(facts: Facts, vs: set<string>): set<(string, nat)> {
    set k | k in facts && k.0 in vs
  }

  lemma FactsInSplit(facts: Facts, vs: set<string>, v: string)
    requires v in vs
    ensures |FactsIn(facts, vs)| == |FactsOf(facts, v)| + |FactsIn(facts, vs - {v})|
  {
    var own, rest := FactsOf(facts, v), FactsIn(facts, vs - {v});
    assert FactsIn(facts, vs) == own + rest && own !! rest;
  }

  lemma {:induction false} TotalCountsFacts(facts: Facts, vs: set<string>)
    ensures Total(facts, vs) == |FactsIn(facts, vs)|
    decreases |vs|
  {
    if vs == {} {
      assert FactsIn(facts, vs) == {};
    } else {
      var v :| v in vs && Total(facts, vs) == FromFacts(facts, v).blocks + Total(facts, vs - {v});
      TotalCountsFacts(facts, vs - {v});
      FactsInSplit(facts, vs, v);
      assert FromFacts(facts, v).blocks == |FactsOf(facts, v)|;
      assert Total(facts, vs - {v}) == |FactsIn(facts, vs - {v})|;
      assert Total(facts, vs) == FromFacts(facts, v).blocks + Total(facts, vs - {v});
    }
  }

  lemma {:induction false} DistinctHeights(facts: Facts, keys: set<(string, nat)>)
    requires keys <= facts.Keys && OneAuthor(facts)
    ensures |set k | k in keys :: k.1| == |keys|
    decreases |keys|
  {
    var heights := set k | k in keys :: k.1;
    if keys == {} {
      assert heights == {};
    } else {
      var k :| k in keys;
      DistinctHeights(facts, keys - {k});
      var rest := set l | l in keys - {k} :: l.1;
      assert k.1 !in rest;
      assert heights == rest + {k.1};
    }
  }

  /** The fact counts of all validators sum to the number of authored heights. */
  lemma FactCountsSumToHeights(facts: Facts)
    requires OneAuthor(facts)
    ensures Total(facts, Authors(facts)) == |set k | k in facts :: k.1|
  {
    TotalCountsFacts(facts, Authors(facts));
    assert FactsIn(facts, Authors(facts)) == facts.Keys;
    DistinctHeights(facts, facts.Keys);
    assert (set k | k in facts.Keys :: k.1) == (set k | k in facts :: k.1);
  }

  lemma WriteRepeated(t: Tables, a: Record)
    requires Write(t, a).Ok?
    ensures var u := Write(t, a).value.0; Write(u, a) == Ok((u, false))
  {
  }

  /** Writing a fact does not look at the summary. */
  lemma WriteIgnoresSummary(t: Tables, u: Tables, a: Record)
    requires u.facts == t.facts && Write(t, a) == Ok((t, false))
    ensures Write(u, a) == Ok((u, false))
  {
    hide Conflicts;
  }

  lemma RecomputeTwice(t: Tables)
    ensures Recompute(Recompute(t)) == Recompute(t)
  {
    assert Recompute(Recompute(t)).summary == Recompute(t).summary;
  }

  /** Repeating a committed fact changes nothing, before or after the cutover. */
  lemma CommitIdempotent(t: Tables, a: Record)
    requires Commit(t, a).Ok?
    ensures Commit(Commit(t, a).value.0, a) == Ok((Commit(t, a).value.0, false))
  {
    var w := Write(t, a).value.0;
    WriteRepeated(t, a);
    WriteIgnoresSummary(w, Commit(t, a).value.0, a);
    RecomputeTwice(w);
    hide Write, Recompute;
  }
}
