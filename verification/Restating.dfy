/** What becomes of claims asserted again: which assertions of an extraction have a row when it
    commits, and what the rows it refreshes say from then on. */
module Restating {
  import opened Model
  import opened Tables
  import opened FactAlgebra
  import opened Invariants
  import opened Histories
  import opened Effects
  import opened Beginnings

  // ---- Which assertions have a row --------------------------------------------

  /** Some row holds this claim over exactly this window. */
  ghost predicate HasRow(facts: map<Id, Fact>, cmd: ExtractCommand, a: Assertion) {
    exists f :: f in facts && Restates(a, facts[f], cmd)
  }

  /** Some window the batch asserts for this triple is stored already. */
  ghost predicate TripleStored(facts: map<Id, Fact>, cmd: ExtractCommand, t: Triple) {
    exists b :: b in cmd.asserts && b.triple == t && HasRow(facts, cmd, b)
  }

  lemma TripleStoredMeans(facts: map<Id, Fact>, cmd: ExtractCommand, t: Triple)
    requires Dedupe(cmd.asserts).Ok?
    ensures TripleRefreshed(facts, Dedupe(cmd.asserts).value, cmd, t) <==> TripleStored(facts, cmd, t)
  {
    var batch := Dedupe(cmd.asserts).value;
    DedupeKeeps(cmd.asserts);
    hide Dedupe;
    if TripleRefreshed(facts, batch, cmd, t) {
      var f :| f in facts && facts[f].triple == t && Restating(batch, facts[f], cmd).Some?;
      assert HasRow(facts, cmd, Restating(batch, facts[f], cmd).value);
    }
    if TripleStored(facts, cmd, t) {
      var b :| b in cmd.asserts && b.triple == t && HasRow(facts, cmd, b);
      var f :| f in facts && Restates(b, facts[f], cmd);
      var k :| 0 <= k < |batch| && batch[k].triple == b.triple && batch[k].valid == b.valid;
      assert batch[k] in batch && Restates(batch[k], facts[f], cmd);
    }
  }

  /** An assertion that survived deduplication has a row afterwards exactly if none of its
      triple's rows was refreshed, or one already held its window. */
  lemma SurvivorHasRow(facts: map<Id, Fact>, first: Id, cmd: ExtractCommand, batch: seq<Assertion>, a: Assertion)
    requires Concluded(facts, first, cmd, batch).Ok? && a in batch && forall id :: id in facts ==> id < first
    ensures var (after, cut) := (Concluded(facts, first, cmd, batch).value, RetractAll(facts, cmd.scope, cmd.retracts, cmd.at).value);
      HasRow(after, cmd, a) <==> !TripleRefreshed(cut, batch, cmd, a.triple) || HasRow(cut, cmd, a)
  {
    var after, cut := Concluded(facts, first, cmd, batch).value, RetractAll(facts, cmd.scope, cmd.retracts, cmd.at).value;
    ConclusionsLand(facts, first, cmd, batch);
    RetractAllAccepts(facts, cmd.scope, cmd.retracts, cmd.at);
    if !TripleRefreshed(cut, batch, cmd, a.triple) {
      assert Recorded(after, a, cmd);
      var f :| f in after && after[f] == NewFact(a, cmd);
      assert Restates(a, after[f], cmd);
    } else {
      var g :| g in cut && cut[g].triple == a.triple && Restating(batch, cut[g], cmd).Some?;
      RestatedTripleInsertsNothing(facts, first, cmd, batch, g, Restating(batch, cut[g], cmd).value);
      SameWindows(cut, after, cmd, batch, a);
    }
    hide Concluded, RetractAll;
  }

  /** Refreshing a row leaves its claim and its window. */
  lemma SameWindows(cut: map<Id, Fact>, after: map<Id, Fact>, cmd: ExtractCommand, batch: seq<Assertion>, a: Assertion)
    requires forall id :: id in cut && Restating(batch, cut[id], cmd).Some? ==>
      id in after && after[id] == Refreshed(cut[id], Restating(batch, cut[id], cmd).value, cmd)
    requires forall id :: id in cut && Restating(batch, cut[id], cmd).None? ==> id in after && after[id] == cut[id]
    requires forall id :: id in after && id !in cut ==> after[id].triple != a.triple
    ensures HasRow(after, cmd, a) <==> HasRow(cut, cmd, a)
  {
    forall f | f in cut ensures f in after && (Restates(a, after[f], cmd) <==> Restates(a, cut[f], cmd)) {}
    if HasRow(cut, cmd, a) {
      var f :| f in cut && Restates(a, cut[f], cmd);
      assert Restates(a, after[f], cmd);
    }
    hide Restating;
  }

  /** What a committed extraction asserted has a row of its claim and window exactly if that row
      was there already, or no window the batch asserts for the triple was: an insert is held
      back by triple, not by window. */
  lemma AssertionHasRow(db: Db, cmd: ExtractCommand, db': Db, a: Assertion)
    requires Inv(db) && ApplyExtraction(db, cmd) == Ok(db') && !AlreadyRead(db, cmd) && a in cmd.asserts
    ensures var cut := RetractAll(db.facts, cmd.scope, cmd.retracts, cmd.at);
      cut.Ok? && (HasRow(db'.facts, cmd, a) <==> HasRow(cut.value, cmd, a) || !TripleStored(cut.value, cmd, a.triple))
  {
    var batch, cut := Dedupe(cmd.asserts).value, RetractAll(db.facts, cmd.scope, cmd.retracts, cmd.at).value;
    DedupeKeeps(cmd.asserts);
    var k :| 0 <= k < |batch| && batch[k].triple == a.triple && batch[k].valid == a.valid;
    SurvivorHasRow(db.facts, db.minted, cmd, batch, batch[k]);
    TripleStoredMeans(cut, cmd, a.triple);
    SameClaimSameRow(cut, cmd, a, batch[k]);
    SameClaimSameRow(db'.facts, cmd, a, batch[k]);
    hide LogInv, Windows, QueueInv, HasRow, TripleStored;
  }

  lemma SameClaimSameRow(facts: map<Id, Fact>, cmd: ExtractCommand, a: Assertion, b: Assertion)
    requires a.triple == b.triple && a.valid == b.valid
    ensures HasRow(facts, cmd, a) <==> HasRow(facts, cmd, b)
  {
    if HasRow(facts, cmd, a) { var f :| f in facts && Restates(a, facts[f], cmd); assert Restates(b, facts[f], cmd); }
    if HasRow(facts, cmd, b) { var f :| f in facts && Restates(b, facts[f], cmd); assert Restates(a, facts[f], cmd); }
  }

  // ---- What a row says ----------------------------------------------------------

  /** What a restatement changes of a row. */
  datatype Content = Content(statement: string, confidence: real, episodes: set<Id>)

  function ContentOf(f: Fact): Content { Content(f.statement, f.confidence, f.episodes) }

  /** The assertion by which a committed operation refreshes a stored row. */
  function Restatement(db: Db, op: Op, f: Id): (r: Option<Assertion>)
    ensures r.Some? ==> op.OpApplyExtraction?
  {
    if !op.OpApplyExtraction? || AlreadyRead(db, op.extraction) || ApplyExtraction(db, op.extraction).Err? then None
    else
      var cut := RetractAll(db.facts, op.extraction.scope, op.extraction.retracts, op.extraction.at);
      if cut.Ok? && f in cut.value then Restating(Dedupe(op.extraction.asserts).value, cut.value[f], op.extraction) else None
  }

  /** A row says what it was last restated with, and is evidenced by every episode it was read from. */
  function Said(db: Db, ops: seq<Op>, f: Id, c: Content): Content
    decreases |ops|
  {
    if ops == [] then c
    else
      var a := Restatement(db, ops[0], f);
      Said(Next(db, ops[0]), ops[1..], f,
           if a.None? then c
           else Content(a.value.statement, a.value.confidence, c.episodes + set e | e in ops[0].extraction.episodes))
  }

  ghost predicate NeverRestated(db: Db, ops: seq<Op>, f: Id)
    decreases |ops|
  {
    ops == [] || (Restatement(db, ops[0], f).None? && NeverRestated(Next(db, ops[0]), ops[1..], f))
  }

  lemma {:induction false} UnrestatedSaysTheSame(db: Db, ops: seq<Op>, f: Id, c: Content)
    requires NeverRestated(db, ops, f)
    ensures Said(db, ops, f, c) == c
    decreases |ops|
  {
    if ops != [] { UnrestatedSaysTheSame(Next(db, ops[0]), ops[1..], f, c); }
  }

  lemma ContentStep(db: Db, op: Op, f: Id)
    requires ProjectionInv(db) && f in db.facts && f in Next(db, op).facts
    ensures ContentOf(Next(db, op).facts[f]) == Said(db, [op], f, ContentOf(db.facts[f]))
  {
    if op.OpApplyExtraction? { ContentOfExtraction(db, op.extraction, f); } else { FactsOtherwiseStand(db, op, f); }
    assert [op][1..] == [];
    hide Next, Restatement;
  }

  lemma ContentOfExtraction(db: Db, cmd: ExtractCommand, f: Id)
    requires ProjectionInv(db) && f in db.facts
    ensures var (r, after) := (Restatement(db, OpApplyExtraction(cmd), f), Next(db, OpApplyExtraction(cmd)).facts);
      f in after && ContentOf(after[f]) ==
        if r.None? then ContentOf(db.facts[f])
        else Content(r.value.statement, r.value.confidence, db.facts[f].episodes + set e | e in cmd.episodes)
  {
    if ApplyExtraction(db, cmd).Ok? && !AlreadyRead(db, cmd) {
      ContentConcluded(db.facts, db.minted, cmd, Dedupe(cmd.asserts).value, f);
    }
    hide Concluded, RetractAll, Restating, Dedupe, FoundEpisodes, WithMarkers, ContentOf;
  }

  lemma ContentConcluded(facts: map<Id, Fact>, first: Id, cmd: ExtractCommand, batch: seq<Assertion>, f: Id)
    requires Concluded(facts, first, cmd, batch).Ok? && f in facts && forall id :: id in facts ==> id < first
    ensures var (after, cut) := (Concluded(facts, first, cmd, batch).value, RetractAll(facts, cmd.scope, cmd.retracts, cmd.at));
      cut.Ok? && f in cut.value && f in after && ContentOf(after[f]) ==
        var r := Restating(batch, cut.value[f], cmd);
        if r.None? then ContentOf(facts[f])
        else Content(r.value.statement, r.value.confidence, facts[f].episodes + set e | e in cmd.episodes)
  {
    ConclusionsLand(facts, first, cmd, batch);
    RetractAllAccepts(facts, cmd.scope, cmd.retracts, cmd.at);
    RetractAllCuts(facts, cmd.scope, cmd.retracts, cmd.at, f);
    hide Concluded, RetractAll, Restating, IsEarliest;
  }

  /** Across any run, what a surviving row says is what it was last restated with. */
  lemma {:induction false} ContentHistory(db: Db, ops: seq<Op>, f: Id)
    requires Inv(db) && f in db.facts && f in Run(db, ops).facts
    ensures ContentOf(Run(db, ops).facts[f]) == Said(db, ops, f, ContentOf(db.facts[f]))
    decreases |ops|
  {
    if ops != [] {
      var mid := Next(db, ops[0]);
      StepKeepsInv(db, ops[0]);
      WindowHistory(mid, ops[1..], f);
      ContentStep(db, ops[0], f);
      ContentHistory(mid, ops[1..], f);
      SaidOne(db, ops[0], f, ContentOf(db.facts[f]));
      hide Inv, Next, Restatement;
    }
  }

  lemma SaidOne(db: Db, op: Op, f: Id, c: Content)
    ensures Said(db, [op], f, c) ==
      var a := Restatement(db, op, f);
      if a.None? then c else Content(a.value.statement, a.value.confidence, c.episodes + set e | e in op.extraction.episodes)
  {
    assert [op][1..] == [];
    hide Next, Restatement;
  }

  /** The rows a query about the past gets, under the conditions that keep the answer: the same
      facts, with the claim, the start and the time of learning they had, saying what they
      were last restated with; a row never restated says what it did. */
  lemma PastRowsSay(db: Db, ops: seq<Op>, scope: ScopeId, extractor: ExtractorId, at: Instant, asOf: Instant, f: Id)
    requires Inv(db) && forall i :: 0 <= i < |ops| ==> !ErasesFrom(ops[i], scope)
    requires forall i :: 0 <= i < |ops| && ops[i].OpApplyExtraction? ==> ops[i].extraction.at > asOf
    requires forall g, c :: g in db.facts && c in RunCuts(db, ops, g) ==> at < c
    requires f in AnswerSet(Run(db, ops), scope, extractor, at, asOf)
    ensures f in db.facts && SameClaim(db.facts[f], Run(db, ops).facts[f])
    ensures ContentOf(Run(db, ops).facts[f]) == Said(db, ops, f, ContentOf(db.facts[f]))
    ensures NeverRestated(db, ops, f) ==> ContentOf(Run(db, ops).facts[f]) == ContentOf(db.facts[f])
  {
    PastAnswersTheSame(db, ops, scope, extractor, at, asOf);
    assert f in AnswerSet(db, scope, extractor, at, asOf);
    Below(db, f);
    WindowHistory(db, ops, f);
    ContentHistory(db, ops, f);
    if NeverRestated(db, ops, f) { UnrestatedSaysTheSame(db, ops, f, ContentOf(db.facts[f])); }
    hide Inv, Run, Said, NeverRestated;
  }

  lemma Below(db: Db, f: Id)
    requires Inv(db) && f in db.facts
    ensures f < db.minted
  {}

  // ---- A window that is held back, from an empty store ------------------------

  function First(scope: ScopeId, x: ExtractorId, a: Assertion, t: Instant): ExtractCommand { ExtractCommand(scope, x, [0], [a], [], t) }

  function Second(scope: ScopeId, x: ExtractorId, a: Assertion, b: Assertion, t: Instant): ExtractCommand {
    ExtractCommand(scope, x, [1], [a, b], [], t)
  }

  /** Two episodes; a claim read from the first; it and a later window of it read from the second. */
  function HeldBack(scope: ScopeId, x: ExtractorId, body: Body, a: Assertion, b: Assertion, t: Instant): seq<Op> {
    [OpAppend(Two(scope, body)), OpApplyExtraction(First(scope, x, a, t)), OpApplyExtraction(Second(scope, x, a, b, t))]
  }

  function OneClaim(scope: ScopeId, x: ExtractorId, body: Body, a: Assertion, t: Instant): Db {
    TwoEpisodes(scope, body).(markers := map[(0, x) := Marker(scope, 0, 1, t)], facts := map[2 := NewFact(a, First(scope, x, a, t))], minted := 3)
  }

  lemma OneMarked(db: Db, cmd: ExtractCommand, e: Id, n: nat)
    requires cmd.episodes == [e] && FoundEpisodes(db, cmd) == {e} && (e, cmd.extractor) !in db.markers && e in db.episodes
    ensures WithMarkers(db, cmd, cmd.episodes, n)
         == db.markers[(e, cmd.extractor) := Marker(db.episodes[e].scope, db.episodes[e].ingestedAt, n, cmd.at)]
  {
    assert cmd.episodes[..0] == [];
    assert WithMarkers(db, cmd, cmd.episodes[..0], n) == db.markers;
    hide FoundEpisodes;
  }

  /** An extraction of one new episode that asserts one claim, where no fact is known yet. */
  lemma OneApplied(db: Db, cmd: ExtractCommand, e: Id, a: Assertion)
    requires cmd.episodes == [e] && cmd.asserts == [a] && cmd.retracts == [] && a.valid.Valid()
    requires e in db.episodes && db.episodes[e].scope == cmd.scope && db.markers == map[] && db.facts == map[]
    ensures ApplyExtraction(db, cmd) == Ok(db.(
      markers := map[(e, cmd.extractor) := Marker(cmd.scope, db.episodes[e].ingestedAt, 1, cmd.at)],
      facts := map[db.minted := NewFact(a, cmd)], minted := db.minted + 1))
  {
    DedupeOne(a);
    OneConcluded(db.minted, cmd, a);
    assert FoundEpisodes(db, cmd) == {e};
    OneMarked(db, cmd, e, 1);
    assert e in FoundEpisodes(db, cmd);
    hide Concluded, Dedupe, WithMarkers, NewFact, FoundEpisodes;
  }

  lemma FirstLands(scope: ScopeId, x: ExtractorId, body: Body, a: Assertion, t: Instant)
    requires a.valid.Valid()
    ensures Next(TwoEpisodes(scope, body), OpApplyExtraction(First(scope, x, a, t))) == OneClaim(scope, x, body, a, t)
  {
    var db, cmd := TwoEpisodes(scope, body), First(scope, x, a, t);
    OneApplied(db, cmd, 0, a);
    Commits(db, cmd);
    hide ApplyExtraction, NewFact, Next;
  }

  lemma DedupeTwo(a: Assertion, b: Assertion)
    requires !a.valid.Overlaps(b.valid) && a.valid.Valid() && a.triple == b.triple
    ensures Dedupe([a, b]) == Ok([a, b])
  {
    DedupeOne(a);
    var batch, kept := [a, b], [a];
    assert batch[..|batch| - 1] == kept && kept + [b] == batch;
    assert !Listed(kept, b) && !Clashes(kept, b);
    hide Listed, Clashes;
  }

  /** The second extraction commits, its episode is marked, and its second assertion has no row. */
  lemma SecondWindowLost(scope: ScopeId, x: ExtractorId, body: Body, a: Assertion, b: Assertion, t: Instant)
    requires a.triple == b.triple && a.valid.Valid() && b.valid.Valid() && !a.valid.Overlaps(b.valid)
    ensures var (after, cmd) := (Run(EMPTY, HeldBack(scope, x, body, a, b, t)), Second(scope, x, a, b, t));
      (1, x) in after.markers && b in cmd.asserts && HasRow(after.facts, cmd, a) && !HasRow(after.facts, cmd, b)
  {
    var db, cmd := OneClaim(scope, x, body, a, t), Second(scope, x, a, b, t);
    hide OneClaim, TwoEpisodes, Inv, Next, ApplyExtraction, RetractAll, HasRow, TripleStored, AlreadyRead, HeldBack;
    UntilSecond(scope, x, body, a, b, t);
    SecondCommits(scope, x, body, a, b, t);
    OneRowOnly(scope, x, body, a, b, t);
    var after := ApplyExtraction(db, cmd).value;
    Commits(db, cmd);
    assert cmd.asserts[0] == a && cmd.asserts[1] == b && cmd.episodes[0] == 1;
    CommittedIsMarked(db, cmd, after);
    AssertionHasRow(db, cmd, after, a);
    AssertionHasRow(db, cmd, after, b);
  }

  lemma Commits(db: Db, cmd: ExtractCommand)
    requires ApplyExtraction(db, cmd).Ok?
    ensures Next(db, OpApplyExtraction(cmd)) == ApplyExtraction(db, cmd).value
  {
    hide ApplyExtraction;
  }

  lemma UntilSecond(scope: ScopeId, x: ExtractorId, body: Body, a: Assertion, b: Assertion, t: Instant)
    requires a.valid.Valid()
    ensures var db := OneClaim(scope, x, body, a, t);
      Inv(db) && Run(EMPTY, HeldBack(scope, x, body, a, b, t)) == Next(db, OpApplyExtraction(Second(scope, x, a, b, t)))
  {
    var ops := HeldBack(scope, x, body, a, b, t);
    RunTwo(EMPTY, ops[0], ops[1]);
    RunThree(EMPTY, ops[0], ops[1], ops[2]);
    TwoRecorded(scope, body);
    FirstLands(scope, x, body, a, t);
    Reachable([ops[0], ops[1]]);
    hide Next, Inv, OneClaim, TwoEpisodes;
  }

  lemma SecondCommits(scope: ScopeId, x: ExtractorId, body: Body, a: Assertion, b: Assertion, t: Instant)
    requires a.triple == b.triple && a.valid.Valid() && b.valid.Valid() && !a.valid.Overlaps(b.valid)
    ensures var (db, cmd) := (OneClaim(scope, x, body, a, t), Second(scope, x, a, b, t));
      ApplyExtraction(db, cmd).Ok? && !AlreadyRead(db, cmd)
  {
    var db, cmd := OneClaim(scope, x, body, a, t), Second(scope, x, a, b, t);
    var batch := [a, b];
    DedupeTwo(a, b);
    assert FoundEpisodes(db, cmd) == {1};
    assert 1 in FoundEpisodes(db, cmd);
    assert Restates(a, db.facts[2], cmd);
    assert Restating(batch, db.facts[2], cmd) == Some(a);
    NothingToInsert(db.facts, batch, batch, cmd, a.triple);
    hide Dedupe, WithMarkers, FoundEpisodes, RefreshAll, TripleRefreshed;
  }

  lemma {:induction false} NothingToInsert(facts: map<Id, Fact>, all: seq<Assertion>, batch: seq<Assertion>, cmd: ExtractCommand, t: Triple)
    requires TripleRefreshed(facts, all, cmd, t) && forall a :: a in batch ==> a.triple == t
    ensures ToInsert(facts, all, batch, cmd) == []
  {
    if batch != [] { NothingToInsert(facts, all, batch[..|batch| - 1], cmd, t); }
  }

  lemma OneRowOnly(scope: ScopeId, x: ExtractorId, body: Body, a: Assertion, b: Assertion, t: Instant)
    requires a.triple == b.triple && a.valid.Valid() && !a.valid.Overlaps(b.valid)
    ensures var (facts, cmd) := (OneClaim(scope, x, body, a, t).facts, Second(scope, x, a, b, t));
      && RetractAll(facts, scope, [], t) == Ok(facts)
      && HasRow(facts, cmd, a) && !HasRow(facts, cmd, b) && TripleStored(facts, cmd, b.triple)
  {
    var facts, cmd := OneClaim(scope, x, body, a, t).facts, Second(scope, x, a, b, t);
    assert Restates(a, facts[2], cmd);
    assert cmd.asserts[0] == a;
    assert a.valid != b.valid;
  }
}
