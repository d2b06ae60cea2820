/** Where the rows of an extraction come from: what a new fact says when it is stored, what
    becomes of it from then on, which episodes stay unread, and why an extraction is refused. */
module Births {
  import opened Model
  import Sets
  import opened Tables
  import opened FactAlgebra
  import opened Invariants
  import opened Histories
  import opened Effects
  import opened R = Restating

  // ---- What a batch comes down to ---------------------------------------------

  /** The first assertion of a batch for a claim over a window: later repeats say nothing. */
  ghost predicate FirstSaid(batch: seq<Assertion>, i: nat, t: Triple, v: Validity) {
    && i < |batch| && batch[i].triple == t && batch[i].valid == v
    && forall k :: 0 <= k < i ==> batch[k].triple != t || batch[k].valid != v
  }

  /** Of assertions that repeat one another, deduplication keeps the first. */
  lemma {:induction false} KeepsTheFirst(batch: seq<Assertion>, a: Assertion) returns (i: nat)
    requires Dedupe(batch).Ok? && a in Dedupe(batch).value
    ensures FirstSaid(batch, i, a.triple, a.valid) && batch[i] == a
  {
    var n := |batch| - 1;
    var kept := Dedupe(batch[..n]).value;
    DedupeKeeps(batch[..n]);
    if a in kept {
      i := KeepsTheFirst(batch[..n], a);
      assert forall k :: 0 <= k < n ==> batch[..n][k] == batch[k];
    } else {
      i := n;
      forall k | 0 <= k < n ensures batch[k].triple != a.triple || batch[k].valid != a.valid {
        assert batch[..n][k] == batch[k] && batch[k] in batch[..n];
        assert Listed(kept, batch[k]);
      }
    }
  }

  /** What survives of an assertion: one of the same claim and window. */
  lemma Survivor(batch: seq<Assertion>, a: Assertion) returns (b: Assertion)
    requires Dedupe(batch).Ok? && a in batch
    ensures b in Dedupe(batch).value && b in batch && b.triple == a.triple && b.valid == a.valid
  {
    DedupeKeeps(batch);
    var kept := Dedupe(batch).value;
    hide Dedupe, PairwiseApart;
    var k :| 0 <= k < |kept| && kept[k].triple == a.triple && kept[k].valid == a.valid;
    b := kept[k];
  }

  /** And it keeps every one that is the first of its kind. */
  lemma FirstIsKept(batch: seq<Assertion>, i: nat)
    requires Dedupe(batch).Ok? && i < |batch| && FirstSaid(batch, i, batch[i].triple, batch[i].valid)
    ensures batch[i] in Dedupe(batch).value
  {
    hide Dedupe;
    var b := Survivor(batch, batch[i]);
    var j := KeepsTheFirst(batch, b);
    assert j == i;
  }

  // ---- New rows ---------------------------------------------------------------

  /** What the i-th assertion of an extraction says as a row. */
  ghost predicate BornFrom(f: Fact, cmd: ExtractCommand, i: nat) {
    && FirstSaid(cmd.asserts, i, f.triple, f.valid)
    && f.scope == cmd.scope && f.extractor == cmd.extractor
    && f.statement == cmd.asserts[i].statement && f.confidence == cmd.asserts[i].confidence
    && (forall e :: e in f.episodes <==> e in cmd.episodes)
    && f.assertedAt == cmd.at && f.updatedAt == cmd.at
  }

  /** Every row a committed extraction adds says what the first assertion of its claim and window
      says, is evidenced by exactly the episodes named, and is dated by the command. */
  lemma BornAs(db: Db, cmd: ExtractCommand, db': Db, f: Id)
    requires Inv(db) && ApplyExtraction(db, cmd) == Ok(db') && f in db'.facts && f !in db.facts
    ensures exists i: nat :: BornFrom(db'.facts[f], cmd, i)
  {
    var batch := Dedupe(cmd.asserts).value;
    ConcludedRows(db.facts, db.minted, cmd, batch);
    var a :| a in batch && db'.facts[f] == NewFact(a, cmd);
    var i := KeepsTheFirst(cmd.asserts, a);
    assert BornFrom(db'.facts[f], cmd, i);
  }

  // ---- Rows that were there ---------------------------------------------------

  /** The i-th assertion of an extraction restates this row: it is the first to make its claim
      over exactly its window. */
  ghost predicate RestatedBy(f: Fact, cmd: ExtractCommand, i: nat) {
    f.scope == cmd.scope && f.extractor == cmd.extractor && FirstSaid(cmd.asserts, i, f.triple, f.valid)
  }

  /** A row that was there says from then on what an assertion restating it says, is evidenced
      by the episodes named as well as its own, and is dated by the command. One that nothing
      restates changes in its end alone, and is dated by the command if that moved. */
  ghost predicate LeftAs(was: Fact, f: Fact, cmd: ExtractCommand) {
    && f == was.(statement := f.statement, confidence := f.confidence, episodes := f.episodes, updatedAt := f.updatedAt,
                 valid := Validity(was.valid.from, f.valid.to))
    && (forall i: nat :: RestatedBy(f, cmd, i) ==>
          && f.statement == cmd.asserts[i].statement && f.confidence == cmd.asserts[i].confidence && f.updatedAt == cmd.at
          && forall e :: e in f.episodes <==> e in was.episodes || e in cmd.episodes)
    && ((forall i: nat :: !RestatedBy(f, cmd, i)) ==>
          && f.statement == was.statement && f.confidence == was.confidence && f.episodes == was.episodes
          && f.updatedAt == if f.valid == was.valid then was.updatedAt else cmd.at)
  }

  lemma StoredLeftAs(db: Db, cmd: ExtractCommand, db': Db, f: Id)
    requires Inv(db) && ApplyExtraction(db, cmd) == Ok(db') && !AlreadyRead(db, cmd) && f in db.facts
    ensures f in db'.facts && LeftAs(db.facts[f], db'.facts[f], cmd)
  {
    var batch, cut := Dedupe(cmd.asserts).value, RetractAll(db.facts, cmd.scope, cmd.retracts, cmd.at).value;
    ConclusionsLand(db.facts, db.minted, cmd, batch);
    RetractAllCuts(db.facts, cmd.scope, cmd.retracts, cmd.at, f);
    CutThenRefreshed(db.facts[f], cut[f], db'.facts[f], cmd);
    hide Concluded, Dedupe, RetractAll, Restating, CutRow, LeftAs, Refreshed, FoundEpisodes, WithMarkers;
  }

  lemma CutThenRefreshed(was: Fact, cut: Fact, f: Fact, cmd: ExtractCommand)
    requires Dedupe(cmd.asserts).Ok? && OnlyCut(was, cut, cmd.at) && cut.valid.from == was.valid.from
    requires var r := Restating(Dedupe(cmd.asserts).value, cut, cmd);
      f == if r.Some? then Refreshed(cut, r.value, cmd) else cut
    ensures LeftAs(was, f, cmd)
  {
    RestatingIsFirst(cut, f, cmd);
    hide Dedupe, Restating, RestatedBy;
  }

  /** The assertion that refreshes a row is the first of its kind. */
  lemma RestatingIsFirst(f: Fact, f': Fact, cmd: ExtractCommand)
    requires Dedupe(cmd.asserts).Ok? && f'.scope == f.scope && f'.extractor == f.extractor && f'.triple == f.triple && f'.valid == f.valid
    ensures var r := Restating(Dedupe(cmd.asserts).value, f, cmd);
      && (r.Some? <==> exists i: nat :: RestatedBy(f', cmd, i))
      && (forall i: nat :: RestatedBy(f', cmd, i) ==> r == Some(cmd.asserts[i]))
  {
    var r := Restating(Dedupe(cmd.asserts).value, f, cmd);
    if r.Some? {
      var i := KeepsTheFirst(cmd.asserts, r.value);
      assert RestatedBy(f', cmd, i);
      forall j: nat | RestatedBy(f', cmd, j) ensures j == i {}
    }
    forall i: nat | RestatedBy(f', cmd, i) ensures r.Some? {
      FirstIsKept(cmd.asserts, i);
      assert Restates(cmd.asserts[i], f, cmd);
    }
    hide Dedupe, Restating;
  }

  // ---- Whole runs -------------------------------------------------------------

  /** The extraction commits, having named an episode its extractor had not read. */
  ghost predicate Reads(db: Db, op: Op) {
    && op.OpApplyExtraction? && ApplyExtraction(db, op.extraction).Ok?
    && exists e :: e in op.extraction.episodes && (e, op.extraction.extractor) !in db.markers
  }

  lemma ReadsMeans(db: Db, op: Op)
    ensures Reads(db, op) <==> op.OpApplyExtraction? && ApplyExtraction(db, op.extraction).Ok? && !AlreadyRead(db, op.extraction)
  {
    if op.OpApplyExtraction? && ApplyExtraction(db, op.extraction).Ok? { AllFound(db, op.extraction); }
    hide Concluded, Dedupe, WithMarkers;
  }

  /** What a committed extraction does to the facts: nothing if it had read all it names, and else
      each new row is born and each old one left as above. */
  ghost predicate ConcludesAs(db: Db, cmd: ExtractCommand, db': Db) {
    if forall e :: e in cmd.episodes ==> (e, cmd.extractor) in db.markers then db' == db
    else
      && (forall f :: f in db'.facts && f !in db.facts ==> exists i: nat :: BornFrom(db'.facts[f], cmd, i))
      && (forall f :: f in db.facts ==> f in db'.facts && LeftAs(db.facts[f], db'.facts[f], cmd))
  }

  lemma Concludes(db: Db, cmd: ExtractCommand, db': Db)
    requires Inv(db) && ApplyExtraction(db, cmd) == Ok(db')
    ensures ConcludesAs(db, cmd, db')
  {
    ReadsMeans(db, OpApplyExtraction(cmd));
    hide Inv, ApplyExtraction, LeftAs, BornFrom, AlreadyRead;
    if AlreadyRead(db, cmd) {
      ReadBefore(db, cmd);
    } else {
      forall f | f in db'.facts && f !in db.facts ensures exists i: nat :: BornFrom(db'.facts[f], cmd, i) { BornAs(db, cmd, db', f); }
      forall f | f in db.facts ensures f in db'.facts && LeftAs(db.facts[f], db'.facts[f], cmd) { StoredLeftAs(db, cmd, db', f); }
    }
  }

  lemma ReadBefore(db: Db, cmd: ExtractCommand)
    requires AlreadyRead(db, cmd) && ApplyExtraction(db, cmd).Ok?
    ensures ApplyExtraction(db, cmd) == Ok(db)
  {}

  /** Over a run too, a row is restated by the first assertion of a committed extraction to make
      its claim over the window the row then has. */
  lemma RestatementMeans(db: Db, op: Op, f: Id)
    requires ProjectionInv(db) && f in db.facts
    ensures !Reads(db, op) ==> Restatement(db, op, f) == None
    ensures Reads(db, op) ==>
      && f in Next(db, op).facts
      && (Restatement(db, op, f).Some? <==> exists i: nat :: RestatedBy(Next(db, op).facts[f], op.extraction, i))
      && (forall i: nat :: RestatedBy(Next(db, op).facts[f], op.extraction, i) ==> Restatement(db, op, f) == Some(op.extraction.asserts[i]))
  {
    ReadsMeans(db, op);
    if Reads(db, op) {
      Commits(db, op.extraction);
      RestatementIsFirst(db, op.extraction, Next(db, op), f);
    }
    hide ApplyExtraction, Dedupe, RetractAll, Restating, RestatedBy, Next, Reads, AlreadyRead;
  }

  lemma RestatementIsFirst(db: Db, cmd: ExtractCommand, db': Db, f: Id)
    requires ProjectionInv(db) && ApplyExtraction(db, cmd) == Ok(db') && !AlreadyRead(db, cmd) && f in db.facts
    ensures f in db'.facts
    ensures Restatement(db, OpApplyExtraction(cmd), f).Some? <==> exists i: nat :: RestatedBy(db'.facts[f], cmd, i)
    ensures forall i: nat :: RestatedBy(db'.facts[f], cmd, i) ==> Restatement(db, OpApplyExtraction(cmd), f) == Some(cmd.asserts[i])
  {
    var cut := RetractAll(db.facts, cmd.scope, cmd.retracts, cmd.at).value;
    CutAndKept(db, cmd, db', f);
    RestatingIsFirst(cut[f], db'.facts[f], cmd);
    hide Concluded, Dedupe, RetractAll, Restating, RestatedBy, FoundEpisodes, WithMarkers, AlreadyRead;
  }

  /** Past the cut no row changes its claim or its window. */
  lemma CutAndKept(db: Db, cmd: ExtractCommand, db': Db, f: Id)
    requires ProjectionInv(db) && ApplyExtraction(db, cmd) == Ok(db') && !AlreadyRead(db, cmd) && f in db.facts
    ensures RetractAll(db.facts, cmd.scope, cmd.retracts, cmd.at).Ok?
    ensures var cut := RetractAll(db.facts, cmd.scope, cmd.retracts, cmd.at).value;
      && f in cut && f in db'.facts
      && db'.facts[f].scope == cut[f].scope && db'.facts[f].extractor == cut[f].extractor
      && db'.facts[f].triple == cut[f].triple && db'.facts[f].valid == cut[f].valid
  {
    ConclusionsLand(db.facts, db.minted, cmd, Dedupe(cmd.asserts).value);
    RetractAllCuts(db.facts, cmd.scope, cmd.retracts, cmd.at, f);
    hide Concluded, Dedupe, RetractAll, Restating, CutRow, FoundEpisodes, WithMarkers;
  }

  // ---- From the first row on ----------------------------------------------------

  lemma RunStep(db: Db, ops: seq<Op>)
    requires ops != []
    ensures Run(db, ops) == Run(Next(db, ops[0]), ops[1..]) && Run(Next(db, ops[0]), []) == Next(db, ops[0])
  {
    hide Next;
  }

  lemma RunFirst(db: Db, ops: seq<Op>, k: nat)
    requires k < |ops|
    ensures Run(db, ops[..k + 1]) == Run(Next(db, ops[0]), ops[1..][..k]) && Run(db, ops[..0]) == db
  {
    assert ops[..k + 1][1..] == ops[1..][..k];
    hide Next;
  }

  /** The assertion a row was born from, at the operation that stored it, and what the row has
      become since: its claim, its start and when it was learned are that assertion's still, it
      ends at the earliest of the assertion's end and every retraction committed since, and it
      says what it was last restated with, or else what that assertion said. */
  ghost predicate Descends(db: Db, ops: seq<Op>, f: Fact, id: Id, k: nat, i: nat)
    requires k < |ops|
  {
    ops[k].OpApplyExtraction? && i < |ops[k].extraction.asserts| &&
    var (cmd, born, later) := (ops[k].extraction, Run(db, ops[..k + 1]), ops[k + 1..]);
    var a := cmd.asserts[i];
    && FirstSaid(cmd.asserts, i, a.triple, a.valid)
    && f.scope == cmd.scope && f.extractor == cmd.extractor && f.triple == a.triple && f.assertedAt == cmd.at
    && f.valid.from == a.valid.from && IsEarliest(f.valid.to, a.valid.to, RunCuts(born, later, id))
    && ContentOf(f) == Said(born, later, id, Content(a.statement, a.confidence, (set e | e in cmd.episodes)))
  }

  /** Every fact a run did not start with descends so from one of its extractions. */
  lemma {:induction false} BirthHistory(db: Db, ops: seq<Op>, f: Id) returns (k: nat, i: nat)
    requires Inv(db) && f !in db.facts && f in Run(db, ops).facts
    ensures k < |ops| && Descends(db, ops, Run(db, ops).facts[f], f, k, i)
    decreases |ops|
  {
    var mid := Next(db, ops[0]);
    StepKeepsInv(db, ops[0]);
    if f in mid.facts {
      k := 0;
      i := BornInStep(db, ops[0], f);
      BornDescends(db, ops, f, i);
    } else {
      k, i := BirthHistory(mid, ops[1..], f);
      DescendsLater(db, ops, Run(db, ops).facts[f], f, k, i);
      k := k + 1;
    }
    hide Inv, Next, Descends, BornFrom;
  }

  lemma BornDescends(db: Db, ops: seq<Op>, f: Id, i: nat)
    requires ops != [] && Inv(Next(db, ops[0])) && f in Next(db, ops[0]).facts && f in Run(db, ops).facts
    requires ops[0].OpApplyExtraction? && BornFrom(Next(db, ops[0]).facts[f], ops[0].extraction, i)
    ensures Descends(db, ops, Run(db, ops).facts[f], f, 0, i)
  {
    hide Inv, Next, IsEarliest, RunCuts, Said, Run;
    var mid := Next(db, ops[0]);
    Below(mid, f);
    assert ops[1..][..0] == [];
    RunFirst(db, ops, 0);
    RunStep(db, ops);
    WindowHistory(mid, ops[1..], f);
    ContentHistory(mid, ops[1..], f);
    var cmd, born, now := ops[0].extraction, mid.facts[f], Run(db, ops).facts[f];
    assert born.episodes == (set e | e in cmd.episodes);
    assert FirstSaid(cmd.asserts, i, cmd.asserts[i].triple, cmd.asserts[i].valid);
    assert Run(db, ops[..0 + 1]) == mid && ops[0 + 1..] == ops[1..];
    assert IsEarliest(now.valid.to, cmd.asserts[i].valid.to, RunCuts(mid, ops[1..], f));
    assert ContentOf(born) == Content(cmd.asserts[i].statement, cmd.asserts[i].confidence, (set e | e in cmd.episodes));
    assert ContentOf(now) == Said(mid, ops[1..], f, ContentOf(born));
  }

  lemma DescendsLater(db: Db, ops: seq<Op>, f: Fact, id: Id, k: nat, i: nat)
    requires ops != [] && k < |ops| - 1 && Descends(Next(db, ops[0]), ops[1..], f, id, k, i)
    ensures Descends(db, ops, f, id, k + 1, i)
  {
    hide Run, Next, IsEarliest, RunCuts, Said, FirstSaid;
    assert ops[1..][k + 1..] == ops[k + 2..];
    RunFirst(db, ops, k + 1);
  }

  lemma BornInStep(db: Db, op: Op, f: Id) returns (i: nat)
    requires Inv(db) && f !in db.facts && f in Next(db, op).facts
    ensures op.OpApplyExtraction? && BornFrom(Next(db, op).facts[f], op.extraction, i)
  {
    NewFactStep(db, op, f);
    var cmd := op.extraction;
    var db' := ApplyExtraction(db, cmd).value;
    Commits(db, cmd);
    BornAs(db, cmd, db', f);
    i :| BornFrom(db'.facts[f], cmd, i);
    hide ApplyExtraction, BornFrom;
  }

  // ---- Markers ------------------------------------------------------------------

  function ClaimOf(a: Assertion): (Triple, Validity) { (a.triple, a.valid) }

  /** As many survive as there are different claims and windows. */
  lemma KeptCount(batch: seq<Assertion>)
    requires Dedupe(batch).Ok? && forall a :: a in batch ==> a.valid.Valid()
    ensures |Dedupe(batch).value| == |set a | a in batch :: ClaimOf(a)|
  {
    var kept := Dedupe(batch).value;
    DedupeKeeps(batch);
    var claims := seq(|kept|, i requires 0 <= i < |kept| => ClaimOf(kept[i]));
    forall i, j | 0 <= i < j < |claims| ensures claims[i] != claims[j] {
      assert kept[i] in batch && kept[i].valid.Overlaps(kept[i].valid);
    }
    Sets.SizeOfElements(claims);
    SameClaims(batch, kept, claims);
    hide Dedupe, PairwiseApart;
  }

  lemma SameClaims(batch: seq<Assertion>, kept: seq<Assertion>, claims: seq<(Triple, Validity)>)
    requires (forall a :: a in kept ==> a in batch) && (forall a :: a in batch ==> Listed(kept, a))
    requires |claims| == |kept| && forall i :: 0 <= i < |kept| ==> claims[i] == ClaimOf(kept[i])
    ensures (set c | c in claims) == (set a | a in batch :: ClaimOf(a))
  {
    forall c ensures c in claims <==> exists a :: a in batch && ClaimOf(a) == c {
      if c in claims { var i :| 0 <= i < |claims| && claims[i] == c; assert kept[i] in batch; }
      if a :| a in batch && ClaimOf(a) == c {
        assert Listed(kept, a);
        var k :| 0 <= k < |kept| && kept[k].triple == a.triple && kept[k].valid == a.valid;
        assert claims[k] == c;
      }
    }
  }

  /** A committed extraction marks the episodes it names and no other: a new marker has its
      episode's scope and ingest time, counts the different claims asserted and is dated by the
      command, and one that was there stands as it was. */
  lemma MarksAs(db: Db, cmd: ExtractCommand, db': Db)
    requires Reads(db, OpApplyExtraction(cmd)) && ApplyExtraction(db, cmd) == Ok(db')
    ensures forall e, x :: (e, x) in db'.markers <==> (e, x) in db.markers || (x == cmd.extractor && e in cmd.episodes)
    ensures forall k :: k in db.markers ==> k in db'.markers && db'.markers[k] == db.markers[k]
    ensures forall k :: k in db'.markers && k !in db.markers ==>
      && k.0 in db.episodes && db.episodes[k.0].scope == cmd.scope
      && db'.markers[k] == Marker(cmd.scope, db.episodes[k.0].ingestedAt, |set a | a in cmd.asserts :: ClaimOf(a)|, cmd.at)
  {
    ReadsMeans(db, OpApplyExtraction(cmd));
    AllFound(db, cmd);
    forall a | a in cmd.asserts ensures a.valid.Valid() {}
    KeptCount(cmd.asserts);
    WithMarkersEffect(db, cmd, cmd.episodes, |Dedupe(cmd.asserts).value|);
    hide Reads, Dedupe, Concluded, WithMarkers, AlreadyRead;
  }

  /** This operation is a committed extraction by this extractor that names the episode. */
  ghost predicate ReadBy(db: Db, op: Op, e: Id, x: ExtractorId) {
    op.OpApplyExtraction? && ApplyExtraction(db, op.extraction).Ok? && op.extraction.extractor == x && e in op.extraction.episodes
  }

  ghost predicate ReadIn(db: Db, ops: seq<Op>, e: Id, x: ExtractorId)
    decreases |ops|
  {
    ops != [] && (ReadBy(db, ops[0], e, x) || ReadIn(Next(db, ops[0]), ops[1..], e, x))
  }

  lemma MarkedStep(db: Db, op: Op, e: Id, x: ExtractorId)
    requires Inv(db) && e in Next(db, op).episodes
    ensures (e, x) in Next(db, op).markers <==> (e, x) in db.markers || ReadBy(db, op, e, x)
  {
    if (e, x) in db.markers { MarkerStep(db, op, e, x); }
    if op.OpApplyExtraction? && ApplyExtraction(db, op.extraction).Ok? {
      ReadsMeans(db, op);
      Commits(db, op.extraction);
      if Reads(db, op) { MarksAs(db, op.extraction, Next(db, op)); } else { CommittedIsMarked(db, op.extraction, Next(db, op)); }
    }
    OpTouches(db, op);
    hide Next, Reads, Inv;
    if op.OpForget? { ForgetsMarkers(db, op.scope, op.ids); }
  }

  lemma ForgetsMarkers(db: Db, scope: ScopeId, ids: seq<Id>)
    ensures Forget(db, scope, ids).markers.Keys <= db.markers.Keys
  {}

  /** An episode recorded only later in a run has been neither marked nor read. */
  lemma NotYet(db: Db, ops: seq<Op>, e: Id, x: ExtractorId)
    requires Inv(db) && ops != [] && e in Run(db, ops).episodes && e !in Next(db, ops[0]).episodes
    ensures (e, x) !in db.markers && (e, x) !in Next(db, ops[0]).markers && !ReadBy(db, ops[0], e, x)
  {
    var mid := Next(db, ops[0]);
    StepKeepsInv(db, ops[0]);
    if (e, x) in db.markers { MarkedExists(db, e, x); }
    if (e, x) in mid.markers { MarkedExists(mid, e, x); }
    if e < mid.minted { EpisodesImmutable(mid, ops[1..], e); }
    if ReadBy(db, ops[0], e, x) { Commits(db, ops[0].extraction); CommittedIsMarked(db, ops[0].extraction, mid); }
    hide Next, Inv, ApplyExtraction;
  }

  lemma MarkedExists(db: Db, e: Id, x: ExtractorId)
    requires Inv(db) && (e, x) in db.markers
    ensures e in db.episodes && e < db.minted
  {
    assert OfEpisode(db, e, db.markers[(e, x)].scope, db.markers[(e, x)].ingestedAt);
  }

  /** Across any run an episode that stands is marked for an extractor exactly if it was, or some
      extraction by that extractor that named it has committed. */
  lemma {:induction false} MarkedIffRead(db: Db, ops: seq<Op>, e: Id, x: ExtractorId)
    requires Inv(db) && e in Run(db, ops).episodes
    ensures (e, x) in Run(db, ops).markers <==> (e, x) in db.markers || ReadIn(db, ops, e, x)
    decreases |ops|
  {
    hide Next, Inv, ReadBy;
    if ops != [] {
      var mid := Next(db, ops[0]);
      StepKeepsInv(db, ops[0]);
      MarkedIffRead(mid, ops[1..], e, x);
      if e in mid.episodes { MarkedStep(db, ops[0], e, x); } else { NotYet(db, ops, e, x); }
    }
  }

  // ---- When an extraction is refused ----------------------------------------------

  ghost predicate WellMade(cmd: ExtractCommand) {
    && cmd.episodes != [] && |cmd.asserts| <= 64 && |cmd.retracts| <= 64
    && forall a :: a in cmd.asserts ==> a.valid.to.None? || a.valid.from < a.valid.to.value
  }

  predicate Within(v: Validity, t: Instant) { v.from <= t && (v.to.None? || t < v.to.value) }

  /** Two windows share an instant. */
  ghost predicate Share(v: Validity, w: Validity) { exists t :: Within(v, t) && Within(w, t) }

  ghost predicate SelfContradictory(cmd: ExtractCommand) {
    exists a, b :: a in cmd.asserts && b in cmd.asserts && a.triple == b.triple && a.valid != b.valid && Share(a.valid, b.valid)
  }

  ghost predicate AllThere(db: Db, cmd: ExtractCommand) {
    Sets.Distinct(cmd.episodes) && forall e :: e in cmd.episodes ==> e in db.episodes && db.episodes[e].scope == cmd.scope
  }

  /** The first retraction that names no fact of the scope, or an instant not after its start. */
  ghost predicate FirstBad(facts: map<Id, Fact>, cmd: ExtractCommand, i: nat) {
    && i < |cmd.retracts| && !Retractable(facts, cmd.scope, cmd.retracts[i])
    && forall k :: 0 <= k < i ==> Retractable(facts, cmd.scope, cmd.retracts[k])
  }

  /** A stored window of this claim shares an instant with the one asserted. */
  ghost predicate Taken(facts: map<Id, Fact>, cmd: ExtractCommand, a: Assertion) {
    exists f :: f in facts && facts[f].scope == cmd.scope && facts[f].extractor == cmd.extractor && facts[f].triple == a.triple
                && Share(facts[f].valid, a.valid)
  }

  /** And that is so of a claim that is to be stored, none of its windows being stored already. */
  ghost predicate Believed(facts: map<Id, Fact>, cmd: ExtractCommand) {
    exists a :: a in cmd.asserts && !TripleStored(facts, cmd, a.triple) && Taken(facts, cmd, a)
  }

  lemma ShareMeans(v: Validity, w: Validity)
    requires v.Valid() && w.Valid()
    ensures Share(v, w) <==> v.Overlaps(w)
  {
    OverlapsIffShared(v, w);
    forall t ensures Within(v, t) <==> v.Contains(t) {}
  }

  lemma WellMadeMeans(cmd: ExtractCommand)
    ensures WellMade(cmd) <==> cmd.Valid()
    ensures WellMade(cmd) ==> forall a :: a in cmd.asserts ==> a.valid.Valid()
  {
    forall i | 0 <= i < |cmd.asserts| ensures cmd.asserts[i] in cmd.asserts {}
  }

  lemma SelfContradictoryMeans(cmd: ExtractCommand)
    requires forall a :: a in cmd.asserts ==> a.valid.Valid()
    ensures SelfContradictory(cmd) <==> Dedupe(cmd.asserts).Err?
    ensures Dedupe(cmd.asserts).Err? ==> Dedupe(cmd.asserts).error == FactConflict
  {
    DedupeRejectsContradictions(cmd.asserts);
    if Dedupe(cmd.asserts).Err? { DedupeRefusalHasCause(cmd.asserts); }
    forall a, b | a in cmd.asserts && b in cmd.asserts ensures Share(a.valid, b.valid) <==> a.valid.Overlaps(b.valid) {
      ShareMeans(a.valid, b.valid);
    }
    if SelfContradictory(cmd) {
      var a, b :| a in cmd.asserts && b in cmd.asserts && a.triple == b.triple && a.valid != b.valid && Share(a.valid, b.valid);
      assert Contradict(a, b);
    }
    hide Dedupe, Share;
  }

  /** The first retraction that cannot be applied decides the error. */
  lemma {:induction false} FirstBadDecides(facts: map<Id, Fact>, scope: ScopeId, rs: seq<Retraction>, at: Instant, i: nat)
    requires i < |rs| && !Retractable(facts, scope, rs[i]) && forall k :: 0 <= k < i ==> Retractable(facts, scope, rs[k])
    ensures RetractAll(facts, scope, rs, at) ==
      Err(if rs[i].fact in facts && facts[rs[i].fact].scope == scope then InvalidValidity else NotFound)
  {
    var n := |rs| - 1;
    RetractAllAccepts(facts, scope, rs[..n], at);
    if i < n {
      assert forall k :: 0 <= k <= i ==> rs[..n][k] == rs[k];
      FirstBadDecides(facts, scope, rs[..n], at, i);
    } else {
      forall r | r in rs[..n] ensures Retractable(facts, scope, r) {}
    }
  }

  lemma {:induction false} InsertsApart(facts: map<Id, Fact>, all: seq<Assertion>, batch: seq<Assertion>, cmd: ExtractCommand)
    requires PairwiseApart(batch)
    ensures PairwiseApart(ToInsert(facts, all, batch, cmd))
  {
    if batch != [] {
      var n := |batch| - 1;
      var before := ToInsert(facts, all, batch[..n], cmd);
      InsertsApart(facts, all, batch[..n], cmd);
      InsertedAreInBatch(facts, all, batch[..n], cmd);
      forall i | 0 <= i < |before| && before[i].triple == batch[n].triple ensures !before[i].valid.Overlaps(batch[n].valid) {
        assert before[i] in batch[..n];
        var k :| 0 <= k < n && batch[k] == before[i];
      }
    }
  }

  /** Past the retractions, a conflict with what is stored is the one thing left to go wrong. */
  lemma ConcludedRefused(facts: map<Id, Fact>, first: Id, cmd: ExtractCommand)
    requires Windows(facts) && (forall id :: id in facts ==> id < first) && WellMade(cmd)
    requires Dedupe(cmd.asserts).Ok? && RetractAll(facts, cmd.scope, cmd.retracts, cmd.at).Ok?
    ensures var (batch, cut) := (Dedupe(cmd.asserts).value, RetractAll(facts, cmd.scope, cmd.retracts, cmd.at).value);
      Concluded(facts, first, cmd, batch).Err? <==> Believed(cut, cmd)
    ensures Concluded(facts, first, cmd, Dedupe(cmd.asserts).value).Err? ==>
      Concluded(facts, first, cmd, Dedupe(cmd.asserts).value).error == FactConflict
  {
    var batch, cut := Dedupe(cmd.asserts).value, RetractAll(facts, cmd.scope, cmd.retracts, cmd.at).value;
    var rows := ToInsert(cut, batch, batch, cmd);
    WellMadeMeans(cmd);
    DedupeKeeps(cmd.asserts);
    RetractAllAccepts(facts, cmd.scope, cmd.retracts, cmd.at);
    CuttingKeepsWindows(facts, cmd.scope, cmd.retracts, cmd.at);
    InsertsApart(cut, batch, batch, cmd);
    ConflictIsWithStored(RefreshAll(cut, batch, cmd), first, rows, cmd);
    CollidingMeans(cut, cmd, batch, rows);
    OnlyConflicts(RefreshAll(cut, batch, cmd), first, rows, cmd);
    hide Dedupe, RetractAll, InsertFacts, RefreshAll, ToInsert, Believed, Collides, Windows, WellMade;
  }

  lemma {:induction false} OnlyConflicts(facts: map<Id, Fact>, first: Id, rows: seq<Assertion>, cmd: ExtractCommand)
    ensures InsertFacts(facts, first, rows, cmd).Err? ==> InsertFacts(facts, first, rows, cmd).error == FactConflict
  {
    if rows != [] { OnlyConflicts(facts, first, rows[..|rows| - 1], cmd); }
    hide NewFact, Collides;
  }

  lemma CollidingMeans(cut: map<Id, Fact>, cmd: ExtractCommand, batch: seq<Assertion>, rows: seq<Assertion>)
    requires Dedupe(cmd.asserts) == Ok(batch) && rows == ToInsert(cut, batch, batch, cmd) && Windows(cut)
    requires forall a :: a in cmd.asserts ==> a.valid.Valid()
    ensures (exists i :: 0 <= i < |rows| && Collides(RefreshAll(cut, batch, cmd), NewFact(rows[i], cmd))) <==> Believed(cut, cmd)
  {
    hide *;
    if i :| 0 <= i < |rows| && Collides(RefreshAll(cut, batch, cmd), NewFact(rows[i], cmd)) {
      CollidingIsBelieved(cut, cmd, batch, rows[i]);
    }
    if Believed(cut, cmd) {
      var i := BelievedCollides(cut, cmd, batch, rows);
    }
  }

  lemma CollidingIsBelieved(cut: map<Id, Fact>, cmd: ExtractCommand, batch: seq<Assertion>, a: Assertion)
    requires Dedupe(cmd.asserts) == Ok(batch) && a in ToInsert(cut, batch, batch, cmd) && Windows(cut)
    requires forall b :: b in cmd.asserts ==> b.valid.Valid()
    requires Collides(RefreshAll(cut, batch, cmd), NewFact(a, cmd))
    ensures Believed(cut, cmd)
  {
    hide Dedupe, ToInsert, TripleRefreshed, TripleStored, RefreshAll, Windows, Collides, Taken, PairwiseApart;
    DedupeKeeps(cmd.asserts);
    InsertedAreInBatch(cut, batch, batch, cmd);
    TripleStoredMeans(cut, cmd, a.triple);
    CollidesMeans(cut, cmd, batch, a);
  }

  lemma BelievedCollides(cut: map<Id, Fact>, cmd: ExtractCommand, batch: seq<Assertion>, rows: seq<Assertion>) returns (i: nat)
    requires Dedupe(cmd.asserts) == Ok(batch) && rows == ToInsert(cut, batch, batch, cmd) && Windows(cut)
    requires (forall a :: a in cmd.asserts ==> a.valid.Valid()) && Believed(cut, cmd)
    ensures i < |rows| && Collides(RefreshAll(cut, batch, cmd), NewFact(rows[i], cmd))
  {
    var a :| a in cmd.asserts && !TripleStored(cut, cmd, a.triple) && Taken(cut, cmd, a);
    hide *;
    var b := Survivor(cmd.asserts, a);
    SameTaken(cut, cmd, a, b);
    ToBeInserted(cut, cmd, batch, b);
    CollidesMeans(cut, cmd, batch, b);
    i := PlaceOf(rows, b);
  }

  lemma PlaceOf<T>(s: seq<T>, x: T) returns (i: nat)
    requires x in s
    ensures i < |s| && s[i] == x
  {
    i :| i < |s| && s[i] == x;
  }

  lemma ToBeInserted(cut: map<Id, Fact>, cmd: ExtractCommand, batch: seq<Assertion>, b: Assertion)
    requires Dedupe(cmd.asserts) == Ok(batch) && b in batch
    ensures b in ToInsert(cut, batch, batch, cmd) <==> !TripleStored(cut, cmd, b.triple)
  {
    hide Dedupe, ToInsert, TripleRefreshed, TripleStored;
    InsertedAreInBatch(cut, batch, batch, cmd);
    TripleStoredMeans(cut, cmd, b.triple);
  }

  lemma SameTaken(facts: map<Id, Fact>, cmd: ExtractCommand, a: Assertion, b: Assertion)
    requires a.triple == b.triple && a.valid == b.valid
    ensures Taken(facts, cmd, a) <==> Taken(facts, cmd, b)
  {}

  /** Refreshing moves no window, so a new row collides exactly where its window was taken. */
  lemma CollidesMeans(cut: map<Id, Fact>, cmd: ExtractCommand, batch: seq<Assertion>, a: Assertion)
    requires Windows(cut) && a.valid.Valid()
    ensures Collides(RefreshAll(cut, batch, cmd), NewFact(a, cmd)) <==> Taken(cut, cmd, a)
  {
    var facts := RefreshAll(cut, batch, cmd);
    forall f | f in cut
      ensures f in facts && facts[f].valid == cut[f].valid && SameKey(facts[f], cut[f])
      ensures Share(cut[f].valid, a.valid) <==> cut[f].valid.Overlaps(a.valid)
    {
      ShareMeans(cut[f].valid, a.valid);
    }
    hide Restating, Share;
  }

  /** Well made, consistent, and of episodes that are there. */
  ghost predicate Sound(db: Db, cmd: ExtractCommand) { WellMade(cmd) && !SelfContradictory(cmd) && AllThere(db, cmd) }

  ghost predicate AllRead(db: Db, cmd: ExtractCommand) { forall e :: e in cmd.episodes ==> (e, cmd.extractor) in db.markers }

  /** What an extraction comes to, in the order it is checked: malformed, contradicting itself,
      naming an episode twice or one that is not there; read before, with nothing to do; holding
      a retraction that cannot be applied; in conflict with what is believed; or committed. */
  lemma Outcome(db: Db, cmd: ExtractCommand)
    requires Inv(db)
    ensures !WellMade(cmd) ==> ApplyExtraction(db, cmd) == Err(InvalidExtraction)
    ensures WellMade(cmd) && SelfContradictory(cmd) ==> ApplyExtraction(db, cmd) == Err(FactConflict)
    ensures WellMade(cmd) && !SelfContradictory(cmd) && !AllThere(db, cmd) ==> ApplyExtraction(db, cmd) == Err(NotFound)
    ensures Sound(db, cmd) && AllRead(db, cmd) ==> ApplyExtraction(db, cmd) == Ok(db)
    ensures Sound(db, cmd) && !AllRead(db, cmd) ==> forall i: nat :: FirstBad(db.facts, cmd, i) ==>
      ApplyExtraction(db, cmd) ==
        Err(if cmd.retracts[i].fact in db.facts && db.facts[cmd.retracts[i].fact].scope == cmd.scope then InvalidValidity else NotFound)
    ensures Sound(db, cmd) && !AllRead(db, cmd) && (forall r :: r in cmd.retracts ==> Retractable(db.facts, cmd.scope, r)) ==>
      var (r, cut) := (ApplyExtraction(db, cmd), RetractAll(db.facts, cmd.scope, cmd.retracts, cmd.at));
      cut.Ok? && (r.Err? <==> Believed(cut.value, cmd)) && (r.Err? ==> r.error == FactConflict)
  {
    WellMadeMeans(cmd);
    if WellMade(cmd) {
      SelfContradictoryMeans(cmd);
      if !SelfContradictory(cmd) {
        DuplicateNamesRefused(db, cmd);
        if AllThere(db, cmd) {
          AllFound(db, cmd);
          assert AlreadyRead(db, cmd) <==> AllRead(db, cmd);
          forall i: nat | FirstBad(db.facts, cmd, i) ensures RetractAll(db.facts, cmd.scope, cmd.retracts, cmd.at) ==
            Err(if cmd.retracts[i].fact in db.facts && db.facts[cmd.retracts[i].fact].scope == cmd.scope then InvalidValidity else NotFound)
          {
            FirstBadDecides(db.facts, cmd.scope, cmd.retracts, cmd.at, i);
          }
          RetractAllAccepts(db.facts, cmd.scope, cmd.retracts, cmd.at);
          if RetractAll(db.facts, cmd.scope, cmd.retracts, cmd.at).Ok? { ConcludedRefused(db.facts, db.minted, cmd); }
        }
      }
    }
    hide Dedupe, RetractAll, WithMarkers, Believed, SelfContradictory, ToInsert, InsertFacts, RefreshAll;
  }
}
