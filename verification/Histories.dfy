/** Claims about whole runs of the store: any sequence of operations by any number
    of clients and workers, starting from any state that satisfies the invariant. */
module Histories {
  import opened Model
  import opened Tables
  import opened FactAlgebra
  import opened Invariants

  // ---- Immutability and erasure ---------------------------------------------

  lemma AppendIsOk(db: Db, cmd: AppendCommand)
    requires cmd.Valid()
    ensures Append(db, cmd).Ok?
  {}

  lemma AppendRefused(db: Db, cmd: AppendCommand)
    requires !cmd.Valid()
    ensures Kept(db, Append(db, cmd)) == db
  {}

  lemma LogIdsBelow(db: Db)
    requires LogInv(db)
    ensures forall e :: e in db.episodes ==> e < db.minted
  {}

  lemma EpisodeStep(db: Db, op: Op, e: Id)
    requires LogInv(db) && e < db.minted
    ensures e in Next(db, op).episodes ==> e in db.episodes && Next(db, op).episodes[e] == db.episodes[e]
  {
    OpTouches(db, op);
    hide Next, Append;
    if op.OpAppend? && op.append.Valid() { AppendIsOk(db, op.append); AppendTakesBlock(db, op.append); }
    if op.OpAppend? && !op.append.Valid() { AppendRefused(db, op.append); }
  }

  /** A surviving episode row never changes, and one that is gone never returns. */
  lemma {:induction false} EpisodesImmutable(db: Db, ops: seq<Op>, e: Id)
    requires LogInv(db) && e < db.minted
    ensures e in Run(db, ops).episodes ==> e in db.episodes && Run(db, ops).episodes[e] == db.episodes[e]
    decreases |ops|
  {
    if ops != [] {
      EpisodeStep(db, ops[0], e);
      LogStep(db, ops[0]);
      EpisodesImmutable(Next(db, ops[0]), ops[1..], e);
    }
  }

  /** No encoding, extraction marker or fact names this episode. */
  ghost predicate NothingNames(db: Db, e: Id) {
    && (forall k :: k in db.encodings ==> k.0 != e)
    && (forall k :: k in db.markers ==> k.0 != e)
    && (forall f :: f in db.facts ==> e !in db.facts[f].episodes)
  }

  lemma MissingIsUnnamed(db: Db, e: Id)
    requires ProjectionInv(db) && e !in db.episodes
    ensures NothingNames(db, e)
  {
    forall k | k in db.encodings ensures k.0 != e {
      assert OfEpisode(db, k.0, db.encodings[k].scope, db.encodings[k].ingestedAt);
    }
    forall k | k in db.markers ensures k.0 != e {
      assert OfEpisode(db, k.0, db.markers[k].scope, db.markers[k].ingestedAt);
    }
    forall f | f in db.facts ensures e !in db.facts[f].episodes { assert Derived(db, db.facts[f]); }
  }

  /** What erasure is for: once an episode is gone, nothing derived from it stands, and no
      later operation makes anything name it again, including late writes with any arguments
      by workers that were holding it. An operation is one step here; `Transactions` says what
      becomes of this when it is not. */
  lemma ErasedForGood(db: Db, scope: ScopeId, ids: seq<Id>, later: seq<Op>, e: Id)
    requires Inv(db) && e in db.episodes && db.episodes[e].scope == scope && Named(ids, e)
    ensures e !in Run(Next(db, OpForget(scope, ids)), later).episodes
    ensures NothingNames(Run(Next(db, OpForget(scope, ids)), later), e)
  {
    var erased := Next(db, OpForget(scope, ids));
    assert e !in erased.episodes;
    StepKeepsInv(db, OpForget(scope, ids));
    RunKeepsInv(erased, later);
    EpisodesImmutable(erased, later, e);
    MissingIsUnnamed(Run(erased, later), e);
  }

  /** Erasure reaches only what it names: rows of other scopes, and rows of the scope that
      derive from none of the named episodes, stand exactly as they were. */
  lemma ErasureSparesTheRest(db: Db, scope: ScopeId, ids: seq<Id>)
    requires Inv(db)
    ensures var db' := Forget(db, scope, ids);
      && (forall e :: e in db.episodes && (db.episodes[e].scope != scope || !Named(ids, e)) ==>
            e in db'.episodes && db'.episodes[e] == db.episodes[e]
            && (forall m :: (e, m) in db.encodings ==> (e, m) in db'.encodings && db'.encodings[(e, m)] == db.encodings[(e, m)])
            && (forall x :: (e, x) in db.markers ==> (e, x) in db'.markers && db'.markers[(e, x)] == db.markers[(e, x)]))
      && (forall f :: f in db.facts && (forall e :: e in db.facts[f].episodes ==> e in db'.episodes) ==>
            f in db'.facts && db'.facts[f] == db.facts[f])
  {
    var db' := Forget(db, scope, ids);
    ErasureSparesProjections(db, scope, ids);
    forall f | f in db.facts && (forall e :: e in db.facts[f].episodes ==> e in db'.episodes)
      ensures f in db'.facts && db'.facts[f] == db.facts[f]
    {
      ErasureSparesFact(db, scope, ids, f);
    }
    hide Inv;
  }

  lemma ErasureSparesProjections(db: Db, scope: ScopeId, ids: seq<Id>)
    requires ProjectionInv(db)
    ensures var db' := Forget(db, scope, ids);
      && (forall k :: k in db.encodings && k.0 in db'.episodes ==> k in db'.encodings && db'.encodings[k] == db.encodings[k])
      && (forall k :: k in db.markers && k.0 in db'.episodes ==> k in db'.markers && db'.markers[k] == db.markers[k])
  {
    var db' := Forget(db, scope, ids);
    forall k | k in db.encodings && k.0 in db'.episodes ensures k in db'.encodings && db'.encodings[k] == db.encodings[k] {
      assert OfEpisode(db, k.0, db.encodings[k].scope, db.encodings[k].ingestedAt);
    }
    forall k | k in db.markers && k.0 in db'.episodes ensures k in db'.markers && db'.markers[k] == db.markers[k] {
      assert OfEpisode(db, k.0, db.markers[k].scope, db.markers[k].ingestedAt);
    }
  }

  lemma ErasureSparesFact(db: Db, scope: ScopeId, ids: seq<Id>, f: Id)
    requires ProjectionInv(db) && f in db.facts && forall e :: e in db.facts[f].episodes ==> e in Forget(db, scope, ids).episodes
    ensures f in Forget(db, scope, ids).facts && Forget(db, scope, ids).facts[f] == db.facts[f]
  {
    assert Derived(db, db.facts[f]);
    var e :| e in db.facts[f].episodes;
    assert e in Forget(db, scope, ids).episodes && db.episodes[e].scope == db.facts[f].scope;
  }

  // ---- Sequence numbers -----------------------------------------------------

  predicate ErasesScope(op: Op, scope: ScopeId) { op.OpForget? && op.scope == scope && op.ids == [] }

  predicate ErasesFrom(op: Op, scope: ScopeId) { op.OpForget? && op.scope == scope }

  lemma SeqStep(db: Db, op: Op, scope: ScopeId, e: Id)
    requires LogInv(db) && !ErasesScope(op, scope)
    ensures LastSeq(db, scope) <= LastSeq(Next(db, op), scope)
    ensures e in Next(db, op).episodes && Next(db, op).episodes[e].scope == scope && e !in db.episodes
            ==> LastSeq(db, scope) < Next(db, op).episodes[e].seqNo
  {
    OpTouches(db, op);
    hide Next, Append;
    if op.OpAppend? && op.append.Valid() { AppendIsOk(db, op.append); AppendTakesBlock(db, op.append); }
    if op.OpAppend? && !op.append.Valid() { AppendRefused(db, op.append); }
  }

  /** Until the whole scope is erased, an episode appended later sits above every number
      handed out before, so no number is ever used twice. */
  lemma {:induction false} SeqsNeverRepeat(db: Db, ops: seq<Op>, scope: ScopeId, e: Id)
    requires LogInv(db) && forall i :: 0 <= i < |ops| ==> !ErasesScope(ops[i], scope)
    ensures LastSeq(db, scope) <= LastSeq(Run(db, ops), scope)
    ensures e in Run(db, ops).episodes && Run(db, ops).episodes[e].scope == scope && e !in db.episodes
            ==> LastSeq(db, scope) < Run(db, ops).episodes[e].seqNo
    decreases |ops|
  {
    if ops != [] {
      var mid := Next(db, ops[0]);
      SeqStep(db, ops[0], scope, e);
      LogStep(db, ops[0]);
      SeqsNeverRepeat(mid, ops[1..], scope, e);
      if e in Run(db, ops).episodes && e in mid.episodes { EpisodesImmutable(mid, ops[1..], e); }
    }
  }

  ghost predicate Dense(db: Db, scope: ScopeId) {
    forall k :: 1 <= k <= LastSeq(db, scope) ==> SeqTaken(db, scope, k)
  }

  ghost predicate SeqTaken(db: Db, scope: ScopeId, k: int) {
    exists e :: e in db.episodes && db.episodes[e].scope == scope && db.episodes[e].seqNo == k
  }

  lemma DenseAppend(db: Db, cmd: AppendCommand, db': Db, scope: ScopeId)
    requires LogInv(db) && Dense(db, scope) && cmd.episodes != [] && TakesBlock(db, cmd, db')
    ensures Dense(db', scope)
  {
    forall k | 1 <= k <= LastSeq(db', scope) ensures SeqTaken(db', scope, k) {
      if k <= LastSeq(db, scope) {
        assert SeqTaken(db, scope, k);
        var e :| e in db.episodes && db.episodes[e].scope == scope && db.episodes[e].seqNo == k;
        assert db'.episodes[e] == db.episodes[e];
      } else {
        var e := db.minted + (k - LastSeq(db, scope) - 1);
        assert e in db'.episodes && db'.episodes[e].seqNo == k;
      }
    }
  }

  lemma DenseForget(db: Db, s: ScopeId, ids: seq<Id>, scope: ScopeId)
    requires Dense(db, scope) && s != scope
    ensures Dense(Forget(db, s, ids), scope)
  {
    var db' := Forget(db, s, ids);
    forall k | 1 <= k <= LastSeq(db', scope) ensures SeqTaken(db', scope, k) {
      assert SeqTaken(db, scope, k);
      var e :| e in db.episodes && db.episodes[e].scope == scope && db.episodes[e].seqNo == k;
      assert db'.episodes[e] == db.episodes[e];
    }
  }

  lemma DenseStep(db: Db, op: Op, scope: ScopeId)
    requires LogInv(db) && Dense(db, scope) && !ErasesFrom(op, scope)
    ensures Dense(Next(db, op), scope)
  {
    OpTouches(db, op);
    hide Next, Append, Forget, Dense, LogInv;
    if op.OpAppend? {
      if op.append.Valid() {
        AppendIsOk(db, op.append);
        LogIdsBelow(db);
        AppendTakesBlock(db, op.append);
        DenseAppend(db, op.append, Append(db, op.append).value, scope);
      } else {
        AppendRefused(db, op.append);
      }
    } else if op.OpForget? {
      DenseForget(db, op.scope, op.ids, scope);
    } else {
      SameLog(db, Next(db, op), scope);
    }
  }

  lemma SameLog(db: Db, db': Db, scope: ScopeId)
    requires Dense(db, scope) && db'.scopes == db.scopes && db'.episodes == db.episodes
    ensures Dense(db', scope)
  {
    forall k | 1 <= k <= LastSeq(db', scope) ensures SeqTaken(db', scope, k) { assert SeqTaken(db, scope, k); }
  }

  /** If nothing was erased from a scope, its numbers are exactly 1..LastSeq, each used once. */
  lemma {:induction false} SeqsAreDense(db: Db, ops: seq<Op>, scope: ScopeId)
    requires LogInv(db) && Dense(db, scope) && forall i :: 0 <= i < |ops| ==> !ErasesFrom(ops[i], scope)
    ensures Dense(Run(db, ops), scope) && LogInv(Run(db, ops))
    decreases |ops|
  {
    if ops != [] {
      DenseStep(db, ops[0], scope);
      LogStep(db, ops[0]);
      SeqsAreDense(Next(db, ops[0]), ops[1..], scope);
    }
  }

  /** After a whole scope is erased its log starts again: the next append numbers its episodes
      from one, and they are all the scope holds. */
  lemma ScopeStartsAgain(db: Db, scope: ScopeId, cmd: AppendCommand)
    requires Inv(db) && cmd.Valid() && cmd.episodes[0].scope == scope
    ensures var (erased, db') := (Forget(db, scope, []), Append(Forget(db, scope, []), cmd).value);
      && scope !in erased.scopes && (forall e :: e in erased.episodes ==> erased.episodes[e].scope != scope)
      && db'.scopes == erased.scopes[scope := |cmd.episodes|]
      && (forall e :: e in db'.episodes && db'.episodes[e].scope == scope ==>
            1 <= db'.episodes[e].seqNo <= |cmd.episodes| && db'.episodes[e].body == cmd.episodes[db'.episodes[e].seqNo - 1].body)
  {
    hide Inv, Append, Forget, TakesBlock;
    var erased := Forget(db, scope, []);
    ScopeGone(db, scope);
    AppendIsOk(erased, cmd);
    AppendTakesBlock(erased, cmd);
    OnlyTheBlock(erased, cmd, Append(erased, cmd).value);
  }

  lemma ScopeGone(db: Db, scope: ScopeId)
    requires Inv(db)
    ensures var erased := Forget(db, scope, []);
      scope !in erased.scopes && forall e :: e in erased.episodes ==> erased.episodes[e].scope != scope && e < erased.minted
  {
    hide ProjectionInv, Windows, QueueInv;
  }

  lemma OnlyTheBlock(db: Db, cmd: AppendCommand, db': Db)
    requires cmd.episodes != [] && TakesBlock(db, cmd, db') && cmd.episodes[0].scope !in db.scopes
    requires forall e :: e in db.episodes ==> db.episodes[e].scope != cmd.episodes[0].scope
    ensures db'.scopes == db.scopes[cmd.episodes[0].scope := |cmd.episodes|]
    ensures forall e :: e in db'.episodes && db'.episodes[e].scope == cmd.episodes[0].scope ==>
      1 <= db'.episodes[e].seqNo <= |cmd.episodes| && db'.episodes[e].body == cmd.episodes[db'.episodes[e].seqNo - 1].body
  {}

  // ---- Replay is free -------------------------------------------------------

  lemma MarkersKeptByExtraction(db: Db, cmd: ExtractCommand, k: (Id, ExtractorId))
    requires k in db.markers
    ensures var db' := Next(db, OpApplyExtraction(cmd)); k in db'.markers && db'.markers[k] == db.markers[k]
  {
    if ApplyExtraction(db, cmd).Ok? && !AlreadyRead(db, cmd) {
      WithMarkersEffect(db, cmd, cmd.episodes, |Dedupe(cmd.asserts).value|);
    }
  }

  lemma MarkerStep(db: Db, op: Op, e: Id, x: ExtractorId)
    requires LogInv(db) && ProjectionInv(db) && (e, x) in db.markers && e in Next(db, op).episodes
    ensures (e, x) in Next(db, op).markers && Next(db, op).markers[(e, x)] == db.markers[(e, x)]
  {
    assert OfEpisode(db, e, db.markers[(e, x)].scope, db.markers[(e, x)].ingestedAt);
    OpTouches(db, op);
    hide Next, ApplyExtraction;
    if op.OpApplyExtraction? { MarkersKeptByExtraction(db, op.extraction, (e, x)); }
  }

  lemma {:induction false} MarkersStand(db: Db, ops: seq<Op>, e: Id, x: ExtractorId)
    requires Inv(db) && (e, x) in db.markers && e in Run(db, ops).episodes
    ensures (e, x) in Run(db, ops).markers && Run(db, ops).markers[(e, x)] == db.markers[(e, x)]
    decreases |ops|
  {
    if ops != [] {
      assert OfEpisode(db, e, db.markers[(e, x)].scope, db.markers[(e, x)].ingestedAt);
      StepKeepsInv(db, ops[0]);
      EpisodesImmutable(Next(db, ops[0]), ops[1..], e);
      MarkerStep(db, ops[0], e, x);
      MarkersStand(Next(db, ops[0]), ops[1..], e, x);
    }
  }

  /** A committed extraction has marked every episode it named. */
  lemma CommittedIsMarked(db: Db, cmd: ExtractCommand, committed: Db)
    requires ApplyExtraction(db, cmd) == Ok(committed)
    ensures forall e :: e in cmd.episodes ==> (e, cmd.extractor) in committed.markers
  {
    AllFound(db, cmd);
    WithMarkersEffect(db, cmd, cmd.episodes, |Dedupe(cmd.asserts).value|);
    forall e | e in cmd.episodes ensures (e, cmd.extractor) in committed.markers {
      assert e in FoundEpisodes(db, cmd);
    }
  }

  /** Replaying is free: once an extraction has committed, applying any extraction of a
      subset of its episodes by the same extractor, whatever it asserts or retracts, at
      whatever later point those episodes still stand, changes no table at all. */
  lemma ReplayIsFree(db: Db, first: ExtractCommand, committed: Db, ops: seq<Op>, again: ExtractCommand)
    requires Inv(db) && ApplyExtraction(db, first) == Ok(committed)
    requires again.extractor == first.extractor
    requires forall e :: e in again.episodes ==> e in first.episodes && e in Run(committed, ops).episodes
    ensures Next(Run(committed, ops), OpApplyExtraction(again)) == Run(committed, ops)
  {
    CommittedIsMarked(db, first, committed);
    CommittedKeepsInv(db, first, committed);
    MarkedReplayIsFree(committed, ops, again);
  }

  lemma CommittedKeepsInv(db: Db, cmd: ExtractCommand, committed: Db)
    requires Inv(db) && ApplyExtraction(db, cmd) == Ok(committed)
    ensures Inv(committed)
  {
    StepKeepsInv(db, OpApplyExtraction(cmd));
    assert Next(db, OpApplyExtraction(cmd)) == committed;
  }

  lemma MarkedReplayIsFree(db: Db, ops: seq<Op>, again: ExtractCommand)
    requires Inv(db) && forall e :: e in again.episodes ==> (e, again.extractor) in db.markers
    requires forall e :: e in again.episodes ==> e in Run(db, ops).episodes
    ensures Next(Run(db, ops), OpApplyExtraction(again)) == Run(db, ops)
  {
    forall e | e in again.episodes ensures (e, again.extractor) in Run(db, ops).markers {
      MarkersStand(db, ops, e, again.extractor);
    }
    ReadChangesNothing(Run(db, ops), again);
  }

  /** Every named episode was read before: accepted or refused, the tables stand. */
  lemma ReadChangesNothing(db: Db, cmd: ExtractCommand)
    requires forall e :: e in cmd.episodes ==> (e, cmd.extractor) in db.markers
    ensures Next(db, OpApplyExtraction(cmd)) == db
  {
    assert AlreadyRead(db, cmd);
  }

  // ---- The past stays answerable --------------------------------------------

  /** The retraction instants an operation commits for a fact. */
  function CutsBy(db: Db, op: Op, f: Id): set<Instant> {
    if op.OpApplyExtraction? && ApplyExtraction(db, op.extraction).Ok? && !AlreadyRead(db, op.extraction)
    then CutsFor(op.extraction.retracts, f) else {}
  }

  function RunCuts(db: Db, ops: seq<Op>, f: Id): set<Instant>
    decreases |ops|
  {
    if ops == [] then {} else CutsBy(db, ops[0], f) + RunCuts(Next(db, ops[0]), ops[1..], f)
  }

  ghost predicate SameClaim(f: Fact, f': Fact) {
    SameKey(f, f') && f'.assertedAt == f.assertedAt && f'.valid.from == f.valid.from
  }

  lemma FactStepExtraction(db: Db, cmd: ExtractCommand, f: Id)
    requires ProjectionInv(db) && f < db.minted && f in Next(db, OpApplyExtraction(cmd)).facts
    ensures var f' := Next(db, OpApplyExtraction(cmd)).facts[f];
      && f in db.facts && SameClaim(db.facts[f], f')
      && IsEarliest(f'.valid.to, db.facts[f].valid.to, CutsBy(db, OpApplyExtraction(cmd), f))
  {
    if ApplyExtraction(db, cmd).Ok? && !AlreadyRead(db, cmd) {
      ConcludedRows(db.facts, db.minted, cmd, Dedupe(cmd.asserts).value);
    }
  }

  /** Only extractions and erasures change facts, and an erasure only removes them. */
  lemma FactsOtherwiseStand(db: Db, op: Op, f: Id)
    requires !op.OpApplyExtraction? && f in Next(db, op).facts
    ensures f in db.facts && Next(db, op).facts[f] == db.facts[f]
  {
    OpTouches(db, op);
    hide Next;
  }

  lemma FactStep(db: Db, op: Op, f: Id)
    requires ProjectionInv(db) && f < db.minted && f in Next(db, op).facts
    ensures f in db.facts && SameClaim(db.facts[f], Next(db, op).facts[f])
    ensures IsEarliest(Next(db, op).facts[f].valid.to, db.facts[f].valid.to, CutsBy(db, op, f))
  {
    if op.OpApplyExtraction? {
      FactStepExtraction(db, op.extraction, f);
    } else {
      FactsOtherwiseStand(db, op, f);
    }
  }

  /** Across any run, a surviving fact keeps its claim, its start and when it was learned,
      and ends at the earliest of its original end and every committed retraction of it. */
  lemma {:induction false} WindowHistory(db: Db, ops: seq<Op>, f: Id)
    requires Inv(db) && f < db.minted && f in Run(db, ops).facts
    ensures f in db.facts && SameClaim(db.facts[f], Run(db, ops).facts[f])
    ensures IsEarliest(Run(db, ops).facts[f].valid.to, db.facts[f].valid.to, RunCuts(db, ops, f))
    decreases |ops|
  {
    if ops != [] {
      var mid := Next(db, ops[0]);
      StepKeepsInv(db, ops[0]);
      WindowHistory(mid, ops[1..], f);
      FactStep(db, ops[0], f);
      EarliestComposes(db.facts[f].valid.to, mid.facts[f].valid.to, Run(db, ops).facts[f].valid.to,
                       CutsBy(db, ops[0], f), RunCuts(mid, ops[1..], f));
    }
  }

  /** Which facts answer a question about instant `at`, from what was known by `asOf`. */
  predicate Answers(db: Db, scope: ScopeId, extractor: ExtractorId, at: Instant, asOf: Instant, f: Id) {
    && f in db.facts && db.facts[f].scope == scope && db.facts[f].extractor == extractor
    && db.facts[f].assertedAt <= asOf && db.facts[f].valid.Contains(at)
  }

  /** A question about an instant before every retraction still has the answer it had. */
  lemma PastStaysAnswerable(db: Db, ops: seq<Op>, f: Id, scope: ScopeId, extractor: ExtractorId, at: Instant, asOf: Instant)
    requires Inv(db) && f in db.facts && f in Run(db, ops).facts
    requires forall c :: c in RunCuts(db, ops, f) ==> at < c
    ensures Answers(db, scope, extractor, at, asOf, f) <==> Answers(Run(db, ops), scope, extractor, at, asOf, f)
  {
    WindowHistory(db, ops, f);
  }

  /** When a run learned a fact it did not start with. */
  predicate LearnsAt(op: Op, t: Instant) { op.OpApplyExtraction? && op.extraction.at == t }

  lemma NewFactStep(db: Db, op: Op, f: Id)
    requires ProjectionInv(db) && f !in db.facts && f in Next(db, op).facts
    ensures op.OpApplyExtraction? && db.minted <= f < Next(db, op).minted && Next(db, op).facts[f].assertedAt == op.extraction.at
  {
    OpTouches(db, op);
    hide Next;
    if op.OpApplyExtraction? {
      var cmd := op.extraction;
      if ApplyExtraction(db, cmd).Ok? && !AlreadyRead(db, cmd) {
        DedupeKeeps(cmd.asserts);
        ConcludedRows(db.facts, db.minted, cmd, Dedupe(cmd.asserts).value);
      }
    }
  }

  /** A fact a run did not start with was asserted by one of its extractions, and says when. */
  lemma {:induction false} NewFactIsDated(db: Db, ops: seq<Op>, f: Id)
    requires Inv(db) && f !in db.facts && f in Run(db, ops).facts
    ensures exists i :: 0 <= i < |ops| && LearnsAt(ops[i], Run(db, ops).facts[f].assertedAt)
    decreases |ops|
  {
    var mid := Next(db, ops[0]);
    StepKeepsInv(db, ops[0]);
    if f in mid.facts {
      NewFactStep(db, ops[0], f);
      WindowHistory(mid, ops[1..], f);
      assert LearnsAt(ops[0], Run(db, ops).facts[f].assertedAt);
    } else {
      NewFactIsDated(mid, ops[1..], f);
      var i :| 0 <= i < |ops[1..]| && LearnsAt(ops[1..][i], Run(db, ops).facts[f].assertedAt);
      assert LearnsAt(ops[i + 1], Run(db, ops).facts[f].assertedAt);
    }
  }

  lemma {:induction false} FactsStand(db: Db, ops: seq<Op>, f: Id)
    requires Inv(db) && f in db.facts && forall i :: 0 <= i < |ops| ==> !ErasesFrom(ops[i], db.facts[f].scope)
    ensures f in Run(db, ops).facts
    decreases |ops|
  {
    if ops != [] {
      StepKeepsInv(db, ops[0]);
      FactStays(db, ops[0], f);
      FactStep(db, ops[0], f);
      FactsStand(Next(db, ops[0]), ops[1..], f);
    }
  }

  lemma FactStays(db: Db, op: Op, f: Id)
    requires ProjectionInv(db) && f in db.facts && !ErasesFrom(op, db.facts[f].scope)
    ensures f in Next(db, op).facts
  {
    OpTouches(db, op);
    hide Next;
    if op.OpApplyExtraction? && ApplyExtraction(db, op.extraction).Ok? && !AlreadyRead(db, op.extraction) {
      ConcludedRows(db.facts, db.minted, op.extraction, Dedupe(op.extraction.asserts).value);
    }
  }

  /** Everything a query about an instant, from what was known by another, would return. */
  function AnswerSet(db: Db, scope: ScopeId, extractor: ExtractorId, at: Instant, asOf: Instant): (answer: set<Id>)
    ensures forall f :: f in answer <==>
      && f in db.facts && db.facts[f].scope == scope && db.facts[f].extractor == extractor && db.facts[f].assertedAt <= asOf
      && db.facts[f].valid.from <= at && (db.facts[f].valid.to == None || at < db.facts[f].valid.to.value)
  {
    set f | f in db.facts && Answers(db, scope, extractor, at, asOf, f)
  }

  /** The past answers the same: with nothing erased from the scope, everything learned since
      recorded after `asOf`, and every retraction since committed for after `at`, a query gets
      exactly the facts it got before. */
  lemma PastAnswersTheSame(db: Db, ops: seq<Op>, scope: ScopeId, extractor: ExtractorId, at: Instant, asOf: Instant)
    requires Inv(db) && forall i :: 0 <= i < |ops| ==> !ErasesFrom(ops[i], scope)
    requires forall i :: 0 <= i < |ops| && ops[i].OpApplyExtraction? ==> ops[i].extraction.at > asOf
    requires forall f, c :: f in db.facts && c in RunCuts(db, ops, f) ==> at < c
    ensures AnswerSet(Run(db, ops), scope, extractor, at, asOf) == AnswerSet(db, scope, extractor, at, asOf)
  {
    var after := Run(db, ops);
    forall f ensures Answers(after, scope, extractor, at, asOf, f) <==> Answers(db, scope, extractor, at, asOf, f) {
      if f in db.facts {
        if db.facts[f].scope == scope { FactsStand(db, ops, f); }
        if f in after.facts { PastStaysAnswerable(db, ops, f, scope, extractor, at, asOf); }
      } else if f in after.facts {
        NewFactIsDated(db, ops, f);
      }
    }
  }
}
