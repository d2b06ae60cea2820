/** The two transactions that others can come between. Both run at the database's default
    isolation, where every statement sees what has committed by then: an extraction marks its
    episodes first and concludes later, and an erasure goes table by table, facts first.
    `Tables` makes each one step. Here each is two, with any run in between, and what that
    changes is said exactly. */
module Transactions {
  import opened Model
  import opened Tables
  import opened FactAlgebra
  import opened Invariants
  import opened Histories
  import opened Effects
  import opened Beginnings

  // ---- An extraction in two steps ---------------------------------------------

  /** The marking statement goes through: every episode is found, and some marker is new. */
  predicate Marks(db: Db, cmd: ExtractCommand) {
    && cmd.Valid() && Dedupe(cmd.asserts).Ok?
    && |FoundEpisodes(db, cmd)| >= |cmd.episodes| && !AlreadyRead(db, cmd)
  }

  /** The named episodes this extractor had not read. */
  function NewlyRead(db: Db, cmd: ExtractCommand): set<Id> {
    set e | e in FoundEpisodes(db, cmd) && (e, cmd.extractor) !in db.markers
  }

  /** The markers the transaction has inserted, and not yet committed. */
  function NewMarkers(db: Db, cmd: ExtractCommand): map<(Id, ExtractorId), Marker>
    requires Dedupe(cmd.asserts).Ok?
  {
    WithMarkers(db, cmd, cmd.episodes, |Dedupe(cmd.asserts).value|) - db.markers.Keys
  }

  /** What those rows hold off while the transaction is open: a new marker locks the key of its
      episode, so that stays, and the markers' own key keeps anybody else from inserting it. An
      episode marked before is not locked at all. */
  ghost predicate KeysHeld(start: Db, mid: Db, cmd: ExtractCommand) {
    forall e :: e in NewlyRead(start, cmd) ==> e in mid.episodes && (e, cmd.extractor) !in mid.markers
  }

  /** The rest of the transaction and its commit, on the tables as they have become. */
  function ConcludedLate(start: Db, mid: Db, cmd: ExtractCommand): Result<Db>
    requires Dedupe(cmd.asserts).Ok?
  {
    var batch := Dedupe(cmd.asserts).value;
    match Concluded(mid.facts, mid.minted, cmd, batch)
    case Err(e) => Err(e)
    case Ok(facts) => Ok(mid.(markers := mid.markers + NewMarkers(start, cmd), facts := facts, minted := mid.minted + |batch|))
  }

  lemma NewMarkersAre(db: Db, cmd: ExtractCommand)
    requires Marks(db, cmd)
    ensures forall k :: k in NewMarkers(db, cmd) <==> k.1 == cmd.extractor && k.0 in NewlyRead(db, cmd)
    ensures forall k :: k in NewMarkers(db, cmd) ==>
      && k.0 in db.episodes && db.episodes[k.0].scope == cmd.scope
      && NewMarkers(db, cmd)[k] == Marker(db.episodes[k.0].scope, db.episodes[k.0].ingestedAt, |Dedupe(cmd.asserts).value|, cmd.at)
    ensures NewlyRead(db, cmd) != {} && forall e :: e in NewlyRead(db, cmd) ==> e in cmd.episodes
    ensures forall e :: e in cmd.episodes ==> e in FoundEpisodes(db, cmd) && e in db.episodes && db.episodes[e].scope == cmd.scope
  {
    WithMarkersEffect(db, cmd, cmd.episodes, |Dedupe(cmd.asserts).value|);
    AllFound(db, cmd);
    forall e | e in cmd.episodes ensures e in FoundEpisodes(db, cmd) { assert e in (set x: Id | x in cmd.episodes); }
    var e :| e in FoundEpisodes(db, cmd) && (e, cmd.extractor) !in db.markers;
    assert e in NewlyRead(db, cmd);
  }

  /** What any run in between leaves of what the marking statement saw. */
  ghost predicate Later(start: Db, mid: Db, cmd: ExtractCommand) {
    && Marks(start, cmd) && KeysHeld(start, mid, cmd) && Inv(mid)
    && forall e :: e in cmd.episodes && e in mid.episodes ==>
         e in start.episodes && mid.episodes[e] == start.episodes[e]
         && ((e, cmd.extractor) in start.markers ==> (e, cmd.extractor) in mid.markers)
  }

  lemma RunIsLater(start: Db, between: seq<Op>, cmd: ExtractCommand)
    requires Inv(start) && Marks(start, cmd) && KeysHeld(start, Run(start, between), cmd)
    ensures Later(start, Run(start, between), cmd)
  {
    var mid := Run(start, between);
    NewMarkersAre(start, cmd);
    RunKeepsInv(start, between);
    forall e | e in cmd.episodes && e in mid.episodes
      ensures mid.episodes[e] == start.episodes[e] && ((e, cmd.extractor) in start.markers ==> (e, cmd.extractor) in mid.markers)
    {
      EpisodesImmutable(start, between, e);
      if (e, cmd.extractor) in start.markers { MarkersStand(start, between, e, cmd.extractor); }
    }
    hide Inv, Run, Marks, NewMarkers;
  }

  /** Where all the named episodes still stand, the transaction does what it would have done as
      one step at its end. */
  lemma AsIfAtItsEnd(start: Db, mid: Db, cmd: ExtractCommand)
    requires Later(start, mid, cmd) && forall e :: e in cmd.episodes ==> e in mid.episodes
    ensures ConcludedLate(start, mid, cmd) == ApplyExtraction(mid, cmd)
  {
    hide Inv, Concluded, Dedupe, WithMarkers, NewMarkers;
    NewMarkersAre(start, cmd);
    assert FoundEpisodes(mid, cmd) == FoundEpisodes(start, cmd);
    var one :| one in NewlyRead(start, cmd);
    assert !AlreadyRead(mid, cmd);
    SameMarkers(start, mid, cmd);
  }

  lemma SameMarkers(start: Db, mid: Db, cmd: ExtractCommand)
    requires Marks(start, cmd) && KeysHeld(start, mid, cmd)
    requires forall e :: e in cmd.episodes ==> e in start.episodes && e in mid.episodes && mid.episodes[e] == start.episodes[e]
    requires forall e :: e in cmd.episodes && (e, cmd.extractor) in start.markers ==> (e, cmd.extractor) in mid.markers
    ensures mid.markers + NewMarkers(start, cmd) == WithMarkers(mid, cmd, cmd.episodes, |Dedupe(cmd.asserts).value|)
  {
    var n := |Dedupe(cmd.asserts).value|;
    var added, after := NewMarkers(start, cmd), WithMarkers(mid, cmd, cmd.episodes, n);
    NewMarkersAre(start, cmd);
    WithMarkersEffect(mid, cmd, cmd.episodes, n);
    assert forall e :: e in FoundEpisodes(mid, cmd) ==> e in cmd.episodes;
    hide WithMarkers, NewMarkers, Dedupe, Marks, FoundEpisodes;
    forall k
      ensures k in after <==> k in mid.markers || k in added
      ensures k in added ==> k !in mid.markers && after[k] == added[k]
    {}
    MapsJoin(mid.markers, added, after);
  }

  lemma MapsJoin<K, V>(a: map<K, V>, b: map<K, V>, c: map<K, V>)
    requires forall k :: k in c <==> k in a || k in b
    requires forall k :: k in a ==> k !in b && c[k] == a[k]
    requires forall k :: k in b ==> c[k] == b[k]
    ensures a + b == c
  {}

  lemma BatchEmptyWith(asserts: seq<Assertion>)
    requires Dedupe(asserts).Ok?
    ensures Dedupe(asserts).value == [] <==> asserts == []
  {
    if asserts != [] { assert Dedupe(asserts[..|asserts| - 1]).Ok?; }
  }

  /** Conclusions that assert something leave a row that names the command's episodes, and it is
      none of the rows they do not refresh. */
  lemma ConclusionNames(facts: map<Id, Fact>, first: Id, cmd: ExtractCommand, batch: seq<Assertion>, spared: set<Id>)
    requires batch != [] && forall id :: id in facts ==> id < first
    requires Concluded(facts, first, cmd, batch).Ok? && spared <= facts.Keys
    requires var cut := RetractAll(facts, cmd.scope, cmd.retracts, cmd.at).value;
      forall f :: f in spared && f in cut ==> Restating(batch, cut[f], cmd).None?
    ensures exists f :: NamesAll(Concluded(facts, first, cmd, batch).value, f, cmd) && f !in spared
  {
    ConclusionsLand(facts, first, cmd, batch);
    RetractAllAccepts(facts, cmd.scope, cmd.retracts, cmd.at);
    var after, cut := Concluded(facts, first, cmd, batch).value, RetractAll(facts, cmd.scope, cmd.retracts, cmd.at).value;
    hide Concluded, RetractAll, Restating;
    if TripleRefreshed(cut, batch, cmd, batch[0].triple) {
      var f :| f in cut && cut[f].triple == batch[0].triple && Restating(batch, cut[f], cmd).Some?;
      assert NamesAll(after, f, cmd) && f !in spared;
    } else {
      assert Recorded(after, batch[0], cmd);
      var f :| f in after && after[f] == NewFact(batch[0], cmd);
      if f in cut { assert Restating(batch, cut[f], cmd).None? ==> !Restates(batch[0], cut[f], cmd); }
      assert NamesAll(after, f, cmd) && f !in spared;
    }
  }

  ghost predicate NamesAll(facts: map<Id, Fact>, f: Id, cmd: ExtractCommand) {
    f in facts && forall e :: e in cmd.episodes ==> e in facts[f].episodes
  }

  /** Those that assert nothing name nothing new. */
  lemma NothingConcluded(facts: map<Id, Fact>, first: Id, cmd: ExtractCommand)
    requires Concluded(facts, first, cmd, []).Ok? && forall id :: id in facts ==> id < first
    ensures var after := Concluded(facts, first, cmd, []).value;
      && after.Keys == facts.Keys
      && forall f :: f in facts ==> after[f].episodes == facts[f].episodes && SameKey(after[f], facts[f])
  {
    ConcludedRows(facts, first, cmd, []);
    ConclusionsLand(facts, first, cmd, []);
    var cut := RetractAll(facts, cmd.scope, cmd.retracts, cmd.at).value;
    RetractAllAccepts(facts, cmd.scope, cmd.retracts, cmd.at);
    forall f | f in facts ensures cut[f].episodes == facts[f].episodes { RetractAllCuts(facts, cmd.scope, cmd.retracts, cmd.at, f); }
    hide Concluded, RetractAll;
  }

  /** A named episode that was erased in between, which only one marked before can be, is named
      by a fact again exactly if the extraction asserts anything. */
  lemma ErasedInBetween(start: Db, mid: Db, cmd: ExtractCommand, late: Db, e: Id)
    requires Later(start, mid, cmd) && ConcludedLate(start, mid, cmd) == Ok(late)
    requires e in cmd.episodes && e !in mid.episodes
    ensures (e, cmd.extractor) in start.markers && e !in late.episodes
    ensures NothingNames(late, e) <==> cmd.asserts == []
  {
    hide LogInv, Windows, QueueInv, Concluded, NewMarkers, Dedupe, FoundEpisodes, ConcludedLate, Derived;
    NewMarkersAre(start, cmd);
    MissingIsUnnamed(mid, e);
    BatchEmptyWith(cmd.asserts);
    LateKeepsTables(start, mid, cmd, late);
    if cmd.asserts == [] { NothingConcluded(mid.facts, mid.minted, cmd); } else {
      ConclusionNames(mid.facts, mid.minted, cmd, Dedupe(cmd.asserts).value, {});
      var f :| NamesAll(late.facts, f, cmd);
      assert e in late.facts[f].episodes;
    }
  }

  lemma OnlyMarkersAdded(start: Db, mid: Db, cmd: ExtractCommand, late: Db)
    requires Later(start, mid, cmd) && cmd.asserts == [] && ConcludedLate(start, mid, cmd) == Ok(late)
    ensures ProjectionInv(late)
  {
    hide Concluded, NewMarkers, LogInv, Windows, QueueInv, ConcludedLate, Dedupe, KeysHeld, OfEpisode, Derived;
    BatchEmptyWith(cmd.asserts);
    LateKeepsTables(start, mid, cmd, late);
    NothingConcluded(mid.facts, mid.minted, cmd);
    MarkersOfEpisodes(start, mid, cmd, late);
    SameNamesDerived(mid, late);
    SameEncodings(mid, late);
  }

  lemma SameNamesDerived(mid: Db, late: Db)
    requires ProjectionInv(mid) && late.episodes == mid.episodes && late.minted >= mid.minted && late.facts.Keys == mid.facts.Keys
    requires forall f :: f in mid.facts ==> late.facts[f].episodes == mid.facts[f].episodes && SameKey(late.facts[f], mid.facts[f])
    requires forall k :: k in mid.markers ==> k in late.markers
    ensures forall f :: f in late.facts ==> f < late.minted && Derived(late, late.facts[f])
  {
    forall f | f in late.facts ensures f < late.minted && Derived(late, late.facts[f]) { assert Derived(mid, mid.facts[f]); }
  }

  lemma SameEncodings(mid: Db, late: Db)
    requires ProjectionInv(mid) && late.episodes == mid.episodes && late.encodings == mid.encodings
    ensures forall k :: k in late.encodings ==> OfEpisode(late, k.0, late.encodings[k].scope, late.encodings[k].ingestedAt)
  {
    forall k | k in late.encodings ensures OfEpisode(late, k.0, late.encodings[k].scope, late.encodings[k].ingestedAt) {
      assert OfEpisode(mid, k.0, mid.encodings[k].scope, mid.encodings[k].ingestedAt);
    }
  }

  lemma LateKeepsTables(start: Db, mid: Db, cmd: ExtractCommand, late: Db)
    requires Dedupe(cmd.asserts).Ok? && ConcludedLate(start, mid, cmd) == Ok(late)
    ensures late == mid.(markers := mid.markers + NewMarkers(start, cmd), facts := late.facts, minted := late.minted)
    ensures late.minted >= mid.minted && Concluded(mid.facts, mid.minted, cmd, Dedupe(cmd.asserts).value) == Ok(late.facts)
  {}

  lemma MarkersOfEpisodes(start: Db, mid: Db, cmd: ExtractCommand, late: Db)
    requires Later(start, mid, cmd) && late.episodes == mid.episodes && late.markers == mid.markers + NewMarkers(start, cmd)
    ensures forall k :: k in late.markers ==> OfEpisode(late, k.0, late.markers[k].scope, late.markers[k].ingestedAt)
  {
    NewMarkersAre(start, cmd);
    hide NewMarkers, FoundEpisodes, LogInv, Windows, QueueInv, Marks, Dedupe;
    forall k | k in late.markers ensures OfEpisode(late, k.0, late.markers[k].scope, late.markers[k].ingestedAt) {
      if k in NewMarkers(start, cmd) { assert k.0 in cmd.episodes; } else {
        assert OfEpisode(mid, k.0, mid.markers[k].scope, mid.markers[k].ingestedAt);
      }
    }
  }

  /** So an extraction that others come between keeps the projections derived, and with that what
      erasure promises, exactly if it asserts nothing or all its episodes still stand. */
  lemma LateKeepsProjections(start: Db, between: seq<Op>, cmd: ExtractCommand, late: Db)
    requires Inv(start) && Marks(start, cmd) && KeysHeld(start, Run(start, between), cmd)
    requires ConcludedLate(start, Run(start, between), cmd) == Ok(late)
    ensures ProjectionInv(late) <==> cmd.asserts == [] || forall e :: e in cmd.episodes ==> e in Run(start, between).episodes
    ensures forall e :: e in cmd.episodes && e !in Run(start, between).episodes ==> (NothingNames(late, e) <==> cmd.asserts == [])
  {
    var mid := Run(start, between);
    RunIsLater(start, between, cmd);
    hide Run, Inv, Marks, KeysHeld, ConcludedLate, ProjectionInv, NothingNames;
    forall e | e in cmd.episodes && e !in mid.episodes ensures NothingNames(late, e) <==> cmd.asserts == [] {
      ErasedInBetween(start, mid, cmd, late, e);
    }
    if cmd.asserts == [] {
      OnlyMarkersAdded(start, mid, cmd, late);
    } else if forall e :: e in cmd.episodes ==> e in mid.episodes {
      AsIfAtItsEnd(start, mid, cmd);
      AppliedKeepsProjections(mid, cmd, late);
    } else {
      var e :| e in cmd.episodes && e !in mid.episodes;
      ErasedInBetween(start, mid, cmd, late, e);
      if ProjectionInv(late) { MissingIsUnnamed(late, e); }
    }
  }

  lemma AppliedKeepsProjections(db: Db, cmd: ExtractCommand, late: Db)
    requires ProjectionInv(db) && ApplyExtraction(db, cmd) == Ok(late)
    ensures ProjectionInv(late)
  {
    ExtractionKeepsProjections(db, cmd);
    hide ProjectionInv, ApplyExtraction;
    assert Next(db, OpApplyExtraction(cmd)) == late;
  }

  /** An extraction of episodes its extractor never read is safe whatever comes between: it does
      what it would have done as one step at its end. */
  lemma NewEpisodesAreSafe(start: Db, between: seq<Op>, cmd: ExtractCommand)
    requires Inv(start) && Marks(start, cmd) && KeysHeld(start, Run(start, between), cmd)
    requires forall e :: e in cmd.episodes ==> (e, cmd.extractor) !in start.markers
    ensures ConcludedLate(start, Run(start, between), cmd) == ApplyExtraction(Run(start, between), cmd)
  {
    NewMarkersAre(start, cmd);
    RunIsLater(start, between, cmd);
    AsIfAtItsEnd(start, Run(start, between), cmd);
    hide *;
  }

  // ---- Such an extraction, from an empty store --------------------------------

  /** Two episodes are recorded, and an extractor reads the first. */
  function OneRead(scope: ScopeId, x: ExtractorId, body: Body, t: Instant): Db {
    Run(EMPTY, [OpAppend(Two(scope, body)),
                OpApplyExtraction(ExtractCommand(scope, x, [0], [], [], t))])
  }

  lemma FirstRead(scope: ScopeId, x: ExtractorId, body: Body, t: Instant)
    ensures Next(TwoEpisodes(scope, body), OpApplyExtraction(ExtractCommand(scope, x, [0], [], [], t)))
         == TwoEpisodes(scope, body).(markers := map[(0, x) := Marker(scope, 0, 0, t)])
  {
    var db, cmd := TwoEpisodes(scope, body), ExtractCommand(scope, x, [0], [], [], t);
    assert FoundEpisodes(db, cmd) == {0};
    assert WithMarkers(db, cmd, [0][..0], 0) == map[];
    assert WithMarkers(db, cmd, [0], 0) == map[(0, x) := Marker(scope, 0, 0, t)];
    assert RefreshAll(map[], [], cmd) == map[];
    assert Concluded(map[], 2, cmd, []) == Ok(map[]);
  }

  lemma OneReadIs(scope: ScopeId, x: ExtractorId, body: Body, t: Instant)
    ensures OneRead(scope, x, body, t) == TwoEpisodes(scope, body).(markers := map[(0, x) := Marker(scope, 0, 0, t)])
    ensures Inv(OneRead(scope, x, body, t))
  {
    var ops := [OpAppend(Two(scope, body)),
                OpApplyExtraction(ExtractCommand(scope, x, [0], [], [], t))];
    Reachable(ops);
    TwoRecorded(scope, body);
    FirstRead(scope, x, body, t);
    RunTwo(EMPTY, ops[0], ops[1]);
    hide Next, Inv, TwoEpisodes;
  }

  /** Reading both is under way when the first is erased; then it commits, and a fact names an
      erased episode. */
  lemma ErasedAndNamed(scope: ScopeId, x: ExtractorId, body: Body, t: Instant, a: Assertion)
    requires a.valid.Valid()
    ensures var (start, cmd) := (OneRead(scope, x, body, t), ExtractCommand(scope, x, [0, 1], [a], [], t));
      var mid := Run(start, [OpForget(scope, [0])]);
      && Inv(start) && Marks(start, cmd) && KeysHeld(start, mid, cmd) && 0 !in mid.episodes
      && ConcludedLate(start, mid, cmd).Ok? && !NothingNames(ConcludedLate(start, mid, cmd).value, 0)
  {
    var start, cmd := OneRead(scope, x, body, t), ExtractCommand(scope, x, [0, 1], [a], [], t);
    var op := OpForget(scope, [0]);
    var mid := Run(start, [op]);
    OneReadHas(scope, x, body, t);
    ForgetsNext(start, scope, [0]);
    hide Run, Next, OneRead, Forget, Inv, NothingNames, ProjectionInv, WithMarkers, Dedupe, Marks, KeysHeld, NewMarkers, Concluded, ConcludedLate;
    ErasedMeanwhile(start, mid, cmd, a);
    assert cmd.episodes[0] == 0;
    LateKeepsProjections(start, [op], cmd, ConcludedLate(start, mid, cmd).value);
  }

  lemma ForgetsNext(db: Db, scope: ScopeId, ids: seq<Id>)
    ensures Run(db, [OpForget(scope, ids)]) == Forget(db, scope, ids)
  {
    RunOne(db, OpForget(scope, ids));
  }

  lemma OneReadHas(scope: ScopeId, x: ExtractorId, body: Body, t: Instant)
    ensures var start := OneRead(scope, x, body, t);
      && Inv(start) && {0, 1} <= start.episodes.Keys && start.episodes[0].scope == start.episodes[1].scope == scope
      && start.facts == map[] && start.markers.Keys == {(0, x)}
  {
    OneReadIs(scope, x, body, t);
    hide OneRead, Inv;
  }

  lemma ErasedMeanwhile(start: Db, mid: Db, cmd: ExtractCommand, a: Assertion)
    requires cmd.episodes == [0, 1] && cmd.asserts == [a] && cmd.retracts == [] && a.valid.Valid()
    requires {0, 1} <= start.episodes.Keys && start.episodes[0].scope == start.episodes[1].scope == cmd.scope && start.facts == map[]
    requires start.markers.Keys == {(0, cmd.extractor)} && mid == Forget(start, cmd.scope, [0])
    ensures Marks(start, cmd) && KeysHeld(start, mid, cmd) && 0 !in mid.episodes && ConcludedLate(start, mid, cmd).Ok?
  {
    DedupeOne(a);
    SecondIsNew(start, mid, cmd);
    assert mid.facts == map[];
    OneConcluded(mid.minted, cmd, a);
    hide Concluded, Dedupe, Marks, KeysHeld, NewMarkers, Forget;
  }

  lemma SecondIsNew(start: Db, mid: Db, cmd: ExtractCommand)
    requires cmd.Valid() && Dedupe(cmd.asserts).Ok? && cmd.episodes == [0, 1]
    requires {0, 1} <= start.episodes.Keys && start.episodes[0].scope == start.episodes[1].scope == cmd.scope
    requires start.markers.Keys == {(0, cmd.extractor)} && mid == Forget(start, cmd.scope, [0])
    ensures Marks(start, cmd) && KeysHeld(start, mid, cmd) && 0 !in mid.episodes
  {
    assert FoundEpisodes(start, cmd) == {0, 1};
    assert 1 in FoundEpisodes(start, cmd);
  }

  // ---- An erasure in two steps --------------------------------------------------

  /** An erasure would delete this fact. */
  predicate Condemned(f: Fact, scope: ScopeId, ids: seq<Id>) { f.scope == scope && NamesAny(ids, f.episodes) }

  /** Facts go first, as they stood then; the other tables go as they stand at the end. The new
      markers and encodings of an episode are seen at the end, or its row could not go. */
  function ForgottenLate(start: Db, mid: Db, scope: ScopeId, ids: seq<Id>): Db {
    Forget(mid, scope, ids).(facts := Remaining(start, mid.facts, scope, ids))
  }

  function Remaining(start: Db, facts: map<Id, Fact>, scope: ScopeId, ids: seq<Id>): map<Id, Fact> {
    map f | f in facts && !(f in start.facts && Condemned(start.facts[f], scope, ids)) :: facts[f]
  }

  /** This operation can make a fact name an episode the erasure is after. */
  predicate NamesErased(op: Op, scope: ScopeId, ids: seq<Id>) {
    op.OpApplyExtraction? && op.extraction.scope == scope && NamesAny(ids, set e | e in op.extraction.episodes)
  }

  ghost predicate SameCondemned(start: Db, db: Db, scope: ScopeId, ids: seq<Id>) {
    && start.minted <= db.minted
    && forall f :: f in db.facts ==>
         (Condemned(db.facts[f], scope, ids) <==> f in start.facts && Condemned(start.facts[f], scope, ids))
  }

  lemma CondemnedStep(start: Db, db: Db, op: Op, scope: ScopeId, ids: seq<Id>)
    requires Inv(start) && Inv(db) && SameCondemned(start, db, scope, ids) && !NamesErased(op, scope, ids)
    ensures SameCondemned(start, Next(db, op), scope, ids)
  {
    hide Inv, Next, Condemned;
    StepKeepsInv(db, op);
    forall f | f in Next(db, op).facts
      ensures Condemned(Next(db, op).facts[f], scope, ids) <==> f in start.facts && Condemned(start.facts[f], scope, ids)
    {
      if op.OpApplyExtraction? { ExtractionCondemns(start, db, op.extraction, scope, ids, f); } else { FactsOtherwiseStand(db, op, f); }
    }
  }

  lemma ExtractionCondemns(start: Db, db: Db, cmd: ExtractCommand, scope: ScopeId, ids: seq<Id>, f: Id)
    requires Inv(start) && Inv(db) && SameCondemned(start, db, scope, ids) && !NamesErased(OpApplyExtraction(cmd), scope, ids)
    requires f in Next(db, OpApplyExtraction(cmd)).facts
    ensures Condemned(Next(db, OpApplyExtraction(cmd)).facts[f], scope, ids) <==> f in start.facts && Condemned(start.facts[f], scope, ids)
  {
    if Commits(db, OpApplyExtraction(cmd)) {
      CommittedFacts(db, cmd);
      ConclusionCondemns(db, cmd, scope, ids, f);
    }
    hide Inv, Concluded, Dedupe, Condemned;
  }

  /** Conclusions from elsewhere condemn nothing that was not. */
  lemma ConclusionCondemns(db: Db, cmd: ExtractCommand, scope: ScopeId, ids: seq<Id>, f: Id)
    requires Inv(db) && !NamesErased(OpApplyExtraction(cmd), scope, ids)
    requires Dedupe(cmd.asserts).Ok? && Concluded(db.facts, db.minted, cmd, Dedupe(cmd.asserts).value).Ok?
    requires f in Concluded(db.facts, db.minted, cmd, Dedupe(cmd.asserts).value).value
    ensures var after := Concluded(db.facts, db.minted, cmd, Dedupe(cmd.asserts).value).value;
      if f in db.facts then Condemned(after[f], scope, ids) <==> Condemned(db.facts[f], scope, ids)
      else f >= db.minted && !Condemned(after[f], scope, ids)
  {
    var batch := Dedupe(cmd.asserts).value;
    ConcludedRows(db.facts, db.minted, cmd, batch);
    hide Concluded, Dedupe, LogInv, Windows, QueueInv, Derived, IsEarliest;
    var after := Concluded(db.facts, db.minted, cmd, batch).value;
    if f !in db.facts {
      var a :| a in batch && after[f] == NewFact(a, cmd);
    }
  }

  lemma {:induction false} CondemnedStays(start: Db, db: Db, ops: seq<Op>, scope: ScopeId, ids: seq<Id>)
    requires Inv(start) && Inv(db) && SameCondemned(start, db, scope, ids)
    requires forall i :: 0 <= i < |ops| ==> !NamesErased(ops[i], scope, ids)
    ensures SameCondemned(start, Run(db, ops), scope, ids)
    decreases |ops|
  {
    if ops != [] {
      StepKeepsInv(db, ops[0]);
      CondemnedStep(start, db, ops[0], scope, ids);
      CondemnedStays(start, Next(db, ops[0]), ops[1..], scope, ids);
    }
  }

  /** Unless an extraction of something it erases commits in between, an erasure does what it
      would have done as one step at its end. */
  lemma ErasesAsIfAtItsEnd(start: Db, between: seq<Op>, scope: ScopeId, ids: seq<Id>)
    requires Inv(start) && forall i :: 0 <= i < |between| ==> !NamesErased(between[i], scope, ids)
    ensures ForgottenLate(start, Run(start, between), scope, ids) == Forget(Run(start, between), scope, ids)
  {
    CondemnedStays(start, start, between, scope, ids);
    RemainingIsKept(start, Run(start, between), scope, ids);
    hide Run, Inv, Remaining, KeepFacts, SameCondemned;
  }

  lemma RemainingIsKept(start: Db, mid: Db, scope: ScopeId, ids: seq<Id>)
    requires SameCondemned(start, mid, scope, ids)
    ensures Remaining(start, mid.facts, scope, ids) == KeepFacts(mid.facts, scope, ids)
  {}

  /** A committed extraction. */
  predicate Commits(db: Db, op: Op) {
    op.OpApplyExtraction? && ApplyExtraction(db, op.extraction).Ok? && !AlreadyRead(db, op.extraction)
  }

  /** The rows the erasure has deleted are locked, so no extraction refreshes one of them. */
  ghost predicate RowsHeld(start: Db, db: Db, ops: seq<Op>, scope: ScopeId, ids: seq<Id>)
    decreases |ops|
  {
    ops == [] ||
    ((Commits(db, ops[0]) ==> Spares(start, db, ops[0].extraction, scope, ids)) && RowsHeld(start, Next(db, ops[0]), ops[1..], scope, ids))
  }

  ghost predicate Spares(start: Db, db: Db, cmd: ExtractCommand, scope: ScopeId, ids: seq<Id>) {
    var (batch, cut) := (Dedupe(cmd.asserts), RetractAll(db.facts, cmd.scope, cmd.retracts, cmd.at));
    batch.Ok? && cut.Ok? ==>
      forall f :: f in start.facts && f in cut.value && Condemned(start.facts[f], scope, ids) ==> Restating(batch.value, cut.value[f], cmd).None?
  }

  /** An extraction that names the episode and asserts something commits. */
  ghost predicate NamesIt(db: Db, op: Op, e: Id) { Commits(db, op) && e in op.extraction.episodes && op.extraction.asserts != [] }

  ghost predicate NamedMeanwhile(db: Db, ops: seq<Op>, e: Id)
    decreases |ops|
  {
    ops != [] && (NamesIt(db, ops[0], e) || NamedMeanwhile(Next(db, ops[0]), ops[1..], e))
  }

  /** A fact names the episode that the erasure does not take. */
  ghost predicate Missed(start: Db, facts: map<Id, Fact>, scope: ScopeId, ids: seq<Id>, e: Id) {
    exists f :: f in facts && e in facts[f].episodes && !(f in start.facts && Condemned(start.facts[f], scope, ids))
  }

  lemma NoneMissedYet(start: Db, scope: ScopeId, ids: seq<Id>, e: Id)
    requires ProjectionInv(start) && e in start.episodes && start.episodes[e].scope == scope && Named(ids, e)
    ensures !Missed(start, start.facts, scope, ids, e)
  {
    forall f | f in start.facts && e in start.facts[f].episodes ensures Condemned(start.facts[f], scope, ids) {
      assert Derived(start, start.facts[f]);
    }
  }

  lemma MissedStep(start: Db, db: Db, op: Op, scope: ScopeId, ids: seq<Id>, e: Id)
    requires Inv(start) && Inv(db) && start.minted <= db.minted
    requires e in db.episodes && db.episodes[e].scope == scope && !ErasesFrom(op, scope)
    requires Commits(db, op) ==> Spares(start, db, op.extraction, scope, ids)
    ensures Missed(start, Next(db, op).facts, scope, ids, e) <==> Missed(start, db.facts, scope, ids, e) || NamesIt(db, op, e)
  {
    hide Inv, Next, Condemned, Spares, ApplyExtraction, AlreadyRead, Concluded, Commits, ErasesFrom, Dedupe;
    if Commits(db, op) {
      CommitsMeans(db, op);
      CommittedFacts(db, op.extraction);
      if NamesIt(db, op, e) { NamedIsMissed(start, db, op.extraction, scope, ids, e); } else { UnnamedMissNoMore(start, db, op.extraction, scope, ids, e); }
    } else {
      InvProjections(db);
      NamersStand(db, op, scope, e);
      SameMissed(start, db.facts, Next(db, op).facts, scope, ids, e);
    }
  }

  lemma InvProjections(db: Db)
    requires Inv(db)
    ensures ProjectionInv(db)
  {}

  lemma CommitsMeans(db: Db, op: Op)
    requires Commits(db, op)
    ensures op.OpApplyExtraction? && op == OpApplyExtraction(op.extraction)
  {}

  lemma SameMissed(start: Db, facts: map<Id, Fact>, after: map<Id, Fact>, scope: ScopeId, ids: seq<Id>, e: Id)
    requires forall f :: f in after ==> f in facts && after[f] == facts[f]
    requires forall f :: f in facts && e in facts[f].episodes ==> f in after
    ensures Missed(start, after, scope, ids, e) <==> Missed(start, facts, scope, ids, e)
  {
    hide Condemned;
  }

  lemma CommittedFacts(db: Db, cmd: ExtractCommand)
    requires Commits(db, OpApplyExtraction(cmd))
    ensures Dedupe(cmd.asserts).Ok? && Concluded(db.facts, db.minted, cmd, Dedupe(cmd.asserts).value) == Ok(Next(db, OpApplyExtraction(cmd)).facts)
  {
    hide Concluded;
  }

  /** Short of a committed extraction or an erasure of the scope, what names the episode stands. */
  lemma NamersStand(db: Db, op: Op, scope: ScopeId, e: Id)
    requires ProjectionInv(db) && e in db.episodes && db.episodes[e].scope == scope && !ErasesFrom(op, scope) && !Commits(db, op)
    ensures forall f :: f in Next(db, op).facts ==> f in db.facts && Next(db, op).facts[f] == db.facts[f]
    ensures forall f :: f in db.facts && e in db.facts[f].episodes ==> f in Next(db, op).facts
  {
    forall f | f in Next(db, op).facts ensures f in db.facts && Next(db, op).facts[f] == db.facts[f] {
      if !op.OpApplyExtraction? { FactsOtherwiseStand(db, op, f); }
    }
    forall f | f in db.facts && e in db.facts[f].episodes ensures f in Next(db, op).facts {
      assert Derived(db, db.facts[f]);
      FactStays(db, op, f);
    }
  }

  lemma NamedIsMissed(start: Db, db: Db, cmd: ExtractCommand, scope: ScopeId, ids: seq<Id>, e: Id)
    requires Inv(start) && Inv(db) && start.minted <= db.minted
    requires Dedupe(cmd.asserts).Ok? && Concluded(db.facts, db.minted, cmd, Dedupe(cmd.asserts).value).Ok?
    requires Spares(start, db, cmd, scope, ids) && e in cmd.episodes && cmd.asserts != []
    ensures Missed(start, Concluded(db.facts, db.minted, cmd, Dedupe(cmd.asserts).value).value, scope, ids, e)
  {
    var spared := set f | f in db.facts && f in start.facts && Condemned(start.facts[f], scope, ids);
    var batch := Dedupe(cmd.asserts).value;
    BatchEmptyWith(cmd.asserts);
    ConclusionNames(db.facts, db.minted, cmd, batch, spared);
    ConcludedRows(db.facts, db.minted, cmd, batch);
    hide Condemned, Concluded, Dedupe, RetractAll, LogInv, Windows, QueueInv, Derived;
    var after := Concluded(db.facts, db.minted, cmd, batch).value;
    var f :| NamesAll(after, f, cmd) && f !in spared;
  }

  lemma UnnamedMissNoMore(start: Db, db: Db, cmd: ExtractCommand, scope: ScopeId, ids: seq<Id>, e: Id)
    requires Inv(db) && Dedupe(cmd.asserts).Ok? && Concluded(db.facts, db.minted, cmd, Dedupe(cmd.asserts).value).Ok?
    requires e !in cmd.episodes || cmd.asserts == []
    ensures var after := Concluded(db.facts, db.minted, cmd, Dedupe(cmd.asserts).value).value;
      Missed(start, after, scope, ids, e) <==> Missed(start, db.facts, scope, ids, e)
  {
    var batch := Dedupe(cmd.asserts).value;
    BatchEmptyWith(cmd.asserts);
    if cmd.asserts == [] { NothingConcluded(db.facts, db.minted, cmd); }
    ConcludedRows(db.facts, db.minted, cmd, batch);
    hide Missed, Condemned, Concluded, Dedupe, RetractAll, LogInv, Windows, QueueInv, Derived, IsEarliest;
    var after := Concluded(db.facts, db.minted, cmd, batch).value;
    SameNamers(start, db.facts, after, scope, ids, e);
  }

  lemma SameNamers(start: Db, facts: map<Id, Fact>, after: map<Id, Fact>, scope: ScopeId, ids: seq<Id>, e: Id)
    requires forall f :: f in after && e in after[f].episodes <==> f in facts && e in facts[f].episodes
    ensures Missed(start, after, scope, ids, e) <==> Missed(start, facts, scope, ids, e)
  {
    hide Condemned;
  }

  lemma {:induction false} MissedAfter(start: Db, db: Db, ops: seq<Op>, scope: ScopeId, ids: seq<Id>, e: Id)
    requires Inv(start) && Inv(db) && start.minted <= db.minted
    requires e in db.episodes && db.episodes[e].scope == scope && forall i :: 0 <= i < |ops| ==> !ErasesFrom(ops[i], scope)
    requires RowsHeld(start, db, ops, scope, ids)
    ensures var mid := Run(db, ops);
      && Inv(mid) && e in mid.episodes && mid.episodes[e].scope == scope
      && (Missed(start, mid.facts, scope, ids, e) <==> Missed(start, db.facts, scope, ids, e) || NamedMeanwhile(db, ops, e))
    decreases |ops|
  {
    if ops != [] {
      hide Inv, Next, Missed, Spares, NamesIt;
      StepKeepsInv(db, ops[0]);
      EpisodeStays(db, ops[0], e);
      MissedStep(start, db, ops[0], scope, ids, e);
      MissedAfter(start, Next(db, ops[0]), ops[1..], scope, ids, e);
    }
  }

  lemma EpisodeStays(db: Db, op: Op, e: Id)
    requires Inv(db) && e in db.episodes && !ErasesFrom(op, db.episodes[e].scope)
    ensures e in Next(db, op).episodes && Next(db, op).episodes[e] == db.episodes[e]
  {
    OpTouches(db, op);
    LogIdsBelow(db);
    EpisodeStep(db, op, e);
    hide Next, ProjectionInv, Windows, QueueInv;
    if op.OpAppend? && op.append.Valid() { AppendIsOk(db, op.append); AppendTakesBlock(db, op.append); }
    if op.OpAppend? && !op.append.Valid() { AppendRefused(db, op.append); }
  }

  /** With no other erasure in the scope meanwhile, an erased episode is named afterwards exactly
      if an extraction that names it and asserts anything commits between the erasure's first
      statement and its last. */
  lemma ErasureMisses(start: Db, between: seq<Op>, scope: ScopeId, ids: seq<Id>, e: Id)
    requires Inv(start) && e in start.episodes && start.episodes[e].scope == scope && Named(ids, e)
    requires RowsHeld(start, start, between, scope, ids) && forall i :: 0 <= i < |between| ==> !ErasesFrom(between[i], scope)
    ensures e !in ForgottenLate(start, Run(start, between), scope, ids).episodes
    ensures NothingNames(ForgottenLate(start, Run(start, between), scope, ids), e) <==> !NamedMeanwhile(start, between, e)
  {
    var mid := Run(start, between);
    NoneMissedYet(start, scope, ids, e);
    MissedAfter(start, start, between, scope, ids, e);
    OnlyFactsRemain(start, mid, scope, ids, e);
    hide Run, RowsHeld, NamedMeanwhile, Forget, NothingNames, Condemned, LogInv, Windows, QueueInv, ErasesFrom;
    MissedRemain(start, mid, scope, ids, e);
  }

  lemma MissedRemain(start: Db, mid: Db, scope: ScopeId, ids: seq<Id>, e: Id)
    ensures var kept := Remaining(start, mid.facts, scope, ids);
      Missed(start, mid.facts, scope, ids, e) <==> exists f :: f in kept && e in kept[f].episodes
  {
    hide Condemned;
    var kept := Remaining(start, mid.facts, scope, ids);
    forall f ensures f in kept <==> f in mid.facts && !(f in start.facts && Condemned(start.facts[f], scope, ids)) {}
  }

  lemma OnlyFactsRemain(start: Db, mid: Db, scope: ScopeId, ids: seq<Id>, e: Id)
    requires ProjectionInv(mid) && e in mid.episodes && mid.episodes[e].scope == scope && Named(ids, e)
    ensures var last := ForgottenLate(start, mid, scope, ids);
      && e !in last.episodes
      && (NothingNames(last, e) <==> forall f :: f in last.facts ==> e !in last.facts[f].episodes)
  {
    ErasureKeepsProjections(mid, scope, ids);
    MissingIsUnnamed(Forget(mid, scope, ids), e);
    hide ProjectionInv, Condemned;
  }
}
