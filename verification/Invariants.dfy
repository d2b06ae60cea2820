/** What every operation keeps. Each part of the invariant has one lemma saying
    that any single operation preserves it; `Reachable` puts them over whole runs. */
module Invariants {
  import opened Model
  import Sets
  import opened Tables
  import opened FactAlgebra

  // ---- The log --------------------------------------------------------------

  /** Every episode sits below its scope's last sequence number, at a place of its own. */
  ghost predicate LogInv(db: Db) {
    && (forall e :: e in db.episodes ==>
          && db.episodes[e].id == e < db.minted
          && db.episodes[e].scope in db.scopes
          && 1 <= db.episodes[e].seqNo <= db.scopes[db.episodes[e].scope])
    && (forall e, f ::
          e in db.episodes && f in db.episodes && e != f && db.episodes[e].scope == db.episodes[f].scope
          ==> db.episodes[e].seqNo != db.episodes[f].seqNo)
  }

  /** The row an append makes of its i-th input. */
  function RowOf(db: Db, cmd: AppendCommand, i: nat): Episode
    requires i < |cmd.episodes|
  {
    Episode(db.minted + i, cmd.episodes[0].scope, LastSeq(db, cmd.episodes[0].scope) + 1 + i,
            cmd.episodes[i].body, cmd.episodes[i].ingestedAt)
  }

  /** What taking the next block of a log means for the scopes and episodes tables. */
  ghost predicate TakesBlock(db: Db, cmd: AppendCommand, db': Db)
    requires cmd.episodes != []
  {
    && db'.scopes == db.scopes[cmd.episodes[0].scope := LastSeq(db, cmd.episodes[0].scope) + |cmd.episodes|]
    && db'.minted >= db.minted + |cmd.episodes|
    && (forall e :: e in db.episodes ==> e in db'.episodes && db'.episodes[e] == db.episodes[e])
    && (forall e :: e in db'.episodes && e !in db.episodes ==>
          db.minted <= e < db.minted + |cmd.episodes| && db'.episodes[e] == RowOf(db, cmd, e - db.minted))
    && (forall e :: db.minted <= e < db.minted + |cmd.episodes| ==> e in db'.episodes)
  }

  /** An append takes the next block of its scope's log, in the order given, and changes no other row. */
  lemma AppendTakesBlock(db: Db, cmd: AppendCommand)
    requires cmd.Valid() && forall e :: e in db.episodes ==> e < db.minted
    ensures TakesBlock(db, cmd, Append(db, cmd).value)
  {
    var rows := NewRows(db.minted, LastSeq(db, cmd.episodes[0].scope), cmd.episodes);
    forall e | e in rows ensures rows[e] == RowOf(db, cmd, e - db.minted) {
      assert cmd.episodes[e - db.minted].scope == cmd.episodes[0].scope;
    }
    BlockOfRows(db, cmd, Append(db, cmd).value, rows);
  }

  lemma BlockOfRows(db: Db, cmd: AppendCommand, db': Db, rows: map<Id, Episode>)
    requires cmd.episodes != [] && forall e :: e in db.episodes ==> e < db.minted
    requires forall e :: e in rows <==> db.minted <= e < db.minted + |cmd.episodes|
    requires forall e :: e in rows ==> rows[e] == RowOf(db, cmd, e - db.minted)
    requires db'.episodes == db.episodes + rows && db'.minted >= db.minted + |cmd.episodes|
    requires db'.scopes == db.scopes[cmd.episodes[0].scope := LastSeq(db, cmd.episodes[0].scope) + |cmd.episodes|]
    ensures TakesBlock(db, cmd, db')
  {}

  lemma AppendKeepsLog(db: Db, cmd: AppendCommand)
    requires LogInv(db) && cmd.Valid()
    ensures LogInv(Append(db, cmd).value)
  {
    AppendTakesBlock(db, cmd);
    BlockKeepsLog(db, cmd, Append(db, cmd).value);
  }

  lemma BlockKeepsLog(db: Db, cmd: AppendCommand, db': Db)
    requires LogInv(db) && cmd.episodes != [] && TakesBlock(db, cmd, db')
    ensures LogInv(db')
  {}

  predicate QueueOp(op: Op) {
    op.OpEnqueue? || op.OpLease? || op.OpSucceed? || op.OpFail? || op.OpReclaim? || op.OpRetry? || op.OpPurge?
  }

  /** Nothing the queue does touches the log or a projection. */
  lemma QueueOpsTouchJobs(db: Db, op: Op)
    requires QueueOp(op)
    ensures Next(db, op) == db.(jobs := Next(db, op).jobs, minted := Next(db, op).minted)
    ensures db.minted <= Next(db, op).minted
  {}

  /** An extraction touches facts, markers and the id counter only. */
  lemma ExtractionTouches(db: Db, cmd: ExtractCommand)
    ensures var db' := Next(db, OpApplyExtraction(cmd));
      db' == db.(markers := db'.markers, facts := db'.facts, minted := db'.minted) && db.minted <= db'.minted
  {}

  /** Which tables an operation can change, and through which function. */
  lemma OpTouches(db: Db, op: Op)
    ensures db.minted <= Next(db, op).minted
    ensures op.OpAppend? ==> Next(db, op) == Kept(db, Append(db, op.append))
    ensures op.OpForget? ==> Next(db, op) == Forget(db, op.scope, op.ids)
    ensures op.OpPutEncoding? ==> Next(db, op) == Kept(db, PutEncoding(db, op.episode, op.model, op.vector, op.at))
    ensures op.OpApplyExtraction? ==> Next(db, op) == Kept(db, ApplyExtraction(db, op.extraction))
    ensures !op.OpAppend? && !op.OpForget? ==> Next(db, op).scopes == db.scopes && Next(db, op).episodes == db.episodes
    ensures !op.OpPutEncoding? && !op.OpForget? && !op.OpDropEncodings? ==> Next(db, op).encodings == db.encodings
    ensures op.OpDropEncodings? ==> Next(db, op).encodings == map[]
    ensures !op.OpApplyExtraction? && !op.OpForget? ==> Next(db, op).markers == db.markers && Next(db, op).facts == db.facts
  {
    if QueueOp(op) { QueueOpsTouchJobs(db, op); }
    if op.OpApplyExtraction? { ExtractionTouches(db, op.extraction); }
  }

  lemma ForgetKeepsLog(db: Db, scope: ScopeId, ids: seq<Id>)
    requires LogInv(db)
    ensures LogInv(Forget(db, scope, ids))
  {}

  lemma LogStep(db: Db, op: Op)
    requires LogInv(db)
    ensures LogInv(Next(db, op)) && db.minted <= Next(db, op).minted
  {
    OpTouches(db, op);
    hide Next;
    if op.OpAppend? {
      if op.append.Valid() { AppendKeepsLog(db, op.append); }
    } else if op.OpForget? {
      ForgetKeepsLog(db, op.scope, op.ids);
    }
  }

  // ---- Projections ----------------------------------------------------------

  ghost predicate OfEpisode(db: Db, e: Id, scope: ScopeId, ingestedAt: Instant) {
    e in db.episodes && db.episodes[e].scope == scope && db.episodes[e].ingestedAt == ingestedAt
  }

  ghost predicate Derived(db: Db, f: Fact) {
    && f.episodes != {}
    && forall e :: e in f.episodes ==>
         e in db.episodes && db.episodes[e].scope == f.scope && (e, f.extractor) in db.markers
  }

  /** Every projection row names only episodes that exist, in its own scope; its copied
      columns agree with L0; every episode a fact names was read by the fact's extractor. */
  ghost predicate ProjectionInv(db: Db) {
    && (forall k :: k in db.encodings ==> OfEpisode(db, k.0, db.encodings[k].scope, db.encodings[k].ingestedAt))
    && (forall k :: k in db.markers ==> OfEpisode(db, k.0, db.markers[k].scope, db.markers[k].ingestedAt))
    && (forall f :: f in db.facts ==> f < db.minted && Derived(db, db.facts[f]))
  }

  lemma {:induction false} WithMarkersEffect(db: Db, cmd: ExtractCommand, episodes: seq<Id>, n: nat)
    ensures var after := WithMarkers(db, cmd, episodes, n);
      && (forall k :: k in after <==>
            k in db.markers || (k.1 == cmd.extractor && k.0 in episodes && k.0 in FoundEpisodes(db, cmd)))
      && (forall k :: k in db.markers ==> after[k] == db.markers[k])
      && (forall k :: k in after && k !in db.markers ==>
            k.0 in db.episodes
            && after[k] == Marker(db.episodes[k.0].scope, db.episodes[k.0].ingestedAt, n, cmd.at))
  {
    if episodes != [] {
      WithMarkersEffect(db, cmd, episodes[..|episodes| - 1], n);
      assert episodes == episodes[..|episodes| - 1] + [episodes[|episodes| - 1]];
    }
  }

  /** When no id is missing, the found episodes are exactly the named ones. */
  lemma AllFound(db: Db, cmd: ExtractCommand)
    requires |FoundEpisodes(db, cmd)| >= |cmd.episodes|
    ensures FoundEpisodes(db, cmd) == (set e: Id | e in cmd.episodes)
  {
    var all := set e: Id | e in cmd.episodes;
    Sets.SizeOfElements(cmd.episodes);
    Sets.SubsetSize(FoundEpisodes(db, cmd), all);
  }

  /** Rows are counted against the names given, so the count is right exactly when every name is
      that of an episode in the scope and none is given twice; otherwise the extraction fails. */
  lemma DuplicateNamesRefused(db: Db, cmd: ExtractCommand)
    requires cmd.Valid() && Dedupe(cmd.asserts).Ok?
    ensures |FoundEpisodes(db, cmd)| >= |cmd.episodes| <==>
      Sets.Distinct(cmd.episodes) && forall e :: e in cmd.episodes ==> e in db.episodes && db.episodes[e].scope == cmd.scope
    ensures |FoundEpisodes(db, cmd)| < |cmd.episodes| ==> ApplyExtraction(db, cmd) == Err(NotFound)
  {
    var found := FoundEpisodes(db, cmd);
    var all := set e: Id | e in cmd.episodes;
    Sets.SizeOfElements(cmd.episodes);
    Sets.SubsetSize(found, all);
    assert found == all <==> forall e :: e in cmd.episodes ==> e in db.episodes && db.episodes[e].scope == cmd.scope by {
      assert forall e :: e in cmd.episodes <==> e in all;
    }
  }

  /** Committing an extraction's conclusions, row by row. */
  lemma ConcludedRows(facts: map<Id, Fact>, first: Id, cmd: ExtractCommand, batch: seq<Assertion>)
    requires Concluded(facts, first, cmd, batch).Ok? && (forall id :: id in facts ==> id < first)
    ensures var r := Concluded(facts, first, cmd, batch).value;
      && facts.Keys <= r.Keys
      && (forall id :: id in r ==> id < first + |batch|)
      && (forall id :: id in facts ==>
            && SameKey(r[id], facts[id]) && r[id].assertedAt == facts[id].assertedAt
            && (r[id].episodes == facts[id].episodes
                || (facts[id].scope == cmd.scope && facts[id].extractor == cmd.extractor
                    && r[id].episodes == facts[id].episodes + set e | e in cmd.episodes))
            && r[id].valid.from == facts[id].valid.from
            && IsEarliest(r[id].valid.to, facts[id].valid.to, CutsFor(cmd.retracts, id)))
      && (forall id :: id in r && id !in facts ==>
            first <= id && exists a :: a in batch && r[id] == NewFact(a, cmd))
  {
    var cut := RetractAll(facts, cmd.scope, cmd.retracts, cmd.at).value;
    RetractAllAccepts(facts, cmd.scope, cmd.retracts, cmd.at);
    forall id | id in facts ensures CutRow(facts[id], cut[id], CutsFor(cmd.retracts, id), cmd.at) {
      RetractAllCuts(facts, cmd.scope, cmd.retracts, cmd.at, id);
    }
    var rows := ToInsert(cut, batch, batch, cmd);
    InsertedAreInBatch(cut, batch, batch, cmd);
    InsertEffect(RefreshAll(cut, batch, cmd), first, rows, cmd);
    var r := Concluded(facts, first, cmd, batch).value;
    forall id | id in r && id !in facts ensures first <= id && exists a :: a in batch && r[id] == NewFact(a, cmd) {
      assert r[first + (id - first)] == NewFact(rows[id - first], cmd);
      assert rows[id - first] in rows;
    }
  }

  lemma ExtractionKeepsProjections(db: Db, cmd: ExtractCommand)
    requires ProjectionInv(db)
    ensures ProjectionInv(Next(db, OpApplyExtraction(cmd)))
  {
    var r := ApplyExtraction(db, cmd);
    if r.Ok? && !AlreadyRead(db, cmd) {
      AllFound(db, cmd);
      var batch := Dedupe(cmd.asserts).value;
      WithMarkersEffect(db, cmd, cmd.episodes, |batch|);
      ConcludedRows(db.facts, db.minted, cmd, batch);
      var db' := r.value;
      forall k | k in db'.markers ensures OfEpisode(db', k.0, db'.markers[k].scope, db'.markers[k].ingestedAt) {
        if k in db.markers { assert OfEpisode(db, k.0, db.markers[k].scope, db.markers[k].ingestedAt); }
      }
      forall f | f in db'.facts ensures f < db'.minted && Derived(db', db'.facts[f]) {
        if f in db.facts {
          assert Derived(db, db.facts[f]);
        } else {
          assert cmd.episodes[0] in db'.facts[f].episodes;
        }
      }
    }
  }

  lemma ErasureKeepsProjections(db: Db, scope: ScopeId, ids: seq<Id>)
    requires ProjectionInv(db)
    ensures ProjectionInv(Forget(db, scope, ids))
  {
    var db' := Forget(db, scope, ids);
    forall f | f in db'.facts ensures Derived(db', db'.facts[f]) {
      assert Derived(db, db.facts[f]);
    }
  }

  lemma AppendKeepsProjections(db: Db, cmd: AppendCommand)
    requires LogInv(db) && ProjectionInv(db) && cmd.Valid()
    ensures ProjectionInv(Append(db, cmd).value)
  {
    AppendTakesBlock(db, cmd);
    var db' := Append(db, cmd).value;
    forall f | f in db'.facts ensures Derived(db', db'.facts[f]) { assert Derived(db, db.facts[f]); }
  }

  lemma EncodingKeepsProjections(db: Db, e: Id, model: ModelId, vector: Vector, at: Instant)
    requires ProjectionInv(db) && e in db.episodes
    ensures ProjectionInv(PutEncoding(db, e, model, vector, at).value)
  {
    var db' := PutEncoding(db, e, model, vector, at).value;
    forall f | f in db'.facts ensures Derived(db', db'.facts[f]) { assert Derived(db, db.facts[f]); }
    forall k | k in db'.encodings ensures OfEpisode(db', k.0, db'.encodings[k].scope, db'.encodings[k].ingestedAt) {
      if k in db.encodings { assert OfEpisode(db, k.0, db.encodings[k].scope, db.encodings[k].ingestedAt); }
    }
  }

  lemma SameTablesKeepProjections(db: Db, db': Db)
    requires ProjectionInv(db) && db'.minted >= db.minted
    requires db'.episodes == db.episodes && db'.markers == db.markers && db'.facts == db.facts
    requires db'.encodings == db.encodings || db'.encodings == map[]
    ensures ProjectionInv(db')
  {
    forall f | f in db'.facts ensures Derived(db', db'.facts[f]) { assert Derived(db, db.facts[f]); }
  }

  lemma ProjectionStep(db: Db, op: Op)
    requires LogInv(db) && ProjectionInv(db)
    ensures ProjectionInv(Next(db, op))
  {
    OpTouches(db, op);
    hide Next, LogInv, ProjectionInv;
    match op
    case OpAppend(cmd) =>
      if cmd.Valid() { AppendKeepsProjections(db, cmd); }
    case OpPutEncoding(e, m, v, at) =>
      if e in db.episodes { EncodingKeepsProjections(db, e, m, v, at); }
    case OpApplyExtraction(cmd) => ExtractionKeepsProjections(db, cmd);
    case OpForget(scope, ids) => ErasureKeepsProjections(db, scope, ids);
    case _ => SameTablesKeepProjections(db, Next(db, op));
  }

  // ---- Windows --------------------------------------------------------------

  lemma WindowStep(db: Db, op: Op)
    requires Windows(db.facts)
    ensures Windows(Next(db, op).facts)
  {
    OpTouches(db, op);
    if op.OpApplyExtraction? { ExtractionKeepsWindows(db, op.extraction); }
    hide Next, ApplyExtraction;
  }

  lemma ExtractionKeepsWindows(db: Db, cmd: ExtractCommand)
    requires Windows(db.facts)
    ensures Windows(Next(db, OpApplyExtraction(cmd)).facts)
  {
    if ApplyExtraction(db, cmd).Ok? && !AlreadyRead(db, cmd) {
      DedupeKeeps(cmd.asserts);
      ConcludedKeepsWindows(db.facts, db.minted, cmd, Dedupe(cmd.asserts).value);
    }
    hide Windows, Concluded, Dedupe, FoundEpisodes, WithMarkers;
  }

  // ---- Queue ----------------------------------------------------------------

  /** The row constraints, and what the attempts of a job say about its state. */
  ghost predicate JobOk(job: Job) {
    && job.episodes != []
    && 0 < job.maxAttempts && job.attempts <= job.maxAttempts
    && (job.state.Pending? ==> job.attempts < job.maxAttempts)
    && (job.state.Dead? ==> job.attempts == job.maxAttempts)
    && (job.state.Running? ==> job.attempts > 0)
    && (job.state.Running? <==> job.leasedUntil.Some? && job.leasedBy.Some?)
    && (job.leasedUntil.Some? <==> job.leasedBy.Some?)
  }

  /** The partial unique index. */
  ghost predicate OneInFlight(jobs: map<Id, Job>) {
    forall i, j ::
      (i in jobs && j in jobs && jobs[i].Outstanding() && jobs[j].Outstanding()
       && jobs[i].SameWork(jobs[j].kind, jobs[j].scope, jobs[j].episodes))
      ==> i == j
  }

  ghost predicate JobsInv(jobs: map<Id, Job>, minted: nat) {
    && (forall j :: j in jobs ==> j < minted && JobOk(jobs[j]))
    && OneInFlight(jobs)
  }

  ghost predicate QueueInv(db: Db) { JobsInv(db.jobs, db.minted) }

  lemma InsertKeepsJobs(jobs: map<Id, Job>, minted: nat, job: Job)
    requires JobsInv(jobs, minted) && JobOk(job)
    ensures JobsInv(InsertJob(jobs, minted, job), minted + 1)
  {}

  lemma {:induction false} BatchJobsKeep(jobs: map<Id, Job>, first: Id, scope: ScopeId, ids: seq<Id>, specs: seq<JobSpec>, at: Instant)
    requires JobsInv(jobs, first) && ids != []
    ensures JobsInv(WithBatchJobs(jobs, first, scope, ids, specs, at), first + |specs|)
    decreases |specs|
  {
    if specs != [] {
      var n := |specs| - 1;
      BatchJobsKeep(jobs, first, scope, ids, specs[..n], at);
      var job := FreshJob(specs[n].kind, scope, ids, specs[n].runAfter, specs[n].maxAttempts, at);
      InsertKeepsJobs(WithBatchJobs(jobs, first, scope, ids, specs[..n], at), first + n, job);
    }
  }

  /** Rows change in place: same work, and never from settled to outstanding. */
  ghost predicate InPlace(jobs: map<Id, Job>, jobs': map<Id, Job>) {
    && jobs'.Keys <= jobs.Keys
    && forall j :: j in jobs' ==>
         && JobOk(jobs'[j]) && jobs'[j].SameWork(jobs[j].kind, jobs[j].scope, jobs[j].episodes)
         && (jobs'[j].Outstanding() ==> jobs[j].Outstanding())
  }

  lemma InPlaceKeeps(jobs: map<Id, Job>, jobs': map<Id, Job>, minted: nat)
    requires JobsInv(jobs, minted) && InPlace(jobs, jobs')
    ensures JobsInv(jobs', minted)
  {
    forall j | j in jobs' ensures j < minted { assert j in jobs; }
  }

  lemma LeasedOk(job: Job, req: LeaseRequest)
    requires JobOk(job) && Claimable(job, req)
    ensures JobOk(Leased(job, req)) && Leased(job, req).SameWork(job.kind, job.scope, job.episodes) && job.Outstanding()
  {}

  lemma LeaseInPlace(db: Db, req: LeaseRequest, locked: set<Id>)
    requires QueueInv(db)
    ensures InPlace(db.jobs, Lease(db, req, locked).jobs)
  {
    var claimed, jobs' := Claimed(db.jobs, req, locked), Lease(db, req, locked).jobs;
    assert forall j :: j in claimed ==> j in db.jobs && Claimable(db.jobs[j], req);
    assert forall j :: j in jobs' ==> j in db.jobs && jobs'[j] == if j in claimed then Leased(db.jobs[j], req) else db.jobs[j];
    hide Claimed, Lease, Claimable, Leased, JobOk;
    forall j | j in claimed ensures JobOk(jobs'[j]) && jobs'[j].SameWork(db.jobs[j].kind, db.jobs[j].scope, db.jobs[j].episodes) && db.jobs[j].Outstanding() {
      LeasedOk(db.jobs[j], req);
    }
  }

  lemma SucceedInPlace(db: Db, id: Id, w: WorkerId, at: Instant)
    requires QueueInv(db)
    ensures InPlace(db.jobs, Kept(db, Succeed(db, id, w, at)).jobs)
  {
    if Holds(db.jobs, id, w) {
      var job := db.jobs[id].(state := Done, leasedUntil := None, leasedBy := None, updatedAt := at);
      assert JobOk(db.jobs[id]) && JobOk(job);
      hide JobOk;
      assert Kept(db, Succeed(db, id, w, at)).jobs == db.jobs[id := job];
    }
  }

  lemma ReleasedOk(job: Job, at: Instant, retryAt: Option<Instant>)
    requires JobOk(job) && job.state.Running?
    ensures JobOk(Released(job, at, retryAt))
  {}

  lemma FailInPlace(db: Db, id: Id, w: WorkerId, at: Instant, retryAt: Instant)
    requires QueueInv(db)
    ensures InPlace(db.jobs, Kept(db, Fail(db, id, w, at, retryAt)).jobs)
  {
    if Holds(db.jobs, id, w) { ReleasedOk(db.jobs[id], at, Some(retryAt)); }
  }

  lemma ReclaimInPlace(db: Db, now: Instant)
    requires QueueInv(db)
    ensures InPlace(db.jobs, Reclaim(db, now).jobs)
  {
    forall j | j in db.jobs && Expired(db.jobs[j], now)
      ensures JobOk(Released(db.jobs[j], now, None))
    {
      ReleasedOk(db.jobs[j], now, None);
    }
  }

  /** Erasure and pruning only take rows away. */
  lemma DroppingKeepsJobs(jobs: map<Id, Job>, jobs': map<Id, Job>, minted: nat)
    requires JobsInv(jobs, minted) && (forall j :: j in jobs' ==> j in jobs && jobs'[j] == jobs[j])
    ensures JobsInv(jobs', minted)
  {}

  lemma AppendKeepsJobs(db: Db, cmd: AppendCommand)
    requires QueueInv(db)
    ensures QueueInv(Kept(db, Append(db, cmd)))
  {
    if cmd.Valid() {
      var n := |cmd.episodes|;
      BatchJobsKeep(db.jobs, db.minted + n, cmd.episodes[0].scope, MintedIds(db.minted, n), cmd.jobs,
                    cmd.episodes[0].ingestedAt);
    }
  }

  lemma EnqueueKeepsJobs(db: Db, job: NewJob, now: Instant)
    requires QueueInv(db)
    ensures QueueInv(Kept(db, Enqueue(db, job, now)))
  {
    if job.episodes != [] {
      InsertKeepsJobs(db.jobs, db.minted,
                      FreshJob(job.kind, job.scope, job.episodes, job.runAfter, job.maxAttempts, now));
    }
  }

  lemma IdsStillBelow(jobs: map<Id, Job>, m: nat, n: nat)
    requires JobsInv(jobs, m) && m <= n
    ensures JobsInv(jobs, n)
  {}

  lemma QueueStep(db: Db, op: Op)
    requires QueueInv(db)
    ensures QueueInv(Next(db, op))
  {
    hide JobsInv, Lease, Reclaim, Succeed, Fail, Retry, Purge, Append, Enqueue, Forget, ApplyExtraction;
    match op
    case OpAppend(cmd) => AppendKeepsJobs(db, cmd);
    case OpEnqueue(job, now) => EnqueueKeepsJobs(db, job, now);
    case OpRetry(id, now) => RetryKeepsJobs(db, id, now);
    case OpApplyExtraction(cmd) => ExtractionTouches(db, cmd); IdsStillBelow(db.jobs, db.minted, Next(db, op).minted);
    case OpPutEncoding(_, _, _, _) =>
    case OpDropEncodings =>
    case OpForget(scope, ids) => ForgetKeepsJobs(db, scope, ids);
    case OpPurge(req) => PurgeKeepsJobs(db, req);
    case OpReclaim(now) => ReclaimKeepsJobs(db, now);
    case OpLease(req, locked) => LeaseKeepsJobs(db, req, locked);
    case OpSucceed(id, w, at) => SucceedKeepsJobs(db, id, w, at);
    case OpFail(id, w, at, retryAt) => FailKeepsJobs(db, id, w, at, retryAt);
  }

  lemma ReclaimKeepsJobs(db: Db, now: Instant)
    requires QueueInv(db)
    ensures QueueInv(Reclaim(db, now))
  {
    ReclaimInPlace(db, now);
    InPlaceKeeps(db.jobs, Reclaim(db, now).jobs, db.minted);
  }

  lemma LeaseKeepsJobs(db: Db, req: LeaseRequest, locked: set<Id>)
    requires QueueInv(db)
    ensures QueueInv(Lease(db, req, locked))
  {
    LeaseInPlace(db, req, locked);
    InPlaceKeeps(db.jobs, Lease(db, req, locked).jobs, db.minted);
  }

  lemma SucceedKeepsJobs(db: Db, id: Id, w: WorkerId, at: Instant)
    requires QueueInv(db)
    ensures QueueInv(Kept(db, Succeed(db, id, w, at)))
  {
    SucceedInPlace(db, id, w, at);
    InPlaceKeeps(db.jobs, Kept(db, Succeed(db, id, w, at)).jobs, db.minted);
  }

  lemma FailKeepsJobs(db: Db, id: Id, w: WorkerId, at: Instant, retryAt: Instant)
    requires QueueInv(db)
    ensures QueueInv(Kept(db, Fail(db, id, w, at, retryAt)))
  {
    FailInPlace(db, id, w, at, retryAt);
    InPlaceKeeps(db.jobs, Kept(db, Fail(db, id, w, at, retryAt)).jobs, db.minted);
  }

  lemma ForgetKeepsJobs(db: Db, scope: ScopeId, ids: seq<Id>)
    requires QueueInv(db)
    ensures QueueInv(Forget(db, scope, ids))
  {
    DroppingKeepsJobs(db.jobs, Forget(db, scope, ids).jobs, db.minted);
  }

  lemma PurgeKeepsJobs(db: Db, req: PurgeRequest)
    requires QueueInv(db)
    ensures QueueInv(Kept(db, Purge(db, req)))
  {
    DroppingKeepsJobs(db.jobs, Kept(db, Purge(db, req)).jobs, db.minted);
  }

  lemma RetryKeepsJobs(db: Db, id: Id, now: Instant)
    requires QueueInv(db)
    ensures QueueInv(Kept(db, Retry(db, id, now)))
  {}

  // ---- Every reachable state ------------------------------------------------

  ghost predicate Inv(db: Db) {
    LogInv(db) && ProjectionInv(db) && Windows(db.facts) && QueueInv(db)
  }

  lemma StepKeepsInv(db: Db, op: Op)
    requires Inv(db)
    ensures Inv(Next(db, op)) && db.minted <= Next(db, op).minted
  {
    LogStep(db, op);
    ProjectionStep(db, op);
    WindowStep(db, op);
    QueueStep(db, op);
  }

  lemma {:induction false} RunKeepsInv(db: Db, ops: seq<Op>)
    requires Inv(db)
    ensures Inv(Run(db, ops)) && db.minted <= Run(db, ops).minted
    decreases |ops|
  {
    if ops != [] {
      StepKeepsInv(db, ops[0]);
      RunKeepsInv(Next(db, ops[0]), ops[1..]);
    }
  }

  /** Whatever clients and workers do, in whatever order, from an empty store. */
  lemma Reachable(ops: seq<Op>)
    ensures Inv(Run(EMPTY, ops))
  {
    RunKeepsInv(EMPTY, ops);
  }
}
