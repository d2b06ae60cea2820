/** The tables of the store as one value, and every statement or transaction that
    changes them as a function from tables to tables. An operation that fails
    leaves the tables as they were. */
module Tables {
  import opened Model

  datatype Db = Db(
    scopes: map<ScopeId, nat>,                        // last_seq by scope
    episodes: map<Id, Episode>,
    encodings: map<(Id, ModelId), Encoding>,
    markers: map<(Id, ExtractorId), Marker>,
    facts: map<Id, Fact>,
    jobs: map<Id, Job>,
    minted: nat)                                      // every id below this one was handed out

  const EMPTY := Db(map[], map[], map[], map[], map[], map[], 0)

  // ---- Queue inserts --------------------------------------------------------

  /** What the partial unique index over pending and running rows covers. */
  predicate InFlight(jobs: map<Id, Job>, kind: JobKind, scope: ScopeId, episodes: seq<Id>) {
    exists j :: j in jobs && jobs[j].Outstanding() && jobs[j].SameWork(kind, scope, episodes)
  }

  function FreshJob(kind: JobKind, scope: ScopeId, episodes: seq<Id>, runAfter: Option<Instant>,
                    maxAttempts: nat, now: Instant): Job
  {
    Job(kind, scope, episodes, Pending, 0,
        if maxAttempts == 0 then DEFAULT_MAX_ATTEMPTS else maxAttempts,
        if runAfter.Some? then runAfter.value else now, None, None, now, now)
  }

  /** INSERT ... ON CONFLICT DO NOTHING against that index. */
  function InsertJob(jobs: map<Id, Job>, id: Id, job: Job): map<Id, Job> {
    if InFlight(jobs, job.kind, job.scope, job.episodes) then jobs else jobs[id := job]
  }

  // ---- Append (postgres/episode.go) -----------------------------------------

  function LastSeq(db: Db, scope: ScopeId): nat {
    if scope in db.scopes then db.scopes[scope] else 0
  }

  function MintedIds(first: Id, n: nat): (ids: seq<Id>)
    ensures |ids| == n && forall i :: 0 <= i < n ==> ids[i] == first + i
  {
    seq(n, i requires 0 <= i < n => first + i)
  }

  /** Input row i becomes the episode with sequence number base + 1 + i. */
  function NewRows(first: Id, base: nat, news: seq<NewEpisode>): (rows: map<Id, Episode>)
    ensures forall id :: id in rows <==> first <= id < first + |news|
    ensures forall id :: id in rows ==>
      rows[id] == Episode(id, news[id - first].scope, base + 1 + (id - first), news[id - first].body, news[id - first].ingestedAt)
    decreases |news|
  {
    if news == [] then map[]
    else
      var n := |news| - 1;
      NewRows(first, base, news[..n])[
        first + n := Episode(first + n, news[n].scope, base + 1 + n, news[n].body, news[n].ingestedAt)]
  }

  /** One job per kind, each naming the whole batch. */
  function WithBatchJobs(jobs: map<Id, Job>, first: Id, scope: ScopeId, ids: seq<Id>,
                         specs: seq<JobSpec>, at: Instant): map<Id, Job>
    decreases |specs|
  {
    if specs == [] then jobs
    else
      var n := |specs| - 1;
      InsertJob(WithBatchJobs(jobs, first, scope, ids, specs[..n], at), first + n,
                FreshJob(specs[n].kind, scope, ids, specs[n].runAfter, specs[n].maxAttempts, at))
  }

  function Append(db: Db, cmd: AppendCommand): Result<Db> {
    if !cmd.Valid() then Err(InvalidConfig)
    else
      var scope, n, base := cmd.episodes[0].scope, |cmd.episodes|, LastSeq(db, cmd.episodes[0].scope);
      Ok(db.(
        scopes := db.scopes[scope := base + n],
        episodes := db.episodes + NewRows(db.minted, base, cmd.episodes),
        jobs := WithBatchJobs(db.jobs, db.minted + n, scope, MintedIds(db.minted, n),
                              cmd.jobs, cmd.episodes[0].ingestedAt),
        minted := db.minted + n + |cmd.jobs|))
  }

  // ---- Queue (postgres/queue.go) --------------------------------------------

  function Enqueue(db: Db, job: NewJob, now: Instant): Result<Db> {
    if job.episodes == [] then Err(InvalidConfig)
    else if job.scope !in db.scopes then Err(NotFound)
    else Ok(db.(
      jobs := InsertJob(db.jobs, db.minted,
                        FreshJob(job.kind, job.scope, job.episodes, job.runAfter, job.maxAttempts, now)),
      minted := db.minted + 1))
  }

  predicate Claimable(job: Job, req: LeaseRequest) {
    && job.state.Pending? && job.runAfter <= req.now && job.attempts < job.maxAttempts
    && (req.kinds == {} || job.kind in req.kinds)
  }

  /** ORDER BY run_after, id. */
  predicate Before(jobs: map<Id, Job>, i: Id, j: Id)
    requires i in jobs && j in jobs
  {
    jobs[i].runAfter < jobs[j].runAfter || (jobs[i].runAfter == jobs[j].runAfter && i < j)
  }

  /** Claimable rows no concurrent transaction has locked. */
  function Candidates(jobs: map<Id, Job>, req: LeaseRequest, locked: set<Id>): set<Id> {
    set j | j in jobs && j !in locked && Claimable(jobs[j], req)
  }

  function LeaseLimit(req: LeaseRequest): nat { if req.limit == 0 then 1 else req.limit }

  /** The candidates that come before a row. */
  function Ahead(jobs: map<Id, Job>, cs: set<Id>, j: Id): set<Id>
    requires cs <= jobs.Keys && j in jobs
  {
    set i | i in cs && Before(jobs, i, j)
  }

  /** The first `limit` candidates: those fewer than `limit` candidates precede. */
  function Claimed(jobs: map<Id, Job>, req: LeaseRequest, locked: set<Id>): set<Id> {
    var cs := Candidates(jobs, req, locked);
    set j | j in cs && |Ahead(jobs, cs, j)| < LeaseLimit(req)
  }

  function LeaseEnd(req: LeaseRequest): Instant {
    req.now + if req.duration == 0 then DEFAULT_LEASE_DURATION else req.duration
  }

  function Leased(job: Job, req: LeaseRequest): Job {
    job.(state := Running, attempts := job.attempts + 1, leasedUntil := Some(LeaseEnd(req)),
         leasedBy := Some(req.worker), updatedAt := req.now)
  }

  function Lease(db: Db, req: LeaseRequest, locked: set<Id>): Db {
    var claimed := Claimed(db.jobs, req, locked);
    db.(jobs := map j | j in db.jobs :: if j in claimed then Leased(db.jobs[j], req) else db.jobs[j])
  }

  /** A report by a worker that no longer holds the job changes nothing. */
  predicate Holds(jobs: map<Id, Job>, id: Id, worker: WorkerId) {
    id in jobs && jobs[id].HeldBy(worker)
  }

  function Succeed(db: Db, id: Id, worker: WorkerId, at: Instant): Result<Db> {
    if id !in db.jobs then Err(NotFound)
    else if !Holds(db.jobs, id, worker) then Err(JobNotLeased)
    else Ok(db.(jobs := db.jobs[id := db.jobs[id].(
      state := Done, leasedUntil := None, leasedBy := None, updatedAt := at)]))
  }

  /** Out of attempts goes dead; otherwise the job waits until `retryAt`. */
  function Released(job: Job, at: Instant, retryAt: Option<Instant>): Job {
    var spent := job.attempts >= job.maxAttempts;
    job.(state := if spent then Dead else Pending,
         runAfter := if spent || retryAt.None? then job.runAfter else retryAt.value,
         leasedUntil := None, leasedBy := None, updatedAt := at)
  }

  function Fail(db: Db, id: Id, worker: WorkerId, at: Instant, retryAt: Instant): Result<Db> {
    if id !in db.jobs then Err(NotFound)
    else if !Holds(db.jobs, id, worker) then Err(JobNotLeased)
    else Ok(db.(jobs := db.jobs[id := Released(db.jobs[id], at, Some(retryAt))]))
  }

  predicate Expired(job: Job, now: Instant) {
    job.state.Running? && job.leasedUntil.Some? && job.leasedUntil.value < now
  }

  function Reclaim(db: Db, now: Instant): Db {
    db.(jobs := map j | j in db.jobs ::
      if Expired(db.jobs[j], now) then Released(db.jobs[j], now, None) else db.jobs[j])
  }

  /** Refused when the same work is already in flight: the unique index would break. */
  function Retry(db: Db, id: Id, now: Instant): Result<Db> {
    if id !in db.jobs then Err(NotFound)
    else if !db.jobs[id].state.Dead? then Err(JobNotDead)
    else if InFlight(db.jobs, db.jobs[id].kind, db.jobs[id].scope, db.jobs[id].episodes) then Err(JobOutstanding)
    else Ok(db.(jobs := db.jobs[id := db.jobs[id].(
      state := Pending, attempts := 0, runAfter := now, leasedUntil := None, leasedBy := None, updatedAt := now)]))
  }

  predicate Purgeable(job: Job, req: PurgeRequest) {
    && (if req.states == {} then job.state.Done? || job.state.Dead? else job.state in req.states)
    && job.updatedAt < req.before
  }

  function PurgeableRows(jobs: map<Id, Job>, req: PurgeRequest): set<Id> {
    set j | j in jobs && Purgeable(jobs[j], req)
  }

  function Older(ids: set<Id>, j: Id): set<Id> { set i | i in ids && i < j }

  /** The oldest `limit` purgeable rows. */
  function Purged(jobs: map<Id, Job>, req: PurgeRequest): set<Id> {
    var cs := PurgeableRows(jobs, req);
    set j | j in cs && |Older(cs, j)| < (if req.limit == 0 then DEFAULT_PURGE_LIMIT else req.limit)
  }

  function Purge(db: Db, req: PurgeRequest): Result<Db> {
    if !req.Valid() then Err(InvalidJobState)
    else Ok(db.(jobs := db.jobs - Purged(db.jobs, req)))
  }

  // ---- Encodings (postgres/encoding.go) -------------------------------------

  /** The scope and ingest time come from the episode row; an upsert keeps them. */
  function PutEncoding(db: Db, episode: Id, model: ModelId, vector: Vector, at: Instant): Result<Db> {
    if episode !in db.episodes then Err(NotFound)
    else
      var e := db.episodes[episode];
      var row := if (episode, model) in db.encodings
                 then db.encodings[(episode, model)].(vector := vector, encodedAt := at)
                 else Encoding(e.scope, e.ingestedAt, vector, at);
      Ok(db.(encodings := db.encodings[(episode, model) := row]))
  }

  // ---- Facts (postgres/fact.go) ---------------------------------------------

  /** The same claim over exactly the same window was already kept. */
  predicate Listed(kept: seq<Assertion>, a: Assertion) {
    exists k :: 0 <= k < |kept| && kept[k].triple == a.triple && kept[k].valid == a.valid
  }

  /** A kept window of the same triple overlaps this one. */
  predicate Clashes(kept: seq<Assertion>, a: Assertion) {
    exists k :: 0 <= k < |kept| && kept[k].triple == a.triple && kept[k].valid.Overlaps(a.valid)
  }

  /** Drops exact repeats; refuses two different overlapping windows of one triple. */
  function Dedupe(batch: seq<Assertion>): Result<seq<Assertion>> {
    if batch == [] then Ok([])
    else
      var a := batch[|batch| - 1];
      match Dedupe(batch[..|batch| - 1])
      case Err(e) => Err(e)
      case Ok(kept) =>
        if Listed(kept, a) then Ok(kept)
        else if Clashes(kept, a) then Err(FactConflict)
        else Ok(kept + [a])
  }

  function Closed(f: Fact, r: Instant, at: Instant): Fact {
    f.(valid := Validity(f.valid.from, Some(r)), updatedAt := at)
  }

  /** Closes one window. Already closed by then is accepted and changes nothing. */
  function RetractOne(facts: map<Id, Fact>, scope: ScopeId, r: Retraction, at: Instant): Result<map<Id, Fact>> {
    if r.fact !in facts || facts[r.fact].scope != scope then Err(NotFound)
    else
      var f := facts[r.fact];
      if !(f.valid.from < r.at) then Err(InvalidValidity)
      else if f.valid.IsOpen() || f.valid.to.value > r.at then Ok(facts[r.fact := Closed(f, r.at, at)])
      else Ok(facts)
  }

  function RetractAll(facts: map<Id, Fact>, scope: ScopeId, rs: seq<Retraction>, at: Instant): Result<map<Id, Fact>> {
    if rs == [] then Ok(facts)
    else
      match RetractAll(facts, scope, rs[..|rs| - 1], at)
      case Err(e) => Err(e)
      case Ok(done) => RetractOne(done, scope, rs[|rs| - 1], at)
  }

  predicate SameKey(f: Fact, g: Fact) {
    f.scope == g.scope && f.extractor == g.extractor && f.triple == g.triple
  }

  /** The row an assertion would refresh: same key and exactly the same window. */
  predicate Restates(a: Assertion, f: Fact, cmd: ExtractCommand) {
    f.scope == cmd.scope && f.extractor == cmd.extractor && f.triple == a.triple && f.valid == a.valid
  }

  function Restating(batch: seq<Assertion>, f: Fact, cmd: ExtractCommand): (r: Option<Assertion>)
    ensures r.Some? ==> r.value in batch && Restates(r.value, f, cmd)
    ensures r.None? ==> forall a :: a in batch ==> !Restates(a, f, cmd)
  {
    if batch == [] then None
    else if Restates(batch[0], f, cmd) then Some(batch[0])
    else Restating(batch[1..], f, cmd)
  }

  function Refreshed(f: Fact, a: Assertion, cmd: ExtractCommand): Fact {
    f.(statement := a.statement, confidence := a.confidence,
       episodes := f.episodes + (set e | e in cmd.episodes), updatedAt := cmd.at)
  }

  function RefreshAll(facts: map<Id, Fact>, batch: seq<Assertion>, cmd: ExtractCommand): map<Id, Fact> {
    map id | id in facts ::
      var a := Restating(batch, facts[id], cmd);
      if a.Some? then Refreshed(facts[id], a.value, cmd) else facts[id]
  }

  /** A triple any row of which was refreshed is not inserted, whatever its window. */
  predicate TripleRefreshed(facts: map<Id, Fact>, batch: seq<Assertion>, cmd: ExtractCommand, t: Triple) {
    exists id :: id in facts && facts[id].triple == t && Restating(batch, facts[id], cmd).Some?
  }

  function ToInsert(facts: map<Id, Fact>, all: seq<Assertion>, batch: seq<Assertion>, cmd: ExtractCommand): seq<Assertion> {
    if batch == [] then []
    else
      var n := |batch| - 1;
      ToInsert(facts, all, batch[..n], cmd)
      + (if TripleRefreshed(facts, all, cmd, batch[n].triple) then [] else [batch[n]])
  }

  function NewFact(a: Assertion, cmd: ExtractCommand): Fact {
    Fact(cmd.scope, cmd.extractor, a.triple, a.statement, a.valid, a.confidence,
         (set e | e in cmd.episodes), cmd.at, cmd.at)
  }

  /** What the temporal primary key refuses. */
  predicate Collides(facts: map<Id, Fact>, f: Fact) {
    exists id :: id in facts && SameKey(facts[id], f) && facts[id].valid.Overlaps(f.valid)
  }

  function InsertFacts(facts: map<Id, Fact>, first: Id, rows: seq<Assertion>, cmd: ExtractCommand): Result<map<Id, Fact>> {
    if rows == [] then Ok(facts)
    else
      var n := |rows| - 1;
      match InsertFacts(facts, first, rows[..n], cmd)
      case Err(e) => Err(e)
      case Ok(done) =>
        if Collides(done, NewFact(rows[n], cmd)) then Err(FactConflict)
        else Ok(done[first + n := NewFact(rows[n], cmd)])
  }

  /** The named episodes that exist in the command's scope. */
  function FoundEpisodes(db: Db, cmd: ExtractCommand): set<Id> {
    set e | e in cmd.episodes && e in db.episodes && db.episodes[e].scope == cmd.scope
  }

  /** No marker would be new: this extractor has read every one of them before. */
  predicate AlreadyRead(db: Db, cmd: ExtractCommand) {
    forall e :: e in FoundEpisodes(db, cmd) ==> (e, cmd.extractor) in db.markers
  }

  /** Marks each found episode not yet marked, copying its scope and ingest time. */
  function WithMarkers(db: Db, cmd: ExtractCommand, episodes: seq<Id>, factCount: nat): map<(Id, ExtractorId), Marker> {
    if episodes == [] then db.markers
    else
      var e := episodes[|episodes| - 1];
      var before := WithMarkers(db, cmd, episodes[..|episodes| - 1], factCount);
      if e in FoundEpisodes(db, cmd) && (e, cmd.extractor) !in before
      then before[(e, cmd.extractor) := Marker(db.episodes[e].scope, db.episodes[e].ingestedAt, factCount, cmd.at)]
      else before
  }

  /** Retractions, then assertions, on the tables of a transaction already marked. */
  function Concluded(facts: map<Id, Fact>, first: Id, cmd: ExtractCommand, batch: seq<Assertion>): Result<map<Id, Fact>> {
    match RetractAll(facts, cmd.scope, cmd.retracts, cmd.at)
    case Err(e) => Err(e)
    case Ok(cut) => InsertFacts(RefreshAll(cut, batch, cmd), first, ToInsert(cut, batch, batch, cmd), cmd)
  }

  function ApplyExtraction(db: Db, cmd: ExtractCommand): Result<Db> {
    if !cmd.Valid() then Err(InvalidExtraction)
    else
      match Dedupe(cmd.asserts)
      case Err(e) => Err(e)
      case Ok(batch) =>
        if |FoundEpisodes(db, cmd)| < |cmd.episodes| then Err(NotFound)
        else if AlreadyRead(db, cmd) then Ok(db)
        else
          match Concluded(db.facts, db.minted, cmd, batch)
          case Err(e) => Err(e)
          case Ok(facts) =>
            Ok(db.(markers := WithMarkers(db, cmd, cmd.episodes, |batch|), facts := facts, minted := db.minted + |batch|))
  }

  // ---- Erasure (postgres/forget.go) -----------------------------------------

  /** No episodes named means the whole scope. */
  predicate Named(ids: seq<Id>, e: Id) { ids == [] || e in ids }

  predicate NamesAny(ids: seq<Id>, es: set<Id>) { ids == [] || exists e :: e in es && e in ids }

  function KeepFacts(facts: map<Id, Fact>, scope: ScopeId, ids: seq<Id>): map<Id, Fact> {
    map f | f in facts && !(facts[f].scope == scope && NamesAny(ids, facts[f].episodes)) :: facts[f]
  }

  function KeepMarkers(markers: map<(Id, ExtractorId), Marker>, scope: ScopeId, ids: seq<Id>): map<(Id, ExtractorId), Marker> {
    map k | k in markers && !(markers[k].scope == scope && Named(ids, k.0)) :: markers[k]
  }

  function KeepEncodings(encodings: map<(Id, ModelId), Encoding>, scope: ScopeId, ids: seq<Id>): map<(Id, ModelId), Encoding> {
    map k | k in encodings && !(encodings[k].scope == scope && Named(ids, k.0)) :: encodings[k]
  }

  /** A job losing one erased episode is dropped whole. */
  predicate JobNames(job: Job, ids: seq<Id>) { NamesAny(ids, set e | e in job.episodes) }

  function KeepJobs(jobs: map<Id, Job>, scope: ScopeId, ids: seq<Id>): map<Id, Job> {
    map j | j in jobs && !(jobs[j].scope == scope && JobNames(jobs[j], ids)) :: jobs[j]
  }

  function KeepEpisodes(episodes: map<Id, Episode>, scope: ScopeId, ids: seq<Id>): map<Id, Episode> {
    map e | e in episodes && !(episodes[e].scope == scope && Named(ids, e)) :: episodes[e]
  }

  function Forget(db: Db, scope: ScopeId, ids: seq<Id>): Db {
    Db(if ids == [] then db.scopes - {scope} else db.scopes,
       KeepEpisodes(db.episodes, scope, ids),
       KeepEncodings(db.encodings, scope, ids),
       KeepMarkers(db.markers, scope, ids),
       KeepFacts(db.facts, scope, ids),
       KeepJobs(db.jobs, scope, ids),
       db.minted)
  }

  // ---- Runs -----------------------------------------------------------------

  datatype Op =
    | OpAppend(append: AppendCommand)
    | OpEnqueue(job: NewJob, now: Instant)
    | OpLease(req: LeaseRequest, locked: set<Id>)
    | OpSucceed(id: Id, worker: WorkerId, at: Instant)
    | OpFail(id: Id, worker: WorkerId, at: Instant, retryAt: Instant)
    | OpReclaim(now: Instant)
    | OpRetry(id: Id, now: Instant)
    | OpPurge(purge: PurgeRequest)
    | OpPutEncoding(episode: Id, model: ModelId, vector: Vector, at: Instant)
    | OpApplyExtraction(extraction: ExtractCommand)
    | OpForget(scope: ScopeId, ids: seq<Id>)
    | OpDropEncodings                                  // TRUNCATE of the projection

  function Kept(db: Db, r: Result<Db>): Db { if r.Ok? then r.value else db }

  function Next(db: Db, op: Op): Db {
    match op
    case OpAppend(cmd) => Kept(db, Append(db, cmd))
    case OpEnqueue(job, now) => Kept(db, Enqueue(db, job, now))
    case OpLease(req, locked) => Lease(db, req, locked)
    case OpSucceed(id, w, at) => Kept(db, Succeed(db, id, w, at))
    case OpFail(id, w, at, retryAt) => Kept(db, Fail(db, id, w, at, retryAt))
    case OpReclaim(now) => Reclaim(db, now)
    case OpRetry(id, now) => Kept(db, Retry(db, id, now))
    case OpPurge(req) => Kept(db, Purge(db, req))
    case OpPutEncoding(e, m, v, at) => Kept(db, PutEncoding(db, e, m, v, at))
    case OpApplyExtraction(cmd) => Kept(db, ApplyExtraction(db, cmd))
    case OpForget(scope, ids) => Forget(db, scope, ids)
    case OpDropEncodings => db.(encodings := map[])
  }

  /** Any interleaving of any number of clients and workers is one such sequence. */
  function Run(db: Db, ops: seq<Op>): Db
    decreases |ops|
  {
    if ops == [] then db else Run(Next(db, ops[0]), ops[1..])
  }
}
