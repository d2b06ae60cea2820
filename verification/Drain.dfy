/** One worker draining one batch with nobody else about: the loops behind the protocol of
    `Workers`, for a worker without an extractor. */
module Drain {
  import opened Model
  import T = Tables
  import opened Invariants
  import opened Workers
  import S = Store

  /** Every episode the job names is there to be read, and the embedder answers. */
  predicate Encodable(db: T.Db, job: Job, works: bool) {
    works && forall i :: 0 <= i < |job.episodes| ==>
      job.episodes[i] in db.episodes && db.episodes[job.episodes[i]].scope == job.scope
  }

  /** Nothing but encodings of this model changed, and none was lost. */
  ghost predicate OnlyEncodes(cfg: Config, db: T.Db, db': T.Db, es: seq<Id>) {
    && db' == db.(encodings := db'.encodings)
    && (forall k :: k in db.encodings ==> k in db'.encodings)
    && (forall k :: k in db'.encodings && !(k.1 == cfg.model && k.0 in es) ==> k in db.encodings && db'.encodings[k] == db.encodings[k])
  }

  ghost predicate Encoded(cfg: Config, db: T.Db, es: seq<Id>) {
    forall i :: 0 <= i < |es| ==> (es[i], cfg.model) in db.encodings
  }

  lemma PutKeeps(cfg: Config, db: T.Db, e: Id, at: Instant)
    requires Inv(db) && EncodingsTrue(cfg, db) && e in db.episodes
    ensures var db' := T.PutEncoding(db, e, cfg.model, cfg.embed(db.episodes[e].body.content), at);
      && db'.Ok? && Inv(db'.value) && EncodingsTrue(cfg, db'.value)
      && OnlyEncodes(cfg, db, db'.value, [e]) && (e, cfg.model) in db'.value.encodings
  {
    var v := cfg.embed(db.episodes[e].body.content);
    PutRow(cfg, db, e, v, at);
    hide T.Next, T.PutEncoding, OnlyEncodes;
    StepKeepsInv(db, T.OpPutEncoding(e, cfg.model, v, at));
    TruthStep(cfg, db, T.OpPutEncoding(e, cfg.model, v, at));
  }

  lemma PutRow(cfg: Config, db: T.Db, e: Id, v: Vector, at: Instant)
    requires e in db.episodes
    ensures var db' := T.PutEncoding(db, e, cfg.model, v, at);
      && db' == Ok(T.Next(db, T.OpPutEncoding(e, cfg.model, v, at)))
      && OnlyEncodes(cfg, db, db'.value, [e]) && (e, cfg.model) in db'.value.encodings
  {}

  lemma EncodesCompose(cfg: Config, a: T.Db, b: T.Db, c: T.Db, ids: seq<Id>, i: nat)
    requires i < |ids| && OnlyEncodes(cfg, a, b, ids) && OnlyEncodes(cfg, b, c, [ids[i]])
    requires Encoded(cfg, b, ids[..i]) && (ids[i], cfg.model) in c.encodings
    ensures OnlyEncodes(cfg, a, c, ids) && Encoded(cfg, c, ids[..i + 1])
  {
    forall k | 0 <= k <= i ensures (ids[k], cfg.model) in c.encodings {
      if k < i { assert (ids[..i][k], cfg.model) in b.encodings; }
    }
  }

  lemma EncodesNothing(cfg: Config, db: T.Db, es: seq<Id>)
    ensures OnlyEncodes(cfg, db, db, es)
  {}

  method ReadEpisodes(store: S.Store, job: Job) returns (r: Option<seq<Episode>>)
    ensures r.Some? <==> Encodable(store.Db(), job, true)
    ensures r.Some? ==> |r.value| == |job.episodes| && forall i :: 0 <= i < |job.episodes| ==> r.value[i] == store.episodes[job.episodes[i]]
  {
    var episodes: seq<Episode> := [];
    for i := 0 to |job.episodes|
      invariant |episodes| == i && forall k :: 0 <= k < i ==>
        job.episodes[k] in store.episodes && episodes[k] == store.episodes[job.episodes[k]] && episodes[k].scope == job.scope
    {
      if job.episodes[i] !in store.episodes || store.episodes[job.episodes[i]].scope != job.scope { return None; }
      episodes := episodes + [store.episodes[job.episodes[i]]];
    }
    return Some(episodes);
  }

  /** Reads the episodes, embeds them in one call, writes the vectors. A missing episode or a
      failing embedder is found before anything is written. */
  method EncodeJob(store: S.Store, cfg: Config, job: Job, works: bool, at: Instant) returns (ok: bool)
    requires Inv(store.Db()) && EncodingsTrue(cfg, store.Db())
    modifies store
    ensures Inv(store.Db()) && EncodingsTrue(cfg, store.Db())
    ensures ok <==> Encodable(old(store.Db()), job, works)
    ensures ok <==> works && forall e :: e in job.episodes ==> e in old(store.episodes) && old(store.episodes)[e].scope == job.scope
    ensures OnlyEncodes(cfg, old(store.Db()), store.Db(), job.episodes)
    ensures if ok then Encoded(cfg, store.Db(), job.episodes) else store.Db() == old(store.Db())
  {
    EncodesNothing(cfg, store.Db(), job.episodes);
    hide Inv, EncodingsTrue, OnlyEncodes;
    var episodes := ReadEpisodes(store, job);
    if episodes.None? { return false; }
    if !works { return false; }
    var vectors := seq(|job.episodes|, i requires 0 <= i < |job.episodes| => cfg.embed(episodes.value[i].body.content));
    WriteEncodings(store, cfg, job.episodes, vectors, at);
    ok := true;
  }

  method WriteEncodings(store: S.Store, cfg: Config, ids: seq<Id>, vectors: seq<Vector>, at: Instant)
    requires Inv(store.Db()) && EncodingsTrue(cfg, store.Db()) && |vectors| == |ids|
    requires forall i :: 0 <= i < |ids| ==> ids[i] in store.episodes && vectors[i] == cfg.embed(store.episodes[ids[i]].body.content)
    modifies store
    ensures Inv(store.Db()) && EncodingsTrue(cfg, store.Db())
    ensures OnlyEncodes(cfg, old(store.Db()), store.Db(), ids) && Encoded(cfg, store.Db(), ids)
  {
    EncodesNothing(cfg, store.Db(), ids);
    assert Encoded(cfg, store.Db(), ids[..0]);
    hide Inv, EncodingsTrue, OnlyEncodes, Encoded, T.PutEncoding;
    for i := 0 to |ids|
      invariant Inv(store.Db()) && EncodingsTrue(cfg, store.Db()) && store.episodes == old(store.episodes)
      invariant OnlyEncodes(cfg, old(store.Db()), store.Db(), ids)
      invariant Encoded(cfg, store.Db(), ids[..i])
    {
      ghost var before := store.Db();
      PutKeeps(cfg, before, ids[i], at);
      var r := store.PutEncoding(ids[i], cfg.model, vectors[i], at);
      EncodesCompose(cfg, old(store.Db()), before, store.Db(), ids, i);
    }
    assert ids[..|ids|] == ids;
  }

  /** How a leased job stands after its worker has run it: done, or handed back with a wait
      that grows with its attempts, or dead when they are spent. */
  function Outcome(leased: Job, good: bool, now: Instant): Job {
    if good then leased.(state := Done, leasedUntil := None, leasedBy := None, updatedAt := now)
    else T.Released(leased, now, Some(now + BackoffFor(leased.attempts)))
  }

  /** One job run and reported: the row ends as its outcome says, and no other row moves. */
  method RunAndReport(store: S.Store, cfg: Config, worker: WorkerId, id: Id, job: Job, works: bool, now: Instant) returns (good: bool)
    requires Inv(store.Db()) && EncodingsTrue(cfg, store.Db())
    requires id in store.jobs && store.jobs[id] == job && job.HeldBy(worker)
    modifies store
    ensures Inv(store.Db()) && EncodingsTrue(cfg, store.Db())
    ensures good <==> Encodable(old(store.Db()), job, works)
    ensures store.episodes == old(store.episodes) && store.jobs == old(store.jobs)[id := Outcome(job, good, now)]
    ensures good ==> store.jobs[id] == job.(state := Done, leasedUntil := None, leasedBy := None, updatedAt := now)
    ensures !good && job.attempts >= job.maxAttempts ==>
      store.jobs[id] == job.(state := Dead, leasedUntil := None, leasedBy := None, updatedAt := now)
    ensures !good && job.attempts < job.maxAttempts ==>
      store.jobs[id] == job.(state := JobState.Pending, runAfter := now + BackoffFor(job.attempts), leasedUntil := None, leasedBy := None, updatedAt := now)
    ensures forall k :: k in old(store.encodings) ==> k in store.encodings
    ensures good ==> Encoded(cfg, store.Db(), job.episodes)
  {
    hide Inv, EncodingsTrue;
    good := EncodeJob(store, cfg, job, works, now);
    ghost var before := store.Db();
    if good {
      StepKeepsInv(before, T.OpSucceed(id, worker, now));
      TruthKept(cfg, before, T.OpSucceed(id, worker, now));
      var r := store.Succeed(id, worker, now);
    } else {
      var wait := RetryBackoff(job.attempts);
      StepKeepsInv(before, T.OpFail(id, worker, now, now + wait));
      TruthKept(cfg, before, T.OpFail(id, worker, now, now + wait));
      var r := store.Fail(id, worker, now, now + wait);
    }
  }

  lemma TruthKept(cfg: Config, db: T.Db, op: T.Op)
    requires Inv(db) && EncodingsTrue(cfg, db) && !op.OpPutEncoding?
    ensures EncodingsTrue(cfg, T.Next(db, op))
  {
    TruthStep(cfg, db, op);
  }

  /** What draining makes of one claimed job. */
  ghost predicate Drained(cfg: Config, start: T.Db, db: T.Db, j: Id, leased: Job, works: bool, now: Instant) {
    var good := Encodable(start, leased, works);
    j in db.jobs && db.jobs[j] == Outcome(leased, good, now) && (good ==> Encoded(cfg, db, leased.episodes))
  }

  lemma LeaseKeepsAll(cfg: Config, db: T.Db, req: LeaseRequest, locked: set<Id>)
    requires Inv(db) && EncodingsTrue(cfg, db)
    ensures Inv(T.Lease(db, req, locked)) && EncodingsTrue(cfg, T.Lease(db, req, locked))
  {
    StepKeepsInv(db, T.OpLease(req, locked));
    TruthStep(cfg, db, T.OpLease(req, locked));
  }

  lemma LeaseRows(db: T.Db, req: LeaseRequest, locked: set<Id>)
    ensures var (leased, claimed) := (T.Lease(db, req, locked).jobs, T.Claimed(db.jobs, req, locked));
      && claimed <= leased.Keys && leased.Keys == db.jobs.Keys
      && (forall j :: j in leased ==> leased[j] == if j in claimed then T.Leased(db.jobs[j], req) else db.jobs[j])
      && (forall j, works :: j in leased ==> Encodable(db, leased[j], works) == Encodable(db, db.jobs[j], works))
  {}

  /** A batch part way through: `left` still stand as leased, `good` are those that ended done. */
  ghost predicate Draining(cfg: Config, start: T.Db, db: T.Db, leased: map<Id, Job>, claimed: set<Id>, left: set<Id>,
                           works: Id -> bool, now: Instant, good: set<Id>)
  {
    && left <= claimed <= leased.Keys && db.episodes == start.episodes && db.jobs.Keys == leased.Keys
    && (forall j :: j in leased && (j !in claimed || j in left) ==> db.jobs[j] == leased[j])
    && (forall j :: j in claimed && j !in left ==> Drained(cfg, start, db, j, leased[j], works(j), now))
    && (forall j :: j in good <==> j in claimed && j !in left && Encodable(start, leased[j], works(j)))
  }

  lemma DrainStarts(cfg: Config, start: T.Db, db: T.Db, jobs: map<Id, Job>, works: Id -> bool, now: Instant)
    requires db.episodes == start.episodes && forall j :: j in jobs ==> j in db.jobs
    ensures Draining(cfg, start, db, db.jobs, jobs.Keys, jobs.Keys, works, now, {})
  {}

  lemma DrainStep(cfg: Config, start: T.Db, before: T.Db, after: T.Db, leased: map<Id, Job>, claimed: set<Id>, left: set<Id>,
                  works: Id -> bool, now: Instant, good: set<Id>, j: Id, ok: bool)
    requires Draining(cfg, start, before, leased, claimed, left, works, now, good) && j in left
    requires ok == Encodable(before, leased[j], works(j)) && (ok ==> Encoded(cfg, after, leased[j].episodes))
    requires after.episodes == before.episodes && after.jobs == before.jobs[j := Outcome(leased[j], ok, now)]
    requires forall e :: e in before.encodings ==> e in after.encodings
    ensures Draining(cfg, start, after, leased, claimed, left - {j}, works, now, if ok then good + {j} else good)
    ensures j !in good
  {
    assert Encodable(before, leased[j], works(j)) == Encodable(start, leased[j], works(j));
    assert Drained(cfg, start, after, j, leased[j], works(j), now);
    forall k | k in claimed && k !in left ensures Drained(cfg, start, after, k, leased[k], works(k), now) {
      assert Drained(cfg, start, before, k, leased[k], works(k), now);
    }
    hide Drained, Encodable, Outcome, Encoded;
  }

  lemma DrainEnds(cfg: Config, start: T.Db, db: T.Db, req: LeaseRequest, locked: set<Id>, works: Id -> bool, now: Instant, good: set<Id>)
    requires Draining(cfg, start, db, T.Lease(start, req, locked).jobs, T.Claimed(start.jobs, req, locked), {}, works, now, good)
    ensures var claimed := T.Claimed(start.jobs, req, locked);
      && db.jobs.Keys == start.jobs.Keys
      && (forall j :: j in start.jobs && j !in claimed ==> db.jobs[j] == start.jobs[j])
      && (forall j :: j in claimed ==> Drained(cfg, start, db, j, T.Leased(start.jobs[j], req), works(j), now))
      && good == set j | j in claimed && Encodable(start, start.jobs[j], works(j))
  {
    LeaseRows(start, req, locked);
    hide Drained, Encodable, T.Claimed;
  }

  /** The loop over the leased jobs. `start` is the store before they were leased. */
  method RunBatch(store: S.Store, cfg: Config, worker: WorkerId, jobs: map<Id, Job>, works: Id -> bool, now: Instant, ghost start: T.Db)
    returns (done: nat, ghost good: set<Id>)
    requires Inv(store.Db()) && EncodingsTrue(cfg, store.Db()) && store.episodes == start.episodes
    requires forall j :: j in jobs ==> j in store.jobs && jobs[j] == store.jobs[j] && jobs[j].HeldBy(worker)
    modifies store
    ensures Inv(store.Db()) && EncodingsTrue(cfg, store.Db()) && done == |good|
    ensures Draining(cfg, start, store.Db(), old(store.jobs), jobs.Keys, {}, works, now, good)
  {
    hide Inv, EncodingsTrue, Draining;
    done, good := 0, {};
    ghost var leased := store.jobs;
    var left := jobs.Keys;
    DrainStarts(cfg, start, store.Db(), jobs, works, now);
    while left != {}
      invariant left <= jobs.Keys && Inv(store.Db()) && EncodingsTrue(cfg, store.Db()) && done == |good|
      invariant Draining(cfg, start, store.Db(), leased, jobs.Keys, left, works, now, good)
      decreases left
    {
      var j :| j in left;
      var ok := RunNext(store, cfg, worker, jobs, works, now, start, leased, left, good, j);
      if ok {
        done, good := done + 1, good + {j};
      }
      left := left - {j};
    }
  }

  /** One turn of that loop. */
  method RunNext(store: S.Store, cfg: Config, worker: WorkerId, jobs: map<Id, Job>, works: Id -> bool, now: Instant, ghost start: T.Db,
                 ghost leased: map<Id, Job>, ghost left: set<Id>, ghost good: set<Id>, j: Id)
    returns (ok: bool)
    requires Inv(store.Db()) && EncodingsTrue(cfg, store.Db()) && Draining(cfg, start, store.Db(), leased, jobs.Keys, left, works, now, good)
    requires j in left && j in jobs && j in leased && jobs[j] == leased[j] && jobs[j].HeldBy(worker)
    modifies store
    ensures Inv(store.Db()) && EncodingsTrue(cfg, store.Db()) && j !in good
    ensures Draining(cfg, start, store.Db(), leased, jobs.Keys, left - {j}, works, now, if ok then good + {j} else good)
  {
    hide Inv, EncodingsTrue, Draining, Encodable, Outcome, Encoded;
    ghost var before := store.Db();
    StillLeased(cfg, start, before, leased, jobs.Keys, left, works, now, good, j);
    ok := RunAndReport(store, cfg, worker, j, jobs[j], works(j), now);
    DrainStep(cfg, start, before, store.Db(), leased, jobs.Keys, left, works, now, good, j, ok);
  }

  lemma StillLeased(cfg: Config, start: T.Db, db: T.Db, leased: map<Id, Job>, claimed: set<Id>, left: set<Id>,
                    works: Id -> bool, now: Instant, good: set<Id>, j: Id)
    requires Draining(cfg, start, db, leased, claimed, left, works, now, good) && j in left
    ensures j in db.jobs && j in leased && db.jobs[j] == leased[j]
  {}

  /** Every job claimed is run and reported: each ends done exactly when all its episodes could
      be read and embedded, with its encodings written, and no other job changes. */
  method DrainOnce(store: S.Store, cfg: Config, worker: WorkerId, batch: nat, lease: nat, locked: set<Id>, works: Id -> bool, now: Instant)
    returns (done: nat, ghost claimed: set<Id>)
    requires Inv(store.Db()) && EncodingsTrue(cfg, store.Db())
    modifies store
    ensures Inv(store.Db()) && EncodingsTrue(cfg, store.Db()) && store.episodes == old(store.episodes)
    ensures var req := LeaseRequest({Encode}, worker, batch, lease, now);
      && claimed == T.Claimed(old(store.jobs), req, locked) && store.jobs.Keys == old(store.jobs).Keys
      && (forall j :: j in old(store.jobs) && j !in claimed ==> store.jobs[j] == old(store.jobs)[j])
      && (forall j :: j in claimed ==> Drained(cfg, old(store.Db()), store.Db(), j, T.Leased(old(store.jobs)[j], req), works(j), now))
    ensures done == |set j | j in claimed && Encodable(old(store.Db()), old(store.jobs)[j], works(j))|
  {
    ghost var start := store.Db();
    var req := LeaseRequest({Encode}, worker, batch, lease, now);
    LeaseKeepsAll(cfg, start, req, locked);
    var jobs := store.Lease(req, locked);
    claimed := jobs.Keys;
    LeaseRows(start, req, locked);
    hide Inv, EncodingsTrue, T.Claimed, Drained, Encodable, Draining;
    ghost var good;
    done, good := RunBatch(store, cfg, worker, jobs, works, now, start);
    DrainEnds(cfg, start, store.Db(), req, locked, works, now, good);
  }
}
