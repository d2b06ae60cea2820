/** What single operations achieve, beyond what they keep: the work an append implies is
    queued, conclusions land, failures wait, reclaiming and purging reach exactly their rows. */
module Effects {
  import opened Model
  import Sets
  import opened Tables
  import opened FactAlgebra
  import opened Invariants
  import opened QueueHistories

  // ---- Queueing -------------------------------------------------------------

  ghost predicate Queued(jobs: map<Id, Job>, kind: JobKind, scope: ScopeId, es: seq<Id>) {
    exists j :: j in jobs && jobs[j].Outstanding() && jobs[j].SameWork(kind, scope, es)
  }

  lemma {:induction false} BatchQueued(jobs: map<Id, Job>, first: Id, scope: ScopeId, ids: seq<Id>, specs: seq<JobSpec>, at: Instant, k: nat)
    requires k < |specs| && forall j :: j in jobs ==> j < first
    ensures Queued(WithBatchJobs(jobs, first, scope, ids, specs, at), specs[k].kind, scope, ids)
    decreases |specs|
  {
    var n := |specs| - 1;
    var before := WithBatchJobs(jobs, first, scope, ids, specs[..n], at);
    var job := FreshJob(specs[n].kind, scope, ids, specs[n].runAfter, specs[n].maxAttempts, at);
    BatchIdsBelow(jobs, first, scope, ids, specs[..n], at);
    if k < n {
      BatchQueued(jobs, first, scope, ids, specs[..n], at, k);
      var j :| j in before && before[j].Outstanding() && before[j].SameWork(specs[k].kind, scope, ids);
      assert InsertJob(before, first + n, job)[j] == before[j];
    } else if !InFlight(before, job.kind, job.scope, job.episodes) {
      assert InsertJob(before, first + n, job)[first + n] == job;
    }
  }

  lemma {:induction false} BatchIdsBelow(jobs: map<Id, Job>, first: Id, scope: ScopeId, ids: seq<Id>, specs: seq<JobSpec>, at: Instant)
    requires forall j :: j in jobs ==> j < first
    ensures forall j :: j in WithBatchJobs(jobs, first, scope, ids, specs, at) ==> j < first + |specs|
    decreases |specs|
  {
    if specs != [] { BatchIdsBelow(jobs, first, scope, ids, specs[..|specs| - 1], at); }
  }

  /** The work an append implies commits with it: for every kind asked, one outstanding job
      names the whole batch, in order. */
  lemma AppendQueuesItsWork(db: Db, cmd: AppendCommand, k: nat)
    requires QueueInv(db) && cmd.Valid() && k < |cmd.jobs|
    ensures Queued(Append(db, cmd).value.jobs, cmd.jobs[k].kind, cmd.episodes[0].scope, MintedIds(db.minted, |cmd.episodes|))
  {
    var n := |cmd.episodes|;
    BatchQueued(db.jobs, db.minted + n, cmd.episodes[0].scope, MintedIds(db.minted, n), cmd.jobs, cmd.episodes[0].ingestedAt, k);
  }

  /** A failed job with attempts left is not handed out before its retry time, and one
      without is not handed out at all. */
  lemma FailureWaits(db: Db, id: Id, w: WorkerId, at: Instant, retryAt: Instant, req: LeaseRequest, locked: set<Id>)
    requires QueueInv(db) && Holds(db.jobs, id, w)
    requires req.now < retryAt || db.jobs[id].attempts == db.jobs[id].maxAttempts
    ensures id !in Claimed(Kept(db, Fail(db, id, w, at, retryAt)).jobs, req, locked)
  {
    FailRow(db, id, w, at, retryAt, id);
  }

  /** And from its retry time on it can be claimed. */
  lemma FailureReturns(db: Db, id: Id, w: WorkerId, at: Instant, retryAt: Instant, req: LeaseRequest)
    requires QueueInv(db) && Holds(db.jobs, id, w) && db.jobs[id].attempts < db.jobs[id].maxAttempts
    requires retryAt <= req.now && (req.kinds == {} || db.jobs[id].kind in req.kinds)
    ensures id in Candidates(Kept(db, Fail(db, id, w, at, retryAt)).jobs, req, {})
  {
    FailRow(db, id, w, at, retryAt, id);
  }

  /** After a reclaim no lease stands that had expired, and every unexpired one is untouched. */
  lemma ReclaimReachesTheExpired(db: Db, now: Instant, j: Id)
    requires QueueInv(db) && j in db.jobs
    ensures var job' := Reclaim(db, now).jobs[j];
      && !Expired(job', now)
      && (!Expired(db.jobs[j], now) ==> job' == db.jobs[j])
      && (Expired(db.jobs[j], now) ==>
            && job'.attempts == db.jobs[j].attempts && job'.runAfter == db.jobs[j].runAfter
            && (if job'.attempts < job'.maxAttempts then job'.state.Pending? else job'.state.Dead?))
  {
    ReclaimRow(db, now, j);
  }

  /** A revived job has its whole allowance again, and can be claimed at once. */
  lemma RetryRestores(db: Db, id: Id, now: Instant, req: LeaseRequest)
    requires QueueInv(db) && Retry(db, id, now).Ok?
    requires now <= req.now && (req.kinds == {} || db.jobs[id].kind in req.kinds)
    ensures var db' := Retry(db, id, now).value;
      && QueueInv(db') && db'.jobs[id].attempts == 0 && db'.jobs[id].maxAttempts == db.jobs[id].maxAttempts
      && id in Candidates(db'.jobs, req, {})
  {
    RetryKeepsJobs(db, id, now);
  }

  /** Pruning takes only finished rows that settled before the horizon, oldest first, and
      never work that is still owed. */
  lemma PurgeTakesTheOldestFinished(db: Db, req: PurgeRequest, i: Id, j: Id)
    requires req.Valid() && j in db.jobs && j !in Purge(db, req).value.jobs
    ensures !db.jobs[j].Outstanding() && db.jobs[j].updatedAt < req.before
    ensures i in db.jobs && Purgeable(db.jobs[i], req) && i < j ==> i !in Purge(db, req).value.jobs
  {
    if i in db.jobs && Purgeable(db.jobs[i], req) && i < j {
      var cs := PurgeableRows(db.jobs, req);
      assert Older(cs, i) <= Older(cs, j);
      Sets.SubsetSize(Older(cs, i), Older(cs, j));
    }
  }

  // ---- Conclusions ----------------------------------------------------------

  /** What a committed extraction leaves of each assertion that survived deduplication: a new
      row of its own, unless a stored row of its triple was restated; and every restated row
      carries the new statement and confidence, and the new episodes beside its own. */
  lemma ConclusionsLand(facts: map<Id, Fact>, first: Id, cmd: ExtractCommand, batch: seq<Assertion>)
    requires Concluded(facts, first, cmd, batch).Ok? && forall id :: id in facts ==> id < first
    ensures var (after, cut) := (Concluded(facts, first, cmd, batch).value, RetractAll(facts, cmd.scope, cmd.retracts, cmd.at).value);
      && (forall a :: a in batch ==> TripleRefreshed(cut, batch, cmd, a.triple) || Recorded(after, a, cmd))
      && (forall id :: id in cut && Restating(batch, cut[id], cmd).Some? ==>
            id in after && after[id] == Refreshed(cut[id], Restating(batch, cut[id], cmd).value, cmd))
      && (forall id :: id in cut && Restating(batch, cut[id], cmd).None? ==> id in after && after[id] == cut[id])
  {
    var cut := RetractAll(facts, cmd.scope, cmd.retracts, cmd.at).value;
    var rows := ToInsert(cut, batch, batch, cmd);
    RetractAllAccepts(facts, cmd.scope, cmd.retracts, cmd.at);
    InsertedAreInBatch(cut, batch, batch, cmd);
    InsertEffect(RefreshAll(cut, batch, cmd), first, rows, cmd);
    var after := Concluded(facts, first, cmd, batch).value;
    forall a | a in batch && !TripleRefreshed(cut, batch, cmd, a.triple) ensures Recorded(after, a, cmd) {
      assert a in rows;
      var i :| 0 <= i < |rows| && rows[i] == a;
      assert after[first + i] == NewFact(a, cmd);
    }
    hide Restating, Refreshed, TripleRefreshed, NewFact, RetractAll;
  }

  ghost predicate Recorded(facts: map<Id, Fact>, a: Assertion, cmd: ExtractCommand) {
    exists id :: id in facts && facts[id] == NewFact(a, cmd)
  }

  // ---- Erasure of jobs ------------------------------------------------------

  /** After an erasure no job of the scope names an erased episode; a job naming one is
      dropped whole, and every other job stands as it was. */
  lemma ErasureDropsJobs(db: Db, scope: ScopeId, ids: seq<Id>, j: Id)
    requires j in db.jobs && db.jobs[j].episodes != []
    ensures j in Forget(db, scope, ids).jobs <==>
      db.jobs[j].scope != scope || (ids != [] && forall i :: 0 <= i < |db.jobs[j].episodes| ==> db.jobs[j].episodes[i] !in ids)
    ensures j in Forget(db, scope, ids).jobs ==> Forget(db, scope, ids).jobs[j] == db.jobs[j]
  {
    var es := set e | e in db.jobs[j].episodes;
    if NamesAny(ids, es) && ids != [] {
      var e :| e in es && e in ids;
      var i :| 0 <= i < |db.jobs[j].episodes| && db.jobs[j].episodes[i] == e;
    }
    forall i | 0 <= i < |db.jobs[j].episodes| ensures db.jobs[j].episodes[i] in es {}
  }
}
