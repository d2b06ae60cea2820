/** The backfill walk: enqueueing the work the log implies and the queue does not hold. */
module Backfill {
  import opened Model
  import Sets
  import T = Tables
  import opened Invariants
  import opened S = Store
  import opened Beginnings

  const DEFAULT_BACKFILL_BATCH := 16
  const DEFAULT_BACKFILL_LIMIT := 1000

  /** A zero batch or limit means the default. */
  datatype Settings = Settings(batchSize: nat, limit: nat, runAfter: Option<Instant>) {
    function Batch(): (n: nat) ensures n > 0 { if batchSize == 0 then DEFAULT_BACKFILL_BATCH else batchSize }
    function Limit(): (n: nat) ensures n > 0 { if limit == 0 then DEFAULT_BACKFILL_LIMIT else limit }
  }

  /** One kind's progress through one scope. */
  datatype Cursor = Cursor(target: Target, seqNo: nat, remaining: nat, exhausted: bool)

  datatype Count = Count(episodes: nat, jobs: nat, collapsed: nat)

  /** Where a call stopped, and whether the walk reached the end of what it was asked for. */
  datatype Stop = Stop(nextScope: ScopeId, nextSeq: nat, done: bool)

  // ---- Coverage -------------------------------------------------------------

  /** An outstanding job of this kind names the episode. */
  ghost predicate HasJob(db: T.Db, kind: JobKind, scope: ScopeId, e: Id) {
    exists j :: j in db.jobs && db.jobs[j].Outstanding() && db.jobs[j].kind == kind
                && db.jobs[j].scope == scope && e in db.jobs[j].episodes
  }

  /** Every episode of (lo, hi] the projection lacks has an outstanding job. */
  ghost predicate CoveredTo(db: T.Db, t: Target, scope: ScopeId, lo: nat, hi: nat) {
    forall e :: Lacks(db, t, scope, lo, e) && db.episodes[e].seqNo <= hi ==> HasJob(db, t.Kind(), scope, e)
  }

  /** And so does every episode past lo. */
  ghost predicate Covered(db: T.Db, t: Target, scope: ScopeId, lo: nat) {
    forall e :: Lacks(db, t, scope, lo, e) ==> HasJob(db, t.Kind(), scope, e)
  }

  ghost predicate NoneLeft(db: T.Db, t: Target, scope: ScopeId, after: nat) {
    forall e :: !Lacks(db, t, scope, after, e)
  }

  /** The walk only adds jobs, and only to the scopes it visits. */
  ghost predicate OnlyAdds(db: T.Db, db': T.Db, visited: set<ScopeId>) {
    && db' == db.(jobs := db'.jobs, minted := db'.minted)
    && (forall j :: j in db.jobs ==> j in db'.jobs && db'.jobs[j] == db.jobs[j])
    && (forall j :: j in db'.jobs && j !in db.jobs ==> db'.jobs[j].scope in visited)
  }

  lemma CoverageStands(db: T.Db, db': T.Db, visited: set<ScopeId>)
    requires OnlyAdds(db, db', visited)
    ensures forall k, s, e :: HasJob(db, k, s, e) ==> HasJob(db', k, s, e)
    ensures forall t, s, lo, e :: Lacks(db', t, s, lo, e) <==> Lacks(db, t, s, lo, e)
  {
    forall k, s, e | HasJob(db, k, s, e) ensures HasJob(db', k, s, e) {
      var j :| j in db.jobs && db.jobs[j].Outstanding() && db.jobs[j].kind == k && db.jobs[j].scope == s && e in db.jobs[j].episodes;
      assert db'.jobs[j] == db.jobs[j];
    }
  }

  /** A page of pending ids with a job each covers everything up to the last of them. */
  lemma PageCovers(db: T.Db, db': T.Db, t: Target, scope: ScopeId, lo: nat, at: nat, limit: nat, ids: seq<Id>)
    requires CoveredTo(db, t, scope, lo, at) && lo <= at && FirstPending(db, t, scope, at, limit, ids) && ids != []
    requires OnlyAdds(db, db', {scope}) && forall e :: e in ids ==> HasJob(db', t.Kind(), scope, e)
    ensures CoveredTo(db', t, scope, lo, db.episodes[ids[|ids| - 1]].seqNo)
  {
    CoverageStands(db, db', {scope});
    var last := db.episodes[ids[|ids| - 1]].seqNo;
    forall e | Lacks(db', t, scope, lo, e) && db'.episodes[e].seqNo <= last ensures HasJob(db', t.Kind(), scope, e) {
      if db.episodes[e].seqNo > at {
        assert Lacks(db, t, scope, at, e);
        assert e in ids;
      }
    }
  }

  // ---- Enqueueing a page ----------------------------------------------------

  function Span(n: nat, batch: nat): nat { n * batch }

  /** The fewest jobs that hold so many episodes. */
  predicate PageCosts(episodes: nat, batch: nat, jobs: nat) { episodes <= Span(jobs, batch) < episodes + batch }

  /** Batch k of a page. */
  function Slice(ids: seq<Id>, batch: nat, k: nat): seq<Id> {
    var start := Span(k, batch);
    if start >= |ids| then [] else if start + batch < |ids| then ids[start..start + batch] else ids[start..]
  }

  /** The queue holds this work already, from before this instant. */
  ghost predicate HeldOlder(db: T.Db, kind: JobKind, scope: ScopeId, episodes: seq<Id>, now: Instant) {
    exists j :: j in db.jobs && db.jobs[j].Outstanding() && db.jobs[j].SameWork(kind, scope, episodes) && db.jobs[j].createdAt < now
  }

  /** How many of the first n batches of a page it holds so. */
  ghost function AlreadyHeld(db: T.Db, kind: JobKind, scope: ScopeId, ids: seq<Id>, batch: nat, now: Instant, n: nat): (held: nat)
    ensures held <= n
  {
    if n == 0 then 0
    else AlreadyHeld(db, kind, scope, ids, batch, now, n - 1) + if HeldOlder(db, kind, scope, Slice(ids, batch, n - 1), now) then 1 else 0
  }

  ghost predicate NewFrom(db: T.Db, db': T.Db, now: Instant) {
    forall j :: j in db'.jobs && j !in db.jobs ==> db'.jobs[j].createdAt == now
  }

  /** A job as the walk asks for it: a batch of these episodes at most, waiting, to run when asked
      or at once, with five attempts. */
  predicate AskedFor(job: Job, kind: JobKind, now: Instant, runAfter: Option<Instant>, batch: nat) {
    && job == Job(kind, job.scope, job.episodes, JobState.Pending, 0, 5, if runAfter == None then now else runAfter.value, None, None, now, now)
    && 1 <= |job.episodes| <= batch
  }

  /** Every job added is such a one, of episodes of the page. */
  ghost predicate PageAsked(db: T.Db, db': T.Db, kind: JobKind, ids: seq<Id>, now: Instant, runAfter: Option<Instant>, batch: nat) {
    forall j :: j in db'.jobs && j !in db.jobs ==>
      AskedFor(db'.jobs[j], kind, now, runAfter, batch) && forall e :: e in db'.jobs[j].episodes ==> e in ids
  }

  lemma AsksNothing(db: T.Db, kind: JobKind, ids: seq<Id>, now: Instant, runAfter: Option<Instant>, batch: nat)
    ensures PageAsked(db, db, kind, ids, now, runAfter, batch)
  {}

  lemma AsksOne(first: T.Db, db: T.Db, job: NewJob, now: Instant, ids: seq<Id>, batch: nat, start: nat, end: nat)
    requires T.Enqueue(db, job, now).Ok? && PageAsked(first, db, job.kind, ids, now, job.runAfter, batch)
    requires start < end <= |ids| && end - start <= batch && job.episodes == ids[start..end] && job.maxAttempts == 0
    ensures PageAsked(first, T.Enqueue(db, job, now).value, job.kind, ids, now, job.runAfter, batch)
  {
    var db' := T.Enqueue(db, job, now).value;
    forall j | j in db'.jobs && j !in first.jobs
      ensures AskedFor(db'.jobs[j], job.kind, now, job.runAfter, batch) && forall e :: e in db'.jobs[j].episodes ==> e in ids
    {
      assert j in db.jobs ==> db'.jobs[j] == db.jobs[j] || j == db.minted;
    }
    hide T.InFlight;
  }

  lemma NewNothing(db: T.Db, now: Instant, batch: nat)
    ensures NewFrom(db, db, now) && Span(0, batch) == 0
  {}

  /** The job an enqueue hands back is older than the call exactly when the call found it. */
  lemma FoundOlder(start: T.Db, db: T.Db, job: NewJob, now: Instant, j: Id)
    requires Inv(db) && T.Enqueue(db, job, now).Ok? && OnlyAdds(start, db, {job.scope}) && NewFrom(start, db, now)
    requires var db' := T.Enqueue(db, job, now).value;
      j in db'.jobs && db'.jobs[j].Outstanding() && db'.jobs[j].SameWork(job.kind, job.scope, job.episodes)
    ensures var db' := T.Enqueue(db, job, now).value;
      NewFrom(start, db', now) && (db'.jobs[j].createdAt < now <==> HeldOlder(start, job.kind, job.scope, job.episodes, now))
  {
    var db' := T.Enqueue(db, job, now).value;
    EnqueueOnlyAdds(db, job, now);
    if HeldOlder(start, job.kind, job.scope, job.episodes, now) {
      var i :| i in start.jobs && start.jobs[i].Outstanding() && start.jobs[i].SameWork(job.kind, job.scope, job.episodes) && start.jobs[i].createdAt < now;
      assert db'.jobs[i] == start.jobs[i];
      assert i == j;
    }
  }

  /** The first n batches of a page are in flight. */
  ghost predicate HeldTo(db: T.Db, kind: JobKind, scope: ScopeId, ids: seq<Id>, batch: nat, n: nat) {
    forall k: nat :: k < n ==> T.InFlight(db.jobs, kind, scope, Slice(ids, batch, k))
  }

  /** And so are all of them. */
  ghost predicate PageHeld(db: T.Db, kind: JobKind, scope: ScopeId, ids: seq<Id>, batch: nat) {
    forall k: nat :: Span(k, batch) < |ids| ==> T.InFlight(db.jobs, kind, scope, Slice(ids, batch, k))
  }

  lemma NoneHeldYet(db: T.Db, kind: JobKind, scope: ScopeId, ids: seq<Id>, batch: nat)
    ensures HeldTo(db, kind, scope, ids, batch, 0)
  {}

  lemma AllHeld(db: T.Db, kind: JobKind, scope: ScopeId, ids: seq<Id>, batch: nat, n: nat)
    requires HeldTo(db, kind, scope, ids, batch, n) && Span(n, batch) >= |ids|
    ensures PageHeld(db, kind, scope, ids, batch)
  {
    forall k: nat | Span(k, batch) < |ids| ensures k < n {
      if k >= n { SpanGrows(n, k, batch); }
    }
    hide Span, Slice, T.InFlight;
  }

  lemma SpanGrows(m: nat, n: nat, batch: nat)
    requires m <= n
    ensures Span(m, batch) <= Span(n, batch)
  {
    assert n * batch == m * batch + (n - m) * batch;
  }

  lemma FlightStands(db: T.Db, db': T.Db, visited: set<ScopeId>, kind: JobKind, scope: ScopeId, episodes: seq<Id>)
    requires OnlyAdds(db, db', visited) && T.InFlight(db.jobs, kind, scope, episodes)
    ensures T.InFlight(db'.jobs, kind, scope, episodes)
  {
    var j :| j in db.jobs && db.jobs[j].Outstanding() && db.jobs[j].SameWork(kind, scope, episodes);
    assert db'.jobs[j] == db.jobs[j];
  }

  lemma PageStands(db: T.Db, db': T.Db, visited: set<ScopeId>, kind: JobKind, scope: ScopeId, ids: seq<Id>, batch: nat)
    requires OnlyAdds(db, db', visited) && PageHeld(db, kind, scope, ids, batch)
    ensures PageHeld(db', kind, scope, ids, batch)
  {
    forall k: nat | Span(k, batch) < |ids| ensures T.InFlight(db'.jobs, kind, scope, Slice(ids, batch, k)) {
      FlightStands(db, db', visited, kind, scope, Slice(ids, batch, k));
    }
    hide Span, Slice, T.InFlight, OnlyAdds;
  }

  /** One batch more is in flight, and if the whole page was before, nothing is added. */
  lemma BatchHeld(first: T.Db, db: T.Db, job: NewJob, now: Instant, ids: seq<Id>, batch: nat, k: nat)
    requires Inv(db) && T.Enqueue(db, job, now).Ok? && Span(k, batch) < |ids| && job.episodes == Slice(ids, batch, k)
    requires HeldTo(db, job.kind, job.scope, ids, batch, k)
    requires PageHeld(first, job.kind, job.scope, ids, batch) ==> db.jobs == first.jobs
    ensures var db' := T.Enqueue(db, job, now).value;
      && HeldTo(db', job.kind, job.scope, ids, batch, k + 1)
      && (PageHeld(first, job.kind, job.scope, ids, batch) ==> db'.jobs == first.jobs)
  {
    var db' := T.Enqueue(db, job, now).value;
    EnqueueOnlyAdds(db, job, now);
    EnqueuedIsHeld(db, job, now);
    forall i: nat | i < k + 1 ensures T.InFlight(db'.jobs, job.kind, job.scope, Slice(ids, batch, i)) {
      if i < k { FlightStands(db, db', {job.scope}, job.kind, job.scope, Slice(ids, batch, i)); }
    }
    hide Span, Slice, OnlyAdds, Inv, T.InFlight, T.Enqueue;
  }

  lemma EnqueuedIsHeld(db: T.Db, job: NewJob, now: Instant)
    requires T.Enqueue(db, job, now).Ok?
    ensures T.InFlight(T.Enqueue(db, job, now).value.jobs, job.kind, job.scope, job.episodes)
    ensures T.InFlight(db.jobs, job.kind, job.scope, job.episodes) ==> T.Enqueue(db, job, now).value.jobs == db.jobs
  {
    if !T.InFlight(db.jobs, job.kind, job.scope, job.episodes) {
      var jobs' := T.Enqueue(db, job, now).value.jobs;
      assert db.minted in jobs' && jobs'[db.minted].Outstanding() && jobs'[db.minted].SameWork(job.kind, job.scope, job.episodes);
    }
  }

  method EnqueueBatches(store: S.Store, t: Target, scope: ScopeId, ids: seq<Id>, batch: nat, now: Instant, runAfter: Option<Instant>)
    returns (jobs: nat, collapsed: nat)
    requires Inv(store.Db()) && batch > 0 && scope in store.scopes
    modifies store
    ensures Inv(store.Db()) && OnlyAdds(old(store.Db()), store.Db(), {scope})
    ensures forall e :: e in ids ==> HasJob(store.Db(), t.Kind(), scope, e)
    ensures PageCosts(|ids|, batch, jobs) && jobs <= |ids|
    ensures collapsed == AlreadyHeld(old(store.Db()), t.Kind(), scope, ids, batch, now, jobs) <= jobs
    ensures PageHeld(store.Db(), t.Kind(), scope, ids, batch)
    ensures PageHeld(old(store.Db()), t.Kind(), scope, ids, batch) ==> store.jobs == old(store.jobs)
    ensures PageAsked(old(store.Db()), store.Db(), t.Kind(), ids, now, runAfter, batch)
  {
    hide Inv, OnlyAdds, HasJob, AlreadyHeld, PageHeld, PageAsked, Span, Sent, T.InsertJob, T.InFlight, T.FreshJob;
    ghost var first := store.Db();
    SentNone(first, t.Kind(), scope, ids, batch, now);
    AsksNothing(first, t.Kind(), ids, now, runAfter, batch);
    jobs, collapsed := 0, 0;
    var start := 0;
    while start < |ids|
      invariant start == Span(jobs, batch) && scope in store.scopes
      invariant Sent(first, store.Db(), t.Kind(), scope, ids, batch, now, jobs, collapsed)
      invariant PageAsked(first, store.Db(), t.Kind(), ids, now, runAfter, batch)
      decreases |ids| - start
    {
      var end := if start + batch < |ids| then start + batch else |ids|;
      ghost var before := store.Db();
      var job := NewJob(t.Kind(), scope, ids[start..end], runAfter, 0);
      var r := store.Enqueue(job, now);
      var older := store.jobs[r.value].createdAt < now;
      SentOne(first, before, job, now, r.value, ids, batch, jobs, end, collapsed);
      AsksOne(first, before, job, now, ids, batch, start, end);
      if older { collapsed := collapsed + 1; }
      jobs := jobs + 1;
      start := start + batch;
    }
    SentAll(first, store.Db(), t.Kind(), scope, ids, batch, now, jobs, collapsed);
  }

  function Upto(ids: seq<Id>, batch: nat, n: nat): nat { if Span(n, batch) < |ids| then Span(n, batch) else |ids| }

  /** The first n batches of a page have gone to the queue. */
  ghost predicate Sent(first: T.Db, db: T.Db, kind: JobKind, scope: ScopeId, ids: seq<Id>, batch: nat, now: Instant, n: nat, collapsed: nat) {
    && Inv(db) && OnlyAdds(first, db, {scope}) && NewFrom(first, db, now)
    && collapsed == AlreadyHeld(first, kind, scope, ids, batch, now, n)
    && n <= Upto(ids, batch, n) && Span(n, batch) < |ids| + batch
    && (forall e :: e in ids[..Upto(ids, batch, n)] ==> HasJob(db, kind, scope, e))
    && HeldTo(db, kind, scope, ids, batch, n)
    && (PageHeld(first, kind, scope, ids, batch) ==> db.jobs == first.jobs)
  }

  lemma SentNone(db: T.Db, kind: JobKind, scope: ScopeId, ids: seq<Id>, batch: nat, now: Instant)
    requires Inv(db) && batch > 0
    ensures Sent(db, db, kind, scope, ids, batch, now, 0, 0) && Span(0, batch) == 0
  {
    AddsNothing(db, {scope});
    NewNothing(db, now, batch);
    NoneHeldYet(db, kind, scope, ids, batch);
    hide Inv, OnlyAdds, HasJob, NewFrom, PageHeld, HeldTo;
  }

  lemma SentOne(first: T.Db, db: T.Db, job: NewJob, now: Instant, j: Id, ids: seq<Id>, batch: nat, n: nat, end: nat, collapsed: nat)
    requires Sent(first, db, job.kind, job.scope, ids, batch, now, n, collapsed) && Span(n, batch) < |ids| && batch > 0
    requires end == (if Span(n, batch) + batch < |ids| then Span(n, batch) + batch else |ids|) && job.episodes == ids[Span(n, batch)..end]
    requires T.Enqueue(db, job, now).Ok?
    requires var db' := T.Enqueue(db, job, now).value;
      j in db'.jobs && db'.jobs[j].Outstanding() && db'.jobs[j].SameWork(job.kind, job.scope, job.episodes)
    ensures var db' := T.Enqueue(db, job, now).value;
      && Sent(first, db', job.kind, job.scope, ids, batch, now, n + 1, collapsed + if db'.jobs[j].createdAt < now then 1 else 0)
      && Span(n + 1, batch) == Span(n, batch) + batch
  {
    BatchOn(first, db, job, now, j, ids, batch, n, Span(n, batch), end);
    BatchHeld(first, db, job, now, ids, batch, n);
    hide Inv, OnlyAdds, HasJob, NewFrom, PageHeld, HeldTo, HeldOlder, Slice, Span, T.Enqueue;
  }

  /** And so have all of them. */
  lemma SentAll(first: T.Db, db: T.Db, kind: JobKind, scope: ScopeId, ids: seq<Id>, batch: nat, now: Instant, n: nat, collapsed: nat)
    requires Sent(first, db, kind, scope, ids, batch, now, n, collapsed) && Span(n, batch) >= |ids|
    ensures Inv(db) && OnlyAdds(first, db, {scope}) && (forall e :: e in ids ==> HasJob(db, kind, scope, e))
    ensures |ids| <= Span(n, batch) < |ids| + batch && n <= |ids|
    ensures collapsed == AlreadyHeld(first, kind, scope, ids, batch, now, n)
    ensures PageHeld(db, kind, scope, ids, batch) && (PageHeld(first, kind, scope, ids, batch) ==> db.jobs == first.jobs)
  {
    AllHeld(db, kind, scope, ids, batch, n);
    assert ids[..|ids|] == ids;
    hide Inv, OnlyAdds, HasJob, NewFrom, PageHeld, HeldTo, Span, AlreadyHeld;
  }

  /** One batch more. */
  lemma BatchOn(first: T.Db, db: T.Db, job: NewJob, now: Instant, j: Id, ids: seq<Id>, batch: nat, k: nat, start: nat, end: nat)
    requires start == Span(k, batch) < |ids| && end == (if start + batch < |ids| then start + batch else |ids|) && job.episodes == ids[start..end]
    requires Inv(db) && T.Enqueue(db, job, now).Ok? && OnlyAdds(first, db, {job.scope}) && NewFrom(first, db, now)
    requires var db' := T.Enqueue(db, job, now).value;
      j in db'.jobs && db'.jobs[j].Outstanding() && db'.jobs[j].SameWork(job.kind, job.scope, job.episodes)
    requires forall e :: e in ids[..start] ==> HasJob(db, job.kind, job.scope, e)
    ensures var db' := T.Enqueue(db, job, now).value;
      && Inv(db') && OnlyAdds(first, db', {job.scope}) && NewFrom(first, db', now)
      && (forall e :: e in ids[..end] ==> HasJob(db', job.kind, job.scope, e)) && Span(k + 1, batch) == start + batch
      && (db'.jobs[j].createdAt < now <==> HeldOlder(first, job.kind, job.scope, Slice(ids, batch, k), now))
    ensures job.episodes == Slice(ids, batch, k)
  {
    var db' := T.Enqueue(db, job, now).value;
    EnqueueOnlyAdds(db, job, now);
    AddsCompose(first, db, db', {job.scope});
    FoundOlder(first, db, job, now, j);
    assert ids[start..end] == Slice(ids, batch, k);
    JobsStand(db, db', {job.scope}, job.kind, job.scope, ids[..start]);
    SliceHasJob(db', j, job.kind, job.scope, ids, start, end);
    hide *;
  }

  lemma SliceHasJob(db: T.Db, j: Id, kind: JobKind, scope: ScopeId, ids: seq<Id>, start: nat, end: nat)
    requires start <= end <= |ids| && j in db.jobs && db.jobs[j].Outstanding() && db.jobs[j].SameWork(kind, scope, ids[start..end])
    ensures forall e :: e in ids[start..end] ==> HasJob(db, kind, scope, e)
    ensures ids[..end] == ids[..start] + ids[start..end]
  {}

  lemma JobsStand(db: T.Db, db': T.Db, visited: set<ScopeId>, kind: JobKind, scope: ScopeId, ids: seq<Id>)
    requires OnlyAdds(db, db', visited) && forall e :: e in ids ==> HasJob(db, kind, scope, e)
    ensures forall e :: e in ids ==> HasJob(db', kind, scope, e)
  {
    CoverageStands(db, db', visited);
  }

  lemma EnqueueOnlyAdds(db: T.Db, job: NewJob, now: Instant)
    requires Inv(db) && T.Enqueue(db, job, now).Ok?
    ensures OnlyAdds(db, T.Enqueue(db, job, now).value, {job.scope}) && Inv(T.Enqueue(db, job, now).value)
  {
    StepKeepsInv(db, T.OpEnqueue(job, now));
  }

  // ---- What the walk asks for ---------------------------------------------------

  /** Every job added is as asked for, of one of these kinds, and of episodes that its kind has
      still to do: none is for nothing. */
  ghost predicate AddsPending(db: T.Db, db': T.Db, targets: set<Target>, after: nat, now: Instant, runAfter: Option<Instant>, batch: nat) {
    forall j :: j in db'.jobs && j !in db.jobs ==> exists t :: t in targets && OfPending(db, db'.jobs[j], t, after, now, runAfter, batch)
  }

  ghost predicate OfPending(db: T.Db, job: Job, t: Target, after: nat, now: Instant, runAfter: Option<Instant>, batch: nat) {
    AskedFor(job, if t.EncodeFor? then Encode else Extract, now, runAfter, batch) &&
    forall e :: e in job.episodes ==>
      && e in db.episodes && db.episodes[e].scope == job.scope && db.episodes[e].seqNo > after
      && (t.EncodeFor? ==> (e, t.model) !in db.encodings) && (t.ExtractFor? ==> (e, t.extractor) !in db.markers)
  }

  lemma AddsNonePending(db: T.Db, targets: set<Target>, after: nat, now: Instant, runAfter: Option<Instant>, batch: nat)
    ensures AddsPending(db, db, targets, after, now, runAfter, batch)
  {}

  lemma PageAddsPending(db: T.Db, db': T.Db, t: Target, scope: ScopeId, seed: nat, at: nat, limit: nat, ids: seq<Id>, now: Instant,
                        runAfter: Option<Instant>, batch: nat)
    requires FirstPending(db, t, scope, at, limit, ids) && seed <= at && OnlyAdds(db, db', {scope})
    requires PageAsked(db, db', t.Kind(), ids, now, runAfter, batch)
    ensures AddsPending(db, db', {t}, seed, now, runAfter, batch)
  {
    forall j | j in db'.jobs && j !in db.jobs ensures OfPending(db, db'.jobs[j], t, seed, now, runAfter, batch) {
      forall e | e in db'.jobs[j].episodes ensures Lacks(db, t, scope, at, e) { var i :| 0 <= i < |ids| && ids[i] == e; }
    }
    hide FirstPending;
  }

  /** What one part of a walk finds pending was so before the part that went ahead. */
  lemma AddsPendingOn(a: T.Db, b: T.Db, c: T.Db, visited: set<ScopeId>, later: set<ScopeId>, targets: set<Target>, more: set<Target>, after: nat,
                      now: Instant, runAfter: Option<Instant>, batch: nat)
    requires OnlyAdds(a, b, visited) && OnlyAdds(b, c, later) && more <= targets
    requires AddsPending(a, b, targets, after, now, runAfter, batch) && AddsPending(b, c, more, after, now, runAfter, batch)
    ensures AddsPending(a, c, targets, after, now, runAfter, batch)
  {
    forall j | j in c.jobs && j !in a.jobs ensures exists t :: t in targets && OfPending(a, c.jobs[j], t, after, now, runAfter, batch) {
      if j in b.jobs {
        var t :| t in targets && OfPending(a, b.jobs[j], t, after, now, runAfter, batch);
      } else {
        var t :| t in more && OfPending(b, c.jobs[j], t, after, now, runAfter, batch);
        assert OfPending(a, c.jobs[j], t, after, now, runAfter, batch);
      }
    }
  }

  // ---- How much is pending ----------------------------------------------------

  function Lacking(db: T.Db, t: Target, scope: ScopeId, after: nat): set<Id> {
    set e | e in db.episodes && Lacks(db, t, scope, after, e)
  }

  function Pend(db: T.Db, t: Target, scope: ScopeId, after: nat): nat { |Lacking(db, t, scope, after)| }

  /** What a kind lacks in the first n scopes of a catalogue together. */
  function PendSum(db: T.Db, t: Target, catalogue: seq<ScopeId>, n: nat, after: nat): nat
    requires n <= |catalogue|
  {
    if n == 0 then 0 else PendSum(db, t, catalogue, n - 1, after) + Pend(db, t, catalogue[n - 1], after)
  }

  lemma PendStands(db: T.Db, db': T.Db, visited: set<ScopeId>, t: Target, scope: ScopeId, after: nat)
    requires OnlyAdds(db, db', visited)
    ensures Lacking(db', t, scope, after) == Lacking(db, t, scope, after)
  {}

  /** What is pending past a page is what was pending less the page. */
  lemma PageSplits(db: T.Db, t: Target, scope: ScopeId, after: nat, limit: nat, ids: seq<Id>, last: nat, e: Id)
    requires FirstPending(db, t, scope, after, limit, ids) && ids != [] && last == db.episodes[ids[|ids| - 1]].seqNo
    ensures Lacks(db, t, scope, after, e) <==> e in ids || Lacks(db, t, scope, last, e)
    ensures Lacks(db, t, scope, last, e) ==> e !in ids && |ids| == limit
  {
    assert Lacks(db, t, scope, after, ids[|ids| - 1]);
    if e in ids {
      var i :| 0 <= i < |ids| && ids[i] == e;
      assert i == |ids| - 1 || db.episodes[ids[i]].seqNo < last;
    }
  }

  lemma PageDistinct(db: T.Db, t: Target, scope: ScopeId, after: nat, limit: nat, ids: seq<Id>)
    requires FirstPending(db, t, scope, after, limit, ids)
    ensures forall i, j :: 0 <= i < j < |ids| ==> ids[i] != ids[j]
  {}

  /** A page takes its own number off what is pending, and a short page leaves nothing. */
  lemma PageTakes(db: T.Db, t: Target, scope: ScopeId, after: nat, limit: nat, ids: seq<Id>, last: nat)
    requires FirstPending(db, t, scope, after, limit, ids) && ids != [] && last == db.episodes[ids[|ids| - 1]].seqNo
    ensures Pend(db, t, scope, after) == |ids| + Pend(db, t, scope, last)
    ensures |ids| < limit ==> NoneLeft(db, t, scope, last)
  {
    PageDistinct(db, t, scope, after, limit, ids);
    Sets.SizeOfElements(ids);
    forall e
      ensures e in Lacking(db, t, scope, after) <==> e in ids || e in Lacking(db, t, scope, last)
      ensures e in Lacking(db, t, scope, last) ==> e !in ids
      ensures |ids| < limit ==> !Lacks(db, t, scope, last, e)
    {
      PageSplits(db, t, scope, after, limit, ids, last, e);
    }
    hide Lacks, FirstPending, Lacking;
    Sets.SizesAdd(Lacking(db, t, scope, after), (set e: Id | e in ids), Lacking(db, t, scope, last));
  }

  lemma NoneIsZero(db: T.Db, t: Target, scope: ScopeId, after: nat)
    ensures NoneLeft(db, t, scope, after) <==> Pend(db, t, scope, after) == 0
  {
    if Pend(db, t, scope, after) == 0 {
      assert Lacking(db, t, scope, after) == {};
      forall e ensures !Lacks(db, t, scope, after, e) { assert e !in Lacking(db, t, scope, after); }
    } else {
      assert Lacking(db, t, scope, after) != {};
      var e :| e in Lacking(db, t, scope, after);
    }
  }

  // ---- One scope ------------------------------------------------------------

  ghost predicate CursorOk(db: T.Db, scope: ScopeId, seed: nat, c: Cursor) {
    && seed <= c.seqNo && c.seqNo <= seed + T.LastSeq(db, scope)
    && (c.seqNo > seed ==> c.seqNo <= T.LastSeq(db, scope))
    && CoveredTo(db, c.target, scope, seed, c.seqNo)
    && (c.exhausted ==> c.remaining > 0 && NoneLeft(db, c.target, scope, c.seqNo))
    && (c.seqNo > seed && c.remaining > 0 ==> NoneLeft(db, c.target, scope, c.seqNo))
  }

  ghost predicate CursorsOk(db: T.Db, scope: ScopeId, seed: nat, cs: seq<Cursor>) {
    forall i :: 0 <= i < |cs| ==> CursorOk(db, scope, seed, cs[i])
  }

  /** Moved on from the seed, or found nothing there. */
  predicate Visited(c: Cursor, seed: nat) { c.exhausted || c.seqNo > seed }

  /** Every episode counted was pending, and was paid for out of the kind's budget. */
  ghost predicate SameSpend(db: T.Db, scope: ScopeId, c: Cursor, n: Count, c': Cursor, n': Count) {
    && c'.target == c.target && c'.remaining + n'.episodes == c.remaining + n.episodes
    && n.episodes + Pend(db, c.target, scope, c.seqNo) == n'.episodes + Pend(db, c.target, scope, c'.seqNo)
  }

  /** No job for nothing, and none for more than a batch. */
  predicate Costed(n: Count, batch: nat) { n.collapsed <= n.jobs <= n.episodes <= Span(n.jobs, batch) }

  ghost predicate AllCosted(counts: seq<Count>, batch: nat) {
    forall i :: 0 <= i < |counts| ==> Costed(counts[i], batch)
  }

  lemma CostAdds(n: Count, n': Count, batch: nat, episodes: nat, jobs: nat, collapsed: nat)
    requires Costed(n, batch) && collapsed <= jobs <= episodes && PageCosts(episodes, batch, jobs)
    requires n' == Count(n.episodes + episodes, n.jobs + jobs, n.collapsed + collapsed)
    ensures Costed(n', batch)
  {
    assert (n.jobs + jobs) * batch == n.jobs * batch + jobs * batch;
  }

  /** The same kinds, each still accounting for its budget. */
  ghost predicate Ledger(db: T.Db, scope: ScopeId, cursors: seq<Cursor>, counts: seq<Count>, cs: seq<Cursor>, counts': seq<Count>) {
    && SameTargets(cursors, cs) && |counts| == |cursors| && |counts'| == |cs|
    && forall i :: 0 <= i < |cs| ==> SameSpend(db, scope, cursors[i], counts[i], cs[i], counts'[i])
  }

  lemma LedgersCompose(db: T.Db, mid: T.Db, scope: ScopeId, a: seq<Cursor>, m: seq<Count>, b: seq<Cursor>, n: seq<Count>, c: seq<Cursor>, o: seq<Count>)
    requires OnlyAdds(db, mid, {scope}) && Ledger(db, scope, a, m, b, n) && Ledger(mid, scope, b, n, c, o)
    ensures Ledger(db, scope, a, m, c, o) && SameTargets(a, c) && |o| == |c| == |a|
  {
    forall i | 0 <= i < |c| ensures SameSpend(db, scope, a[i], m[i], c[i], o[i]) {
      assert SameSpend(db, scope, a[i], m[i], b[i], n[i]) && SameSpend(mid, scope, b[i], n[i], c[i], o[i]);
      PendStands(db, mid, {scope}, b[i].target, scope, b[i].seqNo);
      PendStands(db, mid, {scope}, b[i].target, scope, c[i].seqNo);
    }
  }

  lemma SpendStands(db: T.Db, db': T.Db, scope: ScopeId, c: Cursor, n: Count, c': Cursor, n': Count)
    requires OnlyAdds(db, db', {scope}) && SameSpend(db', scope, c, n, c', n')
    ensures SameSpend(db, scope, c, n, c', n')
  {
    PendStands(db, db', {scope}, c.target, scope, c.seqNo);
    PendStands(db, db', {scope}, c.target, scope, c'.seqNo);
  }

  ghost predicate AllVisited(cs: seq<Cursor>, seed: nat) {
    forall i :: 0 <= i < |cs| ==> Visited(cs[i], seed)
  }

  predicate Idle(c: Cursor) { c.exhausted || c.remaining == 0 }

  function Budget(cs: seq<Cursor>): nat {
    if cs == [] then 0 else Budget(cs[..|cs| - 1]) + cs[|cs| - 1].remaining
  }

  lemma {:induction false} BudgetFalls(cs: seq<Cursor>, i: nat, c: Cursor)
    requires i < |cs| && c.remaining <= cs[i].remaining
    ensures Budget(cs[i := c]) <= Budget(cs)
    ensures c.remaining < cs[i].remaining ==> Budget(cs[i := c]) < Budget(cs)
  {
    var n := |cs| - 1;
    if i < n {
      BudgetFalls(cs[..n], i, c);
      assert cs[i := c][..n] == cs[..n][i := c];
    } else {
      assert cs[i := c][..n] == cs[..n];
    }
  }

  function TargetsOf(cs: seq<Cursor>): set<Target> { set c | c in cs :: c.target }

  lemma TargetIn(cs: seq<Cursor>, i: nat)
    requires i < |cs|
    ensures {cs[i].target} <= TargetsOf(cs)
  {
    assert cs[i] in cs;
  }

  lemma TargetsSame(cs: seq<Cursor>, cs': seq<Cursor>)
    requires SameTargets(cs, cs')
    ensures TargetsOf(cs') == TargetsOf(cs)
  {
    forall t ensures t in TargetsOf(cs') <==> t in TargetsOf(cs) {
      if t in TargetsOf(cs') { var i :| 0 <= i < |cs'| && cs'[i].target == t; assert cs[i] in cs; }
      if t in TargetsOf(cs) { var i :| 0 <= i < |cs| && cs[i].target == t; assert cs'[i] in cs'; }
    }
  }

  lemma TargetsListed(cs: seq<Cursor>, targets: seq<Target>)
    requires |cs| == |targets| && forall i :: 0 <= i < |cs| ==> cs[i].target == targets[i]
    ensures TargetsOf(cs) == set t | t in targets
  {
    forall t ensures t in TargetsOf(cs) <==> t in targets {
      if t in TargetsOf(cs) { var i :| 0 <= i < |cs| && cs[i].target == t; }
      if t in targets { var i :| 0 <= i < |targets| && targets[i] == t; assert cs[i] in cs; }
    }
  }

  ghost predicate SameTargets(cs: seq<Cursor>, cs': seq<Cursor>) {
    |cs| == |cs'| && forall i :: 0 <= i < |cs| ==> cs'[i].target == cs[i].target
  }

  lemma CursorStands(db: T.Db, db': T.Db, scope: ScopeId, seed: nat, cs: seq<Cursor>)
    requires OnlyAdds(db, db', {scope}) && CursorsOk(db, scope, seed, cs)
    ensures CursorsOk(db', scope, seed, cs)
  {
    CoverageStands(db, db', {scope});
    forall i | 0 <= i < |cs| ensures CursorOk(db', scope, seed, cs[i]) {
      assert CursorOk(db, scope, seed, cs[i]);
      forall e ensures !Lacks(db', cs[i].target, scope, cs[i].seqNo, e) <==> !Lacks(db, cs[i].target, scope, cs[i].seqNo, e) {}
    }
  }

  lemma ReplaceCursor(db: T.Db, scope: ScopeId, seed: nat, cs: seq<Cursor>, i: nat, c: Cursor)
    requires CursorsOk(db, scope, seed, cs) && i < |cs| && CursorOk(db, scope, seed, c)
    ensures CursorsOk(db, scope, seed, cs[i := c])
  {
    hide CursorOk;
  }

  lemma AddsNothing(db: T.Db, visited: set<ScopeId>)
    ensures OnlyAdds(db, db, visited)
  {}

  lemma AddsWithin(a: T.Db, b: T.Db, c: T.Db, visited: set<ScopeId>, scope: ScopeId)
    requires OnlyAdds(a, b, visited) && OnlyAdds(b, c, {scope}) && scope in visited
    ensures OnlyAdds(a, c, visited)
  {}

  lemma AddsCompose(a: T.Db, b: T.Db, c: T.Db, visited: set<ScopeId>)
    requires OnlyAdds(a, b, visited) && OnlyAdds(b, c, visited)
    ensures OnlyAdds(a, c, visited)
  {}

  /** What a page moves a cursor to. */
  lemma PageMoves(db: T.Db, db': T.Db, scope: ScopeId, seed: nat, c: Cursor, c': Cursor, ids: seq<Id>, n: Count, n': Count)
    requires n'.episodes == n.episodes + |ids|
    requires Inv(db) && CursorOk(db, scope, seed, c) && !Idle(c)
    requires FirstPending(db, c.target, scope, c.seqNo, c.remaining, ids) && ids != []
    requires c' == c.(seqNo := db.episodes[ids[|ids| - 1]].seqNo, remaining := c.remaining - |ids|)
    requires OnlyAdds(db, db', {scope}) && forall e :: e in ids ==> HasJob(db', c.target.Kind(), scope, e)
    ensures CursorOk(db', scope, seed, c') && Visited(c', seed) && SameSpend(db, scope, c, n, c', n')
    ensures !c'.exhausted && c'.remaining < c.remaining
  {
    var last := c'.seqNo;
    assert Lacks(db, c.target, scope, c.seqNo, ids[|ids| - 1]);
    PageTakes(db, c.target, scope, c.seqNo, c.remaining, ids, last);
    PageCovers(db, db', c.target, scope, seed, c.seqNo, c.remaining, ids);
    CoverageStands(db, db', {scope});
    hide FirstPending, Pend, CoveredTo, HasJob;
  }

  // ---- Running it again ---------------------------------------------------------

  /** Whatever page this kind would read from here, its batches are in flight already. */
  ghost predicate Ready(db: T.Db, t: Target, scope: ScopeId, after: nat, limit: nat, batch: nat) {
    forall ids :: FirstPending(db, t, scope, after, limit, ids) ==> PageHeld(db, t.Kind(), scope, ids, batch)
  }

  lemma SamePending(db: T.Db, db': T.Db, visited: set<ScopeId>, t: Target, scope: ScopeId, after: nat, limit: nat, ids: seq<Id>)
    requires OnlyAdds(db, db', visited)
    ensures FirstPending(db', t, scope, after, limit, ids) <==> FirstPending(db, t, scope, after, limit, ids)
  {
    forall e ensures Lacks(db', t, scope, after, e) <==> Lacks(db, t, scope, after, e) {}
    assert db'.episodes == db.episodes;
    hide Lacks;
  }

  lemma ReadyStands(db: T.Db, db': T.Db, visited: set<ScopeId>, t: Target, scope: ScopeId, after: nat, limit: nat, batch: nat)
    requires OnlyAdds(db, db', visited) && Ready(db, t, scope, after, limit, batch)
    ensures Ready(db', t, scope, after, limit, batch)
  {
    forall ids | FirstPending(db', t, scope, after, limit, ids) ensures PageHeld(db', t.Kind(), scope, ids, batch) {
      SamePending(db, db', visited, t, scope, after, limit, ids);
      PageStands(db, db', visited, t.Kind(), scope, ids, batch);
    }
    hide FirstPending, PageHeld, OnlyAdds;
  }

  /** There is one first page. */
  lemma OnePage(db: T.Db, t: Target, scope: ScopeId, after: nat, limit: nat, a: seq<Id>, b: seq<Id>)
    requires LogInv(db) && FirstPending(db, t, scope, after, limit, a) && FirstPending(db, t, scope, after, limit, b)
    ensures a == b
  {
    if |a| <= |b| {
      SamePrefix(db, t, scope, after, limit, a, b, |a|);
      NoneFurther(db, t, scope, after, limit, a, b);
    } else {
      SamePrefix(db, t, scope, after, limit, b, a, |b|);
      NoneFurther(db, t, scope, after, limit, b, a);
    }
    hide FirstPending;
  }

  lemma PageNth(db: T.Db, t: Target, scope: ScopeId, after: nat, limit: nat, ids: seq<Id>, i: nat)
    requires FirstPending(db, t, scope, after, limit, ids) && i < |ids|
    ensures |ids| <= limit && Lacks(db, t, scope, after, ids[i]) && ids[i] !in ids[..i]
  {
    assert Lacks(db, t, scope, after, ids[i]);
  }

  lemma BeyondPage(db: T.Db, t: Target, scope: ScopeId, after: nat, limit: nat, ids: seq<Id>, e: Id)
    requires FirstPending(db, t, scope, after, limit, ids) && Lacks(db, t, scope, after, e) && e !in ids
    ensures |ids| == limit
  {}

  lemma NoneFurther(db: T.Db, t: Target, scope: ScopeId, after: nat, limit: nat, a: seq<Id>, b: seq<Id>)
    requires FirstPending(db, t, scope, after, limit, a) && FirstPending(db, t, scope, after, limit, b) && |a| <= |b| && b[..|a|] == a[..|a|]
    ensures a == b
  {
    hide FirstPending, Lacks;
    if |a| < |b| {
      PageNth(db, t, scope, after, limit, b, |a|);
      assert a == a[..|a|];
      BeyondPage(db, t, scope, after, limit, a, b[|a|]);
    }
  }

  lemma {:induction false} SamePrefix(db: T.Db, t: Target, scope: ScopeId, after: nat, limit: nat, a: seq<Id>, b: seq<Id>, n: nat)
    requires LogInv(db) && FirstPending(db, t, scope, after, limit, a) && FirstPending(db, t, scope, after, limit, b)
    requires n <= |a| && n <= |b|
    ensures a[..n] == b[..n]
  {
    hide FirstPending, LogInv;
    if n > 0 {
      var i := n - 1;
      SamePrefix(db, t, scope, after, limit, a, b, i);
      NthSame(db, t, scope, after, limit, a, b, i);
      assert a[..n] == a[..i] + [a[i]] && b[..n] == b[..i] + [b[i]];
    }
  }

  lemma NthSame(db: T.Db, t: Target, scope: ScopeId, after: nat, limit: nat, a: seq<Id>, b: seq<Id>, i: nat)
    requires LogInv(db) && FirstPending(db, t, scope, after, limit, a) && FirstPending(db, t, scope, after, limit, b)
    requires i < |a| && i < |b| && a[..i] == b[..i]
    ensures a[i] == b[i]
  {
    assert forall k :: 0 <= k < i ==> a[k] == a[..i][k] && b[k] == b[..i][k];
    NotBefore(db, t, scope, after, limit, a, b, i);
    NotBefore(db, t, scope, after, limit, b, a, i);
    hide FirstPending;
  }

  lemma NotBefore(db: T.Db, t: Target, scope: ScopeId, after: nat, limit: nat, a: seq<Id>, b: seq<Id>, i: nat)
    requires FirstPending(db, t, scope, after, limit, a) && FirstPending(db, t, scope, after, limit, b)
    requires i < |a| && i < |b| && forall k :: 0 <= k < i ==> a[k] == b[k]
    ensures Lacks(db, t, scope, after, a[i]) && Lacks(db, t, scope, after, b[i])
    ensures db.episodes[b[i]].seqNo <= db.episodes[a[i]].seqNo
  {
    assert Lacks(db, t, scope, after, a[i]) && Lacks(db, t, scope, after, b[i]);
    if a[i] in b {
      var j :| 0 <= j < |b| && b[j] == a[i];
      assert j >= i;
    }
  }

  /** What one cursor leaves ready behind it, and that it adds nothing where that was so before. */
  ghost predicate Settled(a: T.Db, b: T.Db, scope: ScopeId, c: Cursor, batch: nat) {
    && Ready(b, c.target, scope, c.seqNo, c.remaining, batch)
    && (Ready(a, c.target, scope, c.seqNo, c.remaining, batch) ==> b.jobs == a.jobs)
  }

  lemma PageSettles(a: T.Db, b: T.Db, scope: ScopeId, c: Cursor, ids: seq<Id>, batch: nat)
    requires Inv(a) && OnlyAdds(a, b, {scope}) && FirstPending(a, c.target, scope, c.seqNo, c.remaining, ids)
    requires PageHeld(b, c.target.Kind(), scope, ids, batch)
    requires PageHeld(a, c.target.Kind(), scope, ids, batch) ==> b.jobs == a.jobs
    ensures Settled(a, b, scope, c, batch)
  {
    forall other | FirstPending(b, c.target, scope, c.seqNo, c.remaining, other) ensures other == ids {
      SamePending(a, b, {scope}, c.target, scope, c.seqNo, c.remaining, other);
      OnePage(a, c.target, scope, c.seqNo, c.remaining, ids, other);
    }
    hide FirstPending, PageHeld, OnlyAdds, LogInv;
  }

  ghost predicate AllReady(db: T.Db, scope: ScopeId, cs: seq<Cursor>, batch: nat) {
    forall i :: 0 <= i < |cs| && !Idle(cs[i]) ==> Ready(db, cs[i].target, scope, cs[i].seqNo, cs[i].remaining, batch)
  }

  ghost predicate AllSettled(a: T.Db, b: T.Db, scope: ScopeId, cs: seq<Cursor>, batch: nat) {
    AllReady(b, scope, cs, batch) && (AllReady(a, scope, cs, batch) ==> b.jobs == a.jobs)
  }

  /** What moving one cursor by one page comes to: it has passed what it covered, or found nothing;
      what it counts is pending no more; what it added is as asked for, and nothing where that was
      there before. */
  ghost predicate Moved(a: T.Db, b: T.Db, scope: ScopeId, seed: nat, c: Cursor, settings: Settings, now: Instant, n: Count, c': Cursor, n': Count) {
    && OnlyAdds(a, b, {scope}) && CursorOk(b, scope, seed, c') && c'.target == c.target && Visited(c', seed)
    && SameSpend(a, scope, c, n, c', n') && Costed(n', settings.Batch())
    && (if c'.exhausted then c'.remaining == c.remaining else c'.remaining < c.remaining)
    && Settled(a, b, scope, c, settings.Batch())
    && AddsPending(a, b, {c.target}, seed, now, settings.runAfter, settings.Batch())
    && PageCounted(a, scope, c, settings.Batch(), now, n, n')
  }

  /** Moves one cursor by one page: enqueue what it found, or note there is nothing left. */
  method Advance(store: S.Store, scope: ScopeId, ghost seed: nat, c: Cursor, settings: Settings, now: Instant, count: Count)
    returns (c': Cursor, count': Count)
    requires Inv(store.Db()) && CursorOk(store.Db(), scope, seed, c) && !Idle(c) && Costed(count, settings.Batch())
    modifies store
    ensures Inv(store.Db()) && Moved(old(store.Db()), store.Db(), scope, seed, c, settings, now, count, c', count')
  {
    ghost var db := store.Db();
    var ids := store.PendingIds(c.target, scope, c.seqNo, c.remaining);
    hide Inv, OnlyAdds, CursorOk, Costed, FirstPending, FirstInOrder, HasJob, PageHeld, PageAsked, PageCosts, Moved;
    if ids == [] {
      MovesNothing(db, scope, seed, c, settings, now, count);
      return c.(exhausted := true), count;
    }
    PageNamesEpisodes(db, c.target, scope, c.seqNo, c.remaining, ids);
    var jobs, collapsed := EnqueueBatches(store, c.target, scope, ids, settings.Batch(), now, settings.runAfter);
    count' := Count(count.episodes + |ids|, count.jobs + jobs, count.collapsed + collapsed);
    KeepsEpisodes(db, store.Db(), {scope});
    var last := store.episodes[ids[|ids| - 1]];
    c' := c.(seqNo := last.seqNo, remaining := c.remaining - |ids|);
    MovesPage(db, store.Db(), scope, seed, c, settings, now, count, ids, jobs, collapsed);
  }

  lemma MovesNothing(db: T.Db, scope: ScopeId, seed: nat, c: Cursor, settings: Settings, now: Instant, n: Count)
    requires Inv(db) && CursorOk(db, scope, seed, c) && !Idle(c) && FirstPending(db, c.target, scope, c.seqNo, c.remaining, []) && Costed(n, settings.Batch())
    ensures Moved(db, db, scope, seed, c, settings, now, n, c.(exhausted := true), n)
  {
    hide Inv, CursorOk, OnlyAdds, FirstPending, Costed, SameSpend, Settled, AddsPending, PageCounted;
    EmptyPage(db, scope, seed, c, n, settings.Batch());
    AddsNonePending(db, {c.target}, seed, now, settings.runAfter, settings.Batch());
    CountsNothing(db, scope, c, settings.Batch(), now, n);
  }

  lemma MovesPage(db: T.Db, db': T.Db, scope: ScopeId, seed: nat, c: Cursor, settings: Settings, now: Instant, n: Count, ids: seq<Id>, jobs: nat, collapsed: nat)
    requires Inv(db) && CursorOk(db, scope, seed, c) && !Idle(c) && Costed(n, settings.Batch()) && OnlyAdds(db, db', {scope})
    requires ids != [] && ids[|ids| - 1] in db.episodes && |ids| <= c.remaining && FirstPending(db, c.target, scope, c.seqNo, c.remaining, ids)
    requires forall e :: e in ids ==> HasJob(db', c.target.Kind(), scope, e)
    requires PageCosts(|ids|, settings.Batch(), jobs) && collapsed <= jobs <= |ids|
    requires collapsed == AlreadyHeld(db, c.target.Kind(), scope, ids, settings.Batch(), now, jobs)
    requires PageHeld(db', c.target.Kind(), scope, ids, settings.Batch())
    requires PageHeld(db, c.target.Kind(), scope, ids, settings.Batch()) ==> db'.jobs == db.jobs
    requires PageAsked(db, db', c.target.Kind(), ids, now, settings.runAfter, settings.Batch())
    ensures Moved(db, db', scope, seed, c, settings, now, n, c.(seqNo := db.episodes[ids[|ids| - 1]].seqNo, remaining := c.remaining - |ids|),
                  Count(n.episodes + |ids|, n.jobs + jobs, n.collapsed + collapsed))
  {
    hide Inv, CursorOk, OnlyAdds, FirstPending, Costed, SameSpend, Settled, AddsPending, PageCounted, PageCosts, PageHeld, PageAsked, HasJob, AlreadyHeld;
    var n' := Count(n.episodes + |ids|, n.jobs + jobs, n.collapsed + collapsed);
    var c' := c.(seqNo := db.episodes[ids[|ids| - 1]].seqNo, remaining := c.remaining - |ids|);
    NotBeforeSeed(db, scope, seed, c);
    CostAdds(n, n', settings.Batch(), |ids|, jobs, collapsed);
    CountsPage(db, scope, c, settings.Batch(), now, n, n', ids, jobs);
    PageSettles(db, db', scope, c, ids, settings.Batch());
    PageAddsPending(db, db', c.target, scope, seed, c.seqNo, c.remaining, ids, now, settings.runAfter, settings.Batch());
    PageMoves(db, db', scope, seed, c, c', ids, n, n');
  }

  /** The tally goes up by the page: its episodes, the fewest jobs that hold them, and those of the
      jobs the queue held already, from before this instant. */
  ghost predicate PageCounted(db: T.Db, scope: ScopeId, c: Cursor, batch: nat, now: Instant, n: Count, n': Count) {
    exists ids, jobs: nat :: FirstPending(db, c.target, scope, c.seqNo, c.remaining, ids) && PageCosts(|ids|, batch, jobs)
      && n' == Count(n.episodes + |ids|, n.jobs + jobs, n.collapsed + AlreadyHeld(db, c.target.Kind(), scope, ids, batch, now, jobs))
  }

  lemma CountsPage(db: T.Db, scope: ScopeId, c: Cursor, batch: nat, now: Instant, n: Count, n': Count, ids: seq<Id>, jobs: nat)
    requires FirstPending(db, c.target, scope, c.seqNo, c.remaining, ids) && PageCosts(|ids|, batch, jobs)
    requires n' == Count(n.episodes + |ids|, n.jobs + jobs, n.collapsed + AlreadyHeld(db, c.target.Kind(), scope, ids, batch, now, jobs))
    ensures PageCounted(db, scope, c, batch, now, n, n')
  {
    hide FirstPending, PageCosts, AlreadyHeld;
  }

  lemma CountsNothing(db: T.Db, scope: ScopeId, c: Cursor, batch: nat, now: Instant, n: Count)
    requires FirstPending(db, c.target, scope, c.seqNo, c.remaining, []) && batch > 0
    ensures PageCounted(db, scope, c, batch, now, n, n)
  {
    assert Span(0, batch) == 0 && AlreadyHeld(db, c.target.Kind(), scope, [], batch, now, 0) == 0;
    CountsPage(db, scope, c, batch, now, n, n, [], 0);
    hide FirstPending;
  }

  lemma NotBeforeSeed(db: T.Db, scope: ScopeId, seed: nat, c: Cursor)
    requires CursorOk(db, scope, seed, c)
    ensures seed <= c.seqNo
  {}

  lemma KeepsEpisodes(db: T.Db, db': T.Db, visited: set<ScopeId>)
    requires OnlyAdds(db, db', visited)
    ensures db'.episodes == db.episodes
  {}

  lemma EmptyPage(db: T.Db, scope: ScopeId, seed: nat, c: Cursor, n: Count, batch: nat)
    requires Inv(db) && CursorOk(db, scope, seed, c) && !Idle(c) && FirstPending(db, c.target, scope, c.seqNo, c.remaining, [])
    ensures CursorOk(db, scope, seed, c.(exhausted := true)) && SameSpend(db, scope, c, n, c.(exhausted := true), n) && OnlyAdds(db, db, {scope})
    ensures Settled(db, db, scope, c, batch)
  {
    AddsNothing(db, {scope});
    PageSettles(db, db, scope, c, [], batch);
    hide Settled, Inv;
  }

  lemma PageNamesEpisodes(db: T.Db, t: Target, scope: ScopeId, after: nat, limit: nat, ids: seq<Id>)
    requires Inv(db) && FirstPending(db, t, scope, after, limit, ids) && ids != []
    ensures ids[|ids| - 1] in db.episodes && scope in db.scopes && |ids| <= limit
  {
    assert Lacks(db, t, scope, after, ids[|ids| - 1]);
  }

  method SpentBudget(cs: seq<Cursor>) returns (spent: bool)
    ensures spent <==> exists i :: 0 <= i < |cs| && cs[i].remaining == 0
  {
    for i := 0 to |cs|
      invariant forall k :: 0 <= k < i ==> cs[k].remaining != 0
    {
      if cs[i].remaining == 0 { return true; }
    }
    return false;
  }

  /** One pass over the kinds that still have work and budget. */
  method Round(store: S.Store, scope: ScopeId, seed: nat, cursors: seq<Cursor>, settings: Settings, now: Instant, counts: seq<Count>)
    returns (cs: seq<Cursor>, counts': seq<Count>, progressed: bool)
    requires Inv(store.Db()) && |counts| == |cursors| && CursorsOk(store.Db(), scope, seed, cursors) && AllCosted(counts, settings.Batch())
    modifies store
    ensures Inv(store.Db()) && OnlyAdds(old(store.Db()), store.Db(), {scope})
    ensures CursorsOk(store.Db(), scope, seed, cs) && Ledger(old(store.Db()), scope, cursors, counts, cs, counts')
    ensures SameTargets(cursors, cs) && |counts'| == |cs| == |cursors| && AllCosted(counts', settings.Batch())
    ensures (forall k :: 0 <= k < |cursors| ==> !Idle(cursors[k])) || AllVisited(cursors, seed) ==> AllVisited(cs, seed)
    ensures Budget(cs) <= Budget(cursors) && (progressed ==> Budget(cs) < Budget(cursors))
    ensures !progressed ==> forall k :: 0 <= k < |cs| ==> Idle(cs[k])
    ensures AllSettled(old(store.Db()), store.Db(), scope, cursors, settings.Batch())
    ensures AddsPending(old(store.Db()), store.Db(), TargetsOf(cursors), seed, now, settings.runAfter, settings.Batch())
  {
    hide Inv, OnlyAdds, CursorsOk, CursorOk, AllCosted, AllSettled, AddsPending, TargetsOf, Moved, RoundTo, Ledger, AllVisited;
    ghost var start := store.Db();
    cs, counts', progressed := cursors, counts, false;
    RoundStarts(start, scope, seed, cursors, counts, settings, now);
    for i := 0 to |cs|
      invariant |cs| == |counts'| == |cursors| && Inv(store.Db())
      invariant RoundTo(start, store.Db(), scope, seed, cursors, counts, cs, counts', settings, now, i, progressed)
    {
      RoundHas(start, store.Db(), scope, seed, cursors, counts, cs, counts', settings, now, i, progressed);
      if Idle(cs[i]) {
        RoundIdles(start, store.Db(), scope, seed, cursors, counts, cs, counts', settings, now, i, progressed);
      } else {
        ghost var before := store.Db();
        var c, count := Advance(store, scope, seed, cs[i], settings, now, counts'[i]);
        RoundMoves(start, before, store.Db(), scope, seed, cursors, counts, cs, counts', settings, now, i, progressed, c, count);
        progressed := progressed || !c.exhausted;
        cs, counts' := cs[i := c], counts'[i := count];
      }
    }
    RoundEnds(start, store.Db(), scope, seed, cursors, counts, cs, counts', settings, now, progressed);
  }

  /** A round has been through the first i kinds. */
  ghost predicate RoundTo(start: T.Db, db: T.Db, scope: ScopeId, seed: nat, cursors: seq<Cursor>, counts: seq<Count>, cs: seq<Cursor>, counts': seq<Count>,
                          settings: Settings, now: Instant, i: nat, progressed: bool)
  {
    && OnlyAdds(start, db, {scope}) && CursorsOk(db, scope, seed, cs) && AllCosted(counts', settings.Batch())
    && |counts| == |counts'| == |cs| == |cursors| && i <= |cs| && SameTargets(cursors, cs)
    && (forall k :: i <= k < |cs| ==> cs[k] == cursors[k] && counts'[k] == counts[k])
    && (forall k :: 0 <= k < i && (!Idle(cursors[k]) || Visited(cursors[k], seed)) ==> Visited(cs[k], seed))
    && Budget(cs) <= Budget(cursors) && (progressed ==> Budget(cs) < Budget(cursors))
    && (!progressed ==> forall k :: 0 <= k < i ==> Idle(cs[k]))
    && (forall k :: 0 <= k < i ==> SameSpend(start, scope, cursors[k], counts[k], cs[k], counts'[k]))
    && SettledTo(start, db, scope, cursors, settings.Batch(), i)
    && AddsPending(start, db, TargetsOf(cursors), seed, now, settings.runAfter, settings.Batch())
  }

  lemma RoundStarts(db: T.Db, scope: ScopeId, seed: nat, cursors: seq<Cursor>, counts: seq<Count>, settings: Settings, now: Instant)
    requires |counts| == |cursors| && CursorsOk(db, scope, seed, cursors) && AllCosted(counts, settings.Batch())
    ensures RoundTo(db, db, scope, seed, cursors, counts, cursors, counts, settings, now, 0, false)
  {
    hide OnlyAdds, CursorOk, AllCosted, SettledTo, AddsPending, TargetsOf, SameSpend;
    AddsNonePending(db, TargetsOf(cursors), seed, now, settings.runAfter, settings.Batch());
    AddsNothing(db, {scope});
    SettlesNone(db, scope, cursors, settings.Batch());
  }

  lemma RoundHas(start: T.Db, db: T.Db, scope: ScopeId, seed: nat, cursors: seq<Cursor>, counts: seq<Count>, cs: seq<Cursor>, counts': seq<Count>,
                 settings: Settings, now: Instant, i: nat, progressed: bool)
    requires RoundTo(start, db, scope, seed, cursors, counts, cs, counts', settings, now, i, progressed) && i < |cs|
    ensures CursorOk(db, scope, seed, cs[i]) && Costed(counts'[i], settings.Batch())
  {
    hide CursorOk, OnlyAdds, SettledTo, AddsPending, SameSpend, Costed;
  }

  lemma RoundIdles(start: T.Db, db: T.Db, scope: ScopeId, seed: nat, cursors: seq<Cursor>, counts: seq<Count>, cs: seq<Cursor>, counts': seq<Count>,
                   settings: Settings, now: Instant, i: nat, progressed: bool)
    requires RoundTo(start, db, scope, seed, cursors, counts, cs, counts', settings, now, i, progressed) && i < |cs| && Idle(cs[i])
    ensures RoundTo(start, db, scope, seed, cursors, counts, cs, counts', settings, now, i + 1, progressed)
  {
    hide OnlyAdds, CursorsOk, AllCosted, SettledTo, AddsPending, TargetsOf, Pend;
    SettlesIdle(start, db, scope, cursors, settings.Batch(), i);
  }

  lemma RoundMoves(start: T.Db, before: T.Db, db: T.Db, scope: ScopeId, seed: nat, cursors: seq<Cursor>, counts: seq<Count>, cs: seq<Cursor>,
                   counts': seq<Count>, settings: Settings, now: Instant, i: nat, progressed: bool, c: Cursor, count: Count)
    requires RoundTo(start, before, scope, seed, cursors, counts, cs, counts', settings, now, i, progressed) && i < |cs| && !Idle(cs[i])
    requires Moved(before, db, scope, seed, cs[i], settings, now, counts'[i], c, count)
    ensures RoundTo(start, db, scope, seed, cursors, counts, cs[i := c], counts'[i := count], settings, now, i + 1, progressed || !c.exhausted)
  {
    hide OnlyAdds, CursorOk, Costed, Settled, SettledTo, AddsPending, TargetsOf, PageCounted, SameSpend, Ready, Budget;
    SettlesOne(start, before, db, scope, cursors, settings.Batch(), i);
    CursorStands(before, db, scope, seed, cs);
    SpendStands(start, before, scope, cs[i], counts'[i], c, count);
    TargetIn(cursors, i);
    AddsPendingOn(start, before, db, {scope}, {scope}, TargetsOf(cursors), {cs[i].target}, seed, now, settings.runAfter, settings.Batch());
    AddsCompose(start, before, db, {scope});
    BudgetFalls(cs, i, c);
    ReplaceCursor(db, scope, seed, cs, i, c);
    SpentSoFar(start, scope, cursors, counts, cs, counts', i, c, count);
  }

  lemma SpentSoFar(start: T.Db, scope: ScopeId, cursors: seq<Cursor>, counts: seq<Count>, cs: seq<Cursor>, counts': seq<Count>, i: nat, c: Cursor, count: Count)
    requires |counts| == |counts'| == |cs| == |cursors| && i < |cs|
    requires forall k :: 0 <= k < i ==> SameSpend(start, scope, cursors[k], counts[k], cs[k], counts'[k])
    requires SameSpend(start, scope, cursors[i], counts[i], c, count)
    ensures forall k :: 0 <= k < i + 1 ==> SameSpend(start, scope, cursors[k], counts[k], cs[i := c][k], counts'[i := count][k])
  {
    hide SameSpend;
  }

  lemma RoundEnds(start: T.Db, db: T.Db, scope: ScopeId, seed: nat, cursors: seq<Cursor>, counts: seq<Count>, cs: seq<Cursor>, counts': seq<Count>,
                  settings: Settings, now: Instant, progressed: bool)
    requires RoundTo(start, db, scope, seed, cursors, counts, cs, counts', settings, now, |cs|, progressed)
    ensures OnlyAdds(start, db, {scope}) && CursorsOk(db, scope, seed, cs) && Ledger(start, scope, cursors, counts, cs, counts')
    ensures SameTargets(cursors, cs) && AllCosted(counts', settings.Batch())
    ensures (forall k :: 0 <= k < |cursors| ==> !Idle(cursors[k])) || AllVisited(cursors, seed) ==> AllVisited(cs, seed)
    ensures Budget(cs) <= Budget(cursors) && (progressed ==> Budget(cs) < Budget(cursors))
    ensures !progressed ==> forall k :: 0 <= k < |cs| ==> Idle(cs[k])
    ensures AllSettled(start, db, scope, cursors, settings.Batch())
    ensures AddsPending(start, db, TargetsOf(cursors), seed, now, settings.runAfter, settings.Batch())
  {
    hide OnlyAdds, CursorsOk, AllCosted, SettledTo, AddsPending, TargetsOf, AllSettled, SameSpend, Budget;
    SettlesAll(start, db, scope, cursors, settings.Batch());
  }

  /** The first n cursors have settled. */
  ghost predicate SettledTo(a: T.Db, b: T.Db, scope: ScopeId, cs: seq<Cursor>, batch: nat, n: nat) {
    && (forall i :: 0 <= i < n && i < |cs| && !Idle(cs[i]) ==> Ready(b, cs[i].target, scope, cs[i].seqNo, cs[i].remaining, batch))
    && (AllReady(a, scope, cs, batch) ==> b.jobs == a.jobs)
  }

  lemma SettlesNone(db: T.Db, scope: ScopeId, cs: seq<Cursor>, batch: nat)
    ensures SettledTo(db, db, scope, cs, batch, 0)
  {}

  lemma SettlesIdle(a: T.Db, b: T.Db, scope: ScopeId, cs: seq<Cursor>, batch: nat, n: nat)
    requires SettledTo(a, b, scope, cs, batch, n) && n < |cs| && Idle(cs[n])
    ensures SettledTo(a, b, scope, cs, batch, n + 1)
  {}

  lemma SettlesOne(a: T.Db, b: T.Db, c: T.Db, scope: ScopeId, cs: seq<Cursor>, batch: nat, n: nat)
    requires OnlyAdds(a, b, {scope}) && OnlyAdds(b, c, {scope}) && SettledTo(a, b, scope, cs, batch, n)
    requires n < |cs| && !Idle(cs[n]) && Settled(b, c, scope, cs[n], batch)
    ensures SettledTo(a, c, scope, cs, batch, n + 1)
  {
    forall i | 0 <= i < n && !Idle(cs[i]) ensures Ready(c, cs[i].target, scope, cs[i].seqNo, cs[i].remaining, batch) {
      ReadyStands(b, c, {scope}, cs[i].target, scope, cs[i].seqNo, cs[i].remaining, batch);
    }
    if AllReady(a, scope, cs, batch) {
      ReadyStands(a, b, {scope}, cs[n].target, scope, cs[n].seqNo, cs[n].remaining, batch);
    }
    hide Ready, OnlyAdds;
  }

  lemma SettlesAll(a: T.Db, b: T.Db, scope: ScopeId, cs: seq<Cursor>, batch: nat)
    requires SettledTo(a, b, scope, cs, batch, |cs|)
    ensures AllSettled(a, b, scope, cs, batch)
  {}

  /** Cursors that have moved on, in a later round, find nothing and add nothing. */
  lemma VisitedReady(db: T.Db, scope: ScopeId, seed: nat, cs: seq<Cursor>, batch: nat)
    requires CursorsOk(db, scope, seed, cs) && AllVisited(cs, seed)
    ensures AllReady(db, scope, cs, batch)
  {
    forall i | 0 <= i < |cs| && !Idle(cs[i]) ensures Ready(db, cs[i].target, scope, cs[i].seqNo, cs[i].remaining, batch) {
      assert CursorOk(db, scope, seed, cs[i]) && Visited(cs[i], seed);
      EmptyReady(db, cs[i].target, scope, cs[i].seqNo, cs[i].remaining, batch);
    }
    hide Ready, CursorOk;
  }

  lemma EmptyReady(db: T.Db, t: Target, scope: ScopeId, after: nat, limit: nat, batch: nat)
    requires NoneLeft(db, t, scope, after)
    ensures Ready(db, t, scope, after, limit, batch)
  {
    forall ids | FirstPending(db, t, scope, after, limit, ids) ensures ids == [] {
      if ids != [] { PageNth(db, t, scope, after, limit, ids, 0); }
    }
    hide FirstPending, Lacks;
  }

  lemma AllSettledOn(a: T.Db, b: T.Db, c: T.Db, scope: ScopeId, first: seq<Cursor>, later: seq<Cursor>, batch: nat)
    requires OnlyAdds(b, c, {scope}) && AllSettled(a, b, scope, first, batch) && AllSettled(b, c, scope, later, batch) && AllReady(b, scope, later, batch)
    ensures AllSettled(a, c, scope, first, batch)
  {
    forall i | 0 <= i < |first| && !Idle(first[i]) ensures Ready(c, first[i].target, scope, first[i].seqNo, first[i].remaining, batch) {
      ReadyStands(b, c, {scope}, first[i].target, scope, first[i].seqNo, first[i].remaining, batch);
    }
    hide Ready, OnlyAdds;
  }

  lemma SeedsOk(db: T.Db, scope: ScopeId, seed: nat, cursors: seq<Cursor>)
    requires forall i :: 0 <= i < |cursors| ==> cursors[i].seqNo == seed && !cursors[i].exhausted
    ensures CursorsOk(db, scope, seed, cursors)
  {}

  /** Drains one scope until every kind is exhausted or some kind is out of budget. */
  method BackfillScope(store: S.Store, scope: ScopeId, seed: nat, cursors: seq<Cursor>, settings: Settings, now: Instant, counts: seq<Count>)
    returns (cs: seq<Cursor>, counts': seq<Count>)
    requires Inv(store.Db()) && |counts| == |cursors| && AllCosted(counts, settings.Batch())
    requires forall i :: 0 <= i < |cursors| ==> cursors[i].remaining > 0 && cursors[i].seqNo == seed && !cursors[i].exhausted
    modifies store
    ensures Inv(store.Db()) && OnlyAdds(old(store.Db()), store.Db(), {scope})
    ensures CursorsOk(store.Db(), scope, seed, cs) && Ledger(old(store.Db()), scope, cursors, counts, cs, counts') && AllVisited(cs, seed)
    ensures SameTargets(cursors, cs) && |counts'| == |cs| == |cursors| && AllCosted(counts', settings.Batch())
    ensures (forall i :: 0 <= i < |cs| ==> cs[i].exhausted) || (exists i :: 0 <= i < |cs| && cs[i].remaining == 0)
    ensures AllSettled(old(store.Db()), store.Db(), scope, cursors, settings.Batch())
    ensures AddsPending(old(store.Db()), store.Db(), TargetsOf(cursors), seed, now, settings.runAfter, settings.Batch())
  {
    hide Inv, OnlyAdds, CursorsOk, AllVisited, Ledger, SameTargets, Budget, AllCosted, AllSettled, AllReady, AddsPending, TargetsOf;
    SeedsOk(store.Db(), scope, seed, cursors);
    AddsNothing(store.Db(), {scope});
    var progressed, spent: bool;
    cs, counts', progressed := Round(store, scope, seed, cursors, settings, now, counts);
    spent := SpentBudget(cs);
    while progressed && !spent
      invariant Inv(store.Db()) && OnlyAdds(old(store.Db()), store.Db(), {scope})
      invariant CursorsOk(store.Db(), scope, seed, cs) && Ledger(old(store.Db()), scope, cursors, counts, cs, counts') && AllVisited(cs, seed)
      invariant SameTargets(cursors, cs) && |counts'| == |cs| == |cursors| && AllCosted(counts', settings.Batch())
      invariant spent <==> exists i :: 0 <= i < |cs| && cs[i].remaining == 0
      invariant !progressed ==> forall i :: 0 <= i < |cs| ==> Idle(cs[i])
      invariant AllSettled(old(store.Db()), store.Db(), scope, cursors, settings.Batch())
      invariant AddsPending(old(store.Db()), store.Db(), TargetsOf(cursors), seed, now, settings.runAfter, settings.Batch())
      decreases Budget(cs), progressed
    {
      ghost var before, cs0, counts0 := store.Db(), cs, counts';
      VisitedReady(before, scope, seed, cs0, settings.Batch());
      cs, counts', progressed := Round(store, scope, seed, cs, settings, now, counts');
      AllSettledOn(old(store.Db()), before, store.Db(), scope, cursors, cs0, settings.Batch());
      TargetsSame(cursors, cs0);
      AddsPendingOn(old(store.Db()), before, store.Db(), {scope}, {scope}, TargetsOf(cursors), TargetsOf(cs0), seed, now,
                    settings.runAfter, settings.Batch());
      LedgersCompose(old(store.Db()), before, scope, cursors, counts, cs0, counts0, cs, counts');
      AddsCompose(old(store.Db()), before, store.Db(), {scope});
      spent := SpentBudget(cs);
    }
  }

  /** The least progress any kind made that still has work here. */
  method ResumeSeq(cs: seq<Cursor>) returns (next: nat)
    ensures forall i :: 0 <= i < |cs| && !cs[i].exhausted ==> next <= cs[i].seqNo
    ensures (exists i :: 0 <= i < |cs| && !cs[i].exhausted && next == cs[i].seqNo)
         || (next == 0 && forall i :: 0 <= i < |cs| ==> cs[i].exhausted)
  {
    var least: int := -1;
    for i := 0 to |cs|
      invariant least < 0 <==> forall k :: 0 <= k < i ==> cs[k].exhausted
      invariant forall k :: 0 <= k < i && !cs[k].exhausted ==> least <= cs[k].seqNo
      invariant least >= 0 ==> exists k :: 0 <= k < i && !cs[k].exhausted && least == cs[k].seqNo
    {
      if cs[i].exhausted { continue; }
      if least < 0 || cs[i].seqNo < least { least := cs[i].seqNo; }
    }
    next := if least < 0 then 0 else least;
  }

  // ---- One call -------------------------------------------------------------

  ghost predicate ScopeCoveredTo(db: T.Db, targets: seq<Target>, scope: ScopeId, lo: nat, hi: nat) {
    forall i :: 0 <= i < |targets| ==> CoveredTo(db, targets[i], scope, lo, hi)
  }

  ghost predicate ScopeCovered(db: T.Db, targets: seq<Target>, scope: ScopeId, lo: nat) {
    forall i :: 0 <= i < |targets| ==> Covered(db, targets[i], scope, lo)
  }

  /** What a visit to one scope left behind, by whether some kind ran out of budget. */
  lemma VisitCovers(db: T.Db, targets: seq<Target>, scope: ScopeId, seed: nat, cs: seq<Cursor>, hi: nat)
    requires |cs| == |targets| && (forall i :: 0 <= i < |cs| ==> cs[i].target == targets[i])
    requires CursorsOk(db, scope, seed, cs)
    requires forall i :: 0 <= i < |cs| && !cs[i].exhausted ==> hi <= cs[i].seqNo
    ensures ScopeCoveredTo(db, targets, scope, seed, hi)
    ensures (forall i :: 0 <= i < |cs| ==> cs[i].exhausted) ==> ScopeCovered(db, targets, scope, seed)
  {
    forall i, e | 0 <= i < |targets| && Lacks(db, targets[i], scope, seed, e) && (cs[i].exhausted || db.episodes[e].seqNo <= hi)
      ensures HasJob(db, targets[i].Kind(), scope, e)
    {
      assert CursorOk(db, scope, seed, cs[i]);
      if cs[i].exhausted { assert !Lacks(db, cs[i].target, scope, cs[i].seqNo, e); }
    }
  }

  /** The first scopes of a catalogue. */
  function FirstScopes(catalogue: seq<ScopeId>, n: nat): set<ScopeId>
    requires n <= |catalogue|
  {
    set s | s in catalogue[..n]
  }

  function AtMost(n: nat, limit: nat): nat { if n < limit then n else limit }

  /** No kind lacks as much as its budget in the first n scopes. */
  ghost predicate WithinBudget(db: T.Db, targets: seq<Target>, catalogue: seq<ScopeId>, n: nat, after: nat, limit: nat)
    requires n <= |catalogue|
  {
    forall i :: 0 <= i < |targets| ==> PendSum(db, targets[i], catalogue, n, after) < limit
  }

  /** Each kind's count after n scopes: all it lacked there, up to its budget. */
  ghost predicate Paid(db: T.Db, targets: seq<Target>, catalogue: seq<ScopeId>, n: nat, after: nat, limit: nat, cs: seq<Cursor>, counts: seq<Count>)
    requires n <= |catalogue|
  {
    && |cs| == |targets| == |counts|
    && forall i :: 0 <= i < |targets| ==>
         && cs[i].target == targets[i] && cs[i].remaining + counts[i].episodes == limit
         && counts[i].episodes == AtMost(PendSum(db, targets[i], catalogue, n, after), limit)
  }

  lemma PaidNothing(db: T.Db, targets: seq<Target>, catalogue: seq<ScopeId>, after: nat, limit: nat, cs: seq<Cursor>, counts: seq<Count>, batch: nat)
    requires |cs| == |targets| == |counts|
    requires forall i :: 0 <= i < |targets| ==> cs[i] == Cursor(targets[i], 0, limit, false) && counts[i] == Count(0, 0, 0)
    ensures Paid(db, targets, catalogue, 0, after, limit, cs, counts) && AllCosted(counts, batch)
  {}

  lemma PaidMeans(db: T.Db, targets: seq<Target>, catalogue: seq<ScopeId>, n: nat, after: nat, limit: nat, cs: seq<Cursor>, counts: seq<Count>)
    requires n <= |catalogue| && Paid(db, targets, catalogue, n, after, limit, cs, counts)
    ensures WithinBudget(db, targets, catalogue, n, after, limit) <==> forall i :: 0 <= i < |cs| ==> cs[i].remaining > 0
    ensures forall i :: 0 <= i < |counts| ==> counts[i].episodes == AtMost(PendSum(db, targets[i], catalogue, n, after), limit)
  {
    hide PendSum;
    if forall i :: 0 <= i < |cs| ==> cs[i].remaining > 0 {
      forall i | 0 <= i < |targets| ensures PendSum(db, targets[i], catalogue, n, after) < limit { assert cs[i].remaining > 0; }
    }
  }

  /** One scope more. */
  lemma PaidOn(start: T.Db, before: T.Db, db: T.Db, targets: seq<Target>, catalogue: seq<ScopeId>, n: nat, after: nat, limit: nat,
               cs: seq<Cursor>, counts: seq<Count>, seeded: seq<Cursor>, cs': seq<Cursor>, counts': seq<Count>)
    requires n < |catalogue| && Paid(start, targets, catalogue, n, after, limit, cs, counts)
    requires |seeded| == |cs| && forall i :: 0 <= i < |cs| ==> cs[i].remaining > 0 && seeded[i] == cs[i].(seqNo := after, exhausted := false)
    requires Ledger(before, catalogue[n], seeded, counts, cs', counts') && AllVisited(cs', after) && CursorsOk(db, catalogue[n], after, cs')
    requires OnlyAdds(start, before, FirstScopes(catalogue, n)) && OnlyAdds(before, db, {catalogue[n]})
    ensures Paid(start, targets, catalogue, n + 1, after, limit, cs', counts')
  {
    forall i | 0 <= i < |targets|
      ensures cs'[i].remaining + counts'[i].episodes == limit && cs'[i].target == targets[i]
      ensures counts'[i].episodes == AtMost(PendSum(start, targets[i], catalogue, n + 1, after), limit)
    {
      PaidOne(start, before, db, targets[i], catalogue, n, after, limit, seeded[i], counts[i], cs'[i], counts'[i]);
    }
    hide PendSum, CursorsOk, AllVisited, OnlyAdds;
  }

  lemma PaidOne(start: T.Db, before: T.Db, db: T.Db, t: Target, catalogue: seq<ScopeId>, n: nat, after: nat, limit: nat,
                c: Cursor, count: Count, c': Cursor, count': Count)
    requires n < |catalogue| && c.target == t && c.seqNo == after && c.remaining > 0 && c.remaining + count.episodes == limit
    requires count.episodes == AtMost(PendSum(start, t, catalogue, n, after), limit)
    requires SameSpend(before, catalogue[n], c, count, c', count') && Visited(c', after) && CursorOk(db, catalogue[n], after, c')
    requires OnlyAdds(start, before, FirstScopes(catalogue, n)) && OnlyAdds(before, db, {catalogue[n]})
    ensures c'.remaining + count'.episodes == limit && c'.target == t
    ensures count'.episodes == AtMost(PendSum(start, t, catalogue, n + 1, after), limit)
  {
    PendStands(start, before, FirstScopes(catalogue, n), t, catalogue[n], after);
    PendStands(before, db, {catalogue[n]}, t, catalogue[n], c'.seqNo);
    NoneIsZero(db, t, catalogue[n], c'.seqNo);
    hide Lacking, OnlyAdds, NoneLeft, CoveredTo, FirstScopes;
  }

  /** The walk has been through the first n scopes. */
  ghost predicate Reached(start: T.Db, db: T.Db, targets: seq<Target>, catalogue: seq<ScopeId>, n: nat, after: nat, settings: Settings,
                          cs: seq<Cursor>, counts: seq<Count>)
    requires n <= |catalogue|
  {
    && Inv(db) && OnlyAdds(start, db, FirstScopes(catalogue, n)) && AllCosted(counts, settings.Batch())
    && (forall i :: 0 <= i < n ==> ScopeCovered(db, targets, catalogue[i], after))
    && CallSettled(start, db, targets, catalogue, n, after, settings)
    && Paid(start, targets, catalogue, n, after, settings.Limit(), cs, counts) && forall i :: 0 <= i < |cs| ==> cs[i].remaining > 0
  }

  lemma ReachedNone(db: T.Db, targets: seq<Target>, catalogue: seq<ScopeId>, after: nat, settings: Settings, cs: seq<Cursor>, counts: seq<Count>)
    requires Inv(db) && |cs| == |targets| == |counts|
    requires forall i :: 0 <= i < |targets| ==> cs[i] == Cursor(targets[i], 0, settings.Limit(), false) && counts[i] == Count(0, 0, 0)
    ensures Reached(db, db, targets, catalogue, 0, after, settings, cs, counts)
  {
    AddsNothing(db, FirstScopes(catalogue, 0));
    PaidNothing(db, targets, catalogue, after, settings.Limit(), cs, counts, settings.Batch());
    hide Inv, OnlyAdds, Paid, AllCosted, Ready;
  }

  /** What that says of the call so far. */
  lemma ReachedMeans(start: T.Db, db: T.Db, targets: seq<Target>, catalogue: seq<ScopeId>, n: nat, after: nat, settings: Settings,
                     cs: seq<Cursor>, counts: seq<Count>)
    requires n <= |catalogue| && Reached(start, db, targets, catalogue, n, after, settings, cs, counts)
    ensures Inv(db) && OnlyAdds(start, db, FirstScopes(catalogue, n)) && AllCosted(counts, settings.Batch()) && |cs| == |targets| == |counts|
    ensures forall i :: 0 <= i < n ==> ScopeCovered(db, targets, catalogue[i], after)
    ensures forall i :: 0 <= i < |cs| ==> cs[i].remaining > 0
    ensures WithinBudget(start, targets, catalogue, n, after, settings.Limit())
    ensures CountsAre(start, targets, catalogue, n, after, settings.Limit(), counts) && CallSettled(start, db, targets, catalogue, n, after, settings)
    ensures forall i :: 0 <= i < |cs| ==> cs[i].target == targets[i]
  {
    PaidMeans(start, targets, catalogue, n, after, settings.Limit(), cs, counts);
    hide Inv, OnlyAdds, ScopeCovered, AllCosted, WithinBudget, PendSum, CallSettled;
  }

  /** Each kind found all it lacked in the first n scopes, up to its budget. */
  ghost predicate CountsAre(db: T.Db, targets: seq<Target>, catalogue: seq<ScopeId>, n: nat, after: nat, limit: nat, counts: seq<Count>)
    requires n <= |catalogue|
  {
    |counts| == |targets| &&
    forall i :: 0 <= i < |counts| ==> counts[i].episodes == AtMost(PendSum(db, targets[i], catalogue, n, after), limit)
  }

  /** Every page a call over the first n scopes would read has its batches in flight already. */
  ghost predicate CallReady(db: T.Db, targets: seq<Target>, catalogue: seq<ScopeId>, n: nat, after: nat, settings: Settings)
    requires n <= |catalogue|
  {
    forall k, i :: 0 <= k < n && 0 <= i < |targets| && PendSum(db, targets[i], catalogue, k, after) < settings.Limit() ==>
      Ready(db, targets[i], catalogue[k], after, settings.Limit() - PendSum(db, targets[i], catalogue, k, after), settings.Batch())
  }

  /** A call leaves it so, and adds nothing where it was so before. */
  ghost predicate CallSettled(a: T.Db, b: T.Db, targets: seq<Target>, catalogue: seq<ScopeId>, n: nat, after: nat, settings: Settings)
    requires n <= |catalogue|
  {
    CallReady(b, targets, catalogue, n, after, settings) && (CallReady(a, targets, catalogue, n, after, settings) ==> b.jobs == a.jobs)
  }

  lemma {:induction false} PendSumStands(db: T.Db, db': T.Db, visited: set<ScopeId>, t: Target, catalogue: seq<ScopeId>, n: nat, after: nat)
    requires OnlyAdds(db, db', visited) && n <= |catalogue|
    ensures PendSum(db', t, catalogue, n, after) == PendSum(db, t, catalogue, n, after)
  {
    if n > 0 {
      PendSumStands(db, db', visited, t, catalogue, n - 1, after);
      PendStands(db, db', visited, t, catalogue[n - 1], after);
    }
    hide OnlyAdds, Lacking;
  }

  lemma CallReadyStands(a: T.Db, b: T.Db, visited: set<ScopeId>, targets: seq<Target>, catalogue: seq<ScopeId>, n: nat, after: nat, settings: Settings)
    requires OnlyAdds(a, b, visited) && n <= |catalogue| && CallReady(a, targets, catalogue, n, after, settings)
    ensures CallReady(b, targets, catalogue, n, after, settings)
  {
    var limit := settings.Limit();
    forall k, i | 0 <= k < n && 0 <= i < |targets| && PendSum(b, targets[i], catalogue, k, after) < limit
      ensures Ready(b, targets[i], catalogue[k], after, limit - PendSum(b, targets[i], catalogue, k, after), settings.Batch())
    {
      PendSumStands(a, b, visited, targets[i], catalogue, k, after);
      ReadyStands(a, b, visited, targets[i], catalogue[k], after, limit - PendSum(a, targets[i], catalogue, k, after), settings.Batch());
    }
    hide OnlyAdds, Ready, PendSum;
  }

  /** What a kind may still spend in the next scope is what it has left. */
  lemma BudgetLeft(start: T.Db, targets: seq<Target>, catalogue: seq<ScopeId>, n: nat, after: nat, limit: nat, cs: seq<Cursor>, counts: seq<Count>, i: nat)
    requires n <= |catalogue| && Paid(start, targets, catalogue, n, after, limit, cs, counts) && i < |cs| && cs[i].remaining > 0
    ensures PendSum(start, targets[i], catalogue, n, after) < limit
    ensures cs[i].remaining == limit - PendSum(start, targets[i], catalogue, n, after) && cs[i].target == targets[i]
  {
    hide PendSum;
  }

  /** One scope more. */
  lemma CallSettlesOn(start: T.Db, before: T.Db, db: T.Db, targets: seq<Target>, catalogue: seq<ScopeId>, n: nat, after: nat, settings: Settings,
                      cs: seq<Cursor>, counts: seq<Count>, seeded: seq<Cursor>)
    requires n < |catalogue| && Reached(start, before, targets, catalogue, n, after, settings, cs, counts)
    requires |seeded| == |cs| && forall i :: 0 <= i < |cs| ==> seeded[i] == cs[i].(seqNo := after, exhausted := false)
    requires OnlyAdds(before, db, {catalogue[n]}) && AllSettled(before, db, catalogue[n], seeded, settings.Batch())
    ensures CallSettled(start, db, targets, catalogue, n + 1, after, settings)
  {
    hide Inv, OnlyAdds, ScopeCovered, Ready, PendSum, AllCosted, CallReady, AllReady, Paid, FirstScopes;
    CallReadyStands(before, db, {catalogue[n]}, targets, catalogue, n, after, settings);
    NextReady(start, before, db, targets, catalogue, n, after, settings, cs, counts, seeded);
    if CallReady(start, targets, catalogue, n + 1, after, settings) {
      EarlierReady(start, targets, catalogue, n, after, settings);
      SeededReady(start, before, targets, catalogue, n, after, settings, cs, counts, seeded);
    }
  }

  lemma EarlierReady(db: T.Db, targets: seq<Target>, catalogue: seq<ScopeId>, n: nat, after: nat, settings: Settings)
    requires n < |catalogue| && CallReady(db, targets, catalogue, n + 1, after, settings)
    ensures CallReady(db, targets, catalogue, n, after, settings)
  {
    hide Ready, PendSum;
  }

  lemma SeededReady(start: T.Db, before: T.Db, targets: seq<Target>, catalogue: seq<ScopeId>, n: nat, after: nat, settings: Settings,
                    cs: seq<Cursor>, counts: seq<Count>, seeded: seq<Cursor>)
    requires n < |catalogue| && Reached(start, before, targets, catalogue, n, after, settings, cs, counts)
    requires |seeded| == |cs| && forall i :: 0 <= i < |cs| ==> seeded[i] == cs[i].(seqNo := after, exhausted := false)
    requires CallReady(start, targets, catalogue, n + 1, after, settings)
    ensures AllReady(before, catalogue[n], seeded, settings.Batch())
  {
    hide Inv, OnlyAdds, ScopeCovered, Ready, PendSum, AllCosted, FirstScopes;
    forall i | 0 <= i < |seeded| && !Idle(seeded[i])
      ensures Ready(before, seeded[i].target, catalogue[n], seeded[i].seqNo, seeded[i].remaining, settings.Batch())
    {
      BudgetLeft(start, targets, catalogue, n, after, settings.Limit(), cs, counts, i);
      ReadyStands(start, before, FirstScopes(catalogue, n), targets[i], catalogue[n], after, seeded[i].remaining, settings.Batch());
    }
  }

  lemma NextReady(start: T.Db, before: T.Db, db: T.Db, targets: seq<Target>, catalogue: seq<ScopeId>, n: nat, after: nat, settings: Settings,
                  cs: seq<Cursor>, counts: seq<Count>, seeded: seq<Cursor>)
    requires n < |catalogue| && Reached(start, before, targets, catalogue, n, after, settings, cs, counts)
    requires |seeded| == |cs| && forall i :: 0 <= i < |cs| ==> seeded[i] == cs[i].(seqNo := after, exhausted := false)
    requires OnlyAdds(before, db, {catalogue[n]}) && AllReady(db, catalogue[n], seeded, settings.Batch())
    requires CallReady(db, targets, catalogue, n, after, settings)
    ensures CallReady(db, targets, catalogue, n + 1, after, settings)
  {
    hide Inv, OnlyAdds, ScopeCovered, Ready, PendSum, AllCosted, FirstScopes;
    var limit := settings.Limit();
    forall i | 0 <= i < |targets|
      ensures PendSum(db, targets[i], catalogue, n, after) < limit
      ensures Ready(db, targets[i], catalogue[n], after, limit - PendSum(db, targets[i], catalogue, n, after), settings.Batch())
    {
      BudgetLeft(start, targets, catalogue, n, after, limit, cs, counts, i);
      PendSumStands(start, before, FirstScopes(catalogue, n), targets[i], catalogue, n, after);
      PendSumStands(before, db, {catalogue[n]}, targets[i], catalogue, n, after);
      assert !Idle(seeded[i]);
    }
  }

  /** One scope more, whether or not some kind is out of budget afterwards. */
  lemma ScopeOn(start: T.Db, before: T.Db, db: T.Db, targets: seq<Target>, catalogue: seq<ScopeId>, n: nat, after: nat, settings: Settings,
                cs: seq<Cursor>, counts: seq<Count>, seeded: seq<Cursor>, cs': seq<Cursor>, counts': seq<Count>)
    requires n < |catalogue| && Reached(start, before, targets, catalogue, n, after, settings, cs, counts)
    requires |seeded| == |cs| && forall i :: 0 <= i < |cs| ==> seeded[i] == cs[i].(seqNo := after, exhausted := false)
    requires Ledger(before, catalogue[n], seeded, counts, cs', counts') && AllVisited(cs', after) && CursorsOk(db, catalogue[n], after, cs')
    requires Inv(db) && OnlyAdds(before, db, {catalogue[n]}) && AllCosted(counts', settings.Batch())
    requires AllSettled(before, db, catalogue[n], seeded, settings.Batch())
    ensures CallSettled(start, db, targets, catalogue, n + 1, after, settings)
    ensures |cs'| == |targets| && forall i :: 0 <= i < |cs'| ==> cs'[i].target == targets[i]
    ensures (exists i :: 0 <= i < |cs'| && cs'[i].remaining == 0) ==>
      !WithinBudget(start, targets, catalogue, n + 1, after, settings.Limit())
    ensures CountsAre(start, targets, catalogue, n + 1, after, settings.Limit(), counts')
    ensures OnlyAdds(start, db, FirstScopes(catalogue, n + 1)) && db.scopes == start.scopes
    ensures forall i :: 0 <= i < n ==> ScopeCovered(db, targets, catalogue[i], after)
    ensures ScopeCovered(db, targets, catalogue[n], after) && (forall i :: 0 <= i < |cs'| ==> cs'[i].remaining > 0) ==>
      Reached(start, db, targets, catalogue, n + 1, after, settings, cs', counts')
  {
    PaidOn(start, before, db, targets, catalogue, n, after, settings.Limit(), cs, counts, seeded, cs', counts');
    PaidMeans(start, targets, catalogue, n + 1, after, settings.Limit(), cs', counts');
    WalkOn(start, before, db, targets, catalogue, n, after);
    CallSettlesOn(start, before, db, targets, catalogue, n, after, settings, cs, counts, seeded);
    hide CallSettled, AllSettled, Inv, OnlyAdds, ScopeCovered, Ledger, AllVisited, CursorsOk, WithinBudget, PendSum, FirstScopes, AllCosted;
  }

  /** What one call that stops in scope `reached` does to the queue. */
  ghost predicate IsCall(a: T.Db, b: T.Db, targets: seq<Target>, catalogue: seq<ScopeId>, after: nat, settings: Settings, reached: nat) {
    && reached <= |catalogue| && WithinBudget(a, targets, catalogue, reached, after, settings.Limit())
    && (reached < |catalogue| ==> !WithinBudget(a, targets, catalogue, reached + 1, after, settings.Limit()))
    && var n := if reached < |catalogue| then reached + 1 else reached;
       OnlyAdds(a, b, FirstScopes(catalogue, n)) && CallSettled(a, b, targets, catalogue, n, after, settings)
  }

  /** One call over the scopes it was asked for: the one named, or the catalogue in id order.
      Scopes before the stop are covered whole, the stop's up to the cursor handed back,
      and the ones behind it have not been touched. */
  method Backfill(store: S.Store, targets: seq<Target>, catalogue: seq<ScopeId>, afterSeq: nat, settings: Settings, now: Instant)
    returns (stop: Stop, reached: nat, counts: seq<Count>)
    requires Inv(store.Db()) && (|catalogue| != 1 ==> afterSeq == 0)
    modifies store
    ensures Inv(store.Db()) && |counts| == |targets| && AllCosted(counts, settings.Batch())
    ensures reached <= |catalogue| && (stop.done <==> reached == |catalogue|)
    ensures OnlyAdds(old(store.Db()), store.Db(), FirstScopes(catalogue, if stop.done then reached else reached + 1))
    ensures forall i :: 0 <= i < reached ==> ScopeCovered(store.Db(), targets, catalogue[i], afterSeq)
    ensures !stop.done ==>
      && stop.nextScope == catalogue[reached]
      && afterSeq < stop.nextSeq <= T.LastSeq(old(store.Db()), stop.nextScope)
      && ScopeCoveredTo(store.Db(), targets, stop.nextScope, afterSeq, stop.nextSeq)
    ensures WithinBudget(old(store.Db()), targets, catalogue, reached, afterSeq, settings.Limit())
    ensures !stop.done ==> !WithinBudget(old(store.Db()), targets, catalogue, reached + 1, afterSeq, settings.Limit())
    ensures CountsAre(old(store.Db()), targets, catalogue, if stop.done then reached else reached + 1, afterSeq, settings.Limit(), counts)
    ensures IsCall(old(store.Db()), store.Db(), targets, catalogue, afterSeq, settings, reached)
    ensures AddsPending(old(store.Db()), store.Db(), (set t | t in targets), afterSeq, now, settings.runAfter,
                        if settings.batchSize == 0 then 16 else settings.batchSize)
  {
    hide CallSettled, AllSettled, Inv, OnlyAdds, CursorsOk, Visited, ScopeCovered, AddsPending, TargetsOf;
    hide ScopeCoveredTo, Ledger, WithinBudget, AllVisited, FirstScopes, AllCosted, CountsAre, Reached;
    ghost var start := store.Db();
    var limit := settings.Limit();
    var cursors := seq(|targets|, i requires 0 <= i < |targets| => Cursor(targets[i], 0, limit, false));
    counts := seq(|targets|, i => Count(0, 0, 0));
    reached := 0;
    ReachedNone(start, targets, catalogue, afterSeq, settings, cursors, counts);
    ghost var kinds := set t | t in targets;
    AddsNonePending(start, kinds, afterSeq, now, settings.runAfter, settings.Batch());
    while reached < |catalogue|
      invariant reached <= |catalogue| && Reached(start, store.Db(), targets, catalogue, reached, afterSeq, settings, cursors, counts)
      invariant AddsPending(start, store.Db(), kinds, afterSeq, now, settings.runAfter, settings.Batch())
    {
      var spent, next;
      cursors, counts, spent, next := VisitScope(store, targets, catalogue, reached, afterSeq, settings, now, cursors, counts, start);
      if spent { return Stop(catalogue[reached], next, false), reached, counts; }
      reached := reached + 1;
    }
    ReachedMeans(start, store.Db(), targets, catalogue, reached, afterSeq, settings, cursors, counts);
    stop := Stop("", 0, true);
  }

  /** One scope of a call, from where the caller resumed. */
  method VisitScope(store: S.Store, targets: seq<Target>, catalogue: seq<ScopeId>, n: nat, afterSeq: nat, settings: Settings, now: Instant,
                    cursors: seq<Cursor>, counts: seq<Count>, ghost start: T.Db)
    returns (cs: seq<Cursor>, counts': seq<Count>, spent: bool, next: nat)
    requires n < |catalogue| && Reached(start, store.Db(), targets, catalogue, n, afterSeq, settings, cursors, counts)
    requires AddsPending(start, store.Db(), (set t | t in targets), afterSeq, now, settings.runAfter, settings.Batch())
    modifies store
    ensures AddsPending(start, store.Db(), (set t | t in targets), afterSeq, now, settings.runAfter, settings.Batch())
    ensures !spent ==> Reached(start, store.Db(), targets, catalogue, n + 1, afterSeq, settings, cs, counts')
    ensures spent ==>
      && Inv(store.Db()) && |counts'| == |targets| && AllCosted(counts', settings.Batch()) && OnlyAdds(start, store.Db(), FirstScopes(catalogue, n + 1))
      && (forall i :: 0 <= i < n ==> ScopeCovered(store.Db(), targets, catalogue[i], afterSeq))
      && afterSeq < next <= T.LastSeq(start, catalogue[n]) && ScopeCoveredTo(store.Db(), targets, catalogue[n], afterSeq, next)
      && WithinBudget(start, targets, catalogue, n, afterSeq, settings.Limit()) && !WithinBudget(start, targets, catalogue, n + 1, afterSeq, settings.Limit())
      && CountsAre(start, targets, catalogue, n + 1, afterSeq, settings.Limit(), counts')
      && CallSettled(start, store.Db(), targets, catalogue, n + 1, afterSeq, settings)
  {
    hide CallSettled, AllSettled, Inv, OnlyAdds, CursorsOk, Visited, ScopeCovered, AddsPending, TargetsOf;
    hide ScopeCoveredTo, Ledger, WithinBudget, AllVisited, FirstScopes, AllCosted, CountsAre, Reached;
    ghost var before, kinds := store.Db(), set t | t in targets;
    ReachedMeans(start, before, targets, catalogue, n, afterSeq, settings, cursors, counts);
    var scope := catalogue[n];
    var seeded := seq(|cursors|, i requires 0 <= i < |cursors| => cursors[i].(seqNo := afterSeq, exhausted := false));
    TargetsListed(seeded, targets);
    cs, counts' := BackfillScope(store, scope, afterSeq, seeded, settings, now, counts);
    AddsPendingOn(start, before, store.Db(), FirstScopes(catalogue, n), {scope}, kinds, kinds, afterSeq, now, settings.runAfter, settings.Batch());
    ScopeOn(start, before, store.Db(), targets, catalogue, n, afterSeq, settings, cursors, counts, seeded, cs, counts');
    next := 0;
    spent := SpentBudget(cs);
    if spent {
      next := ResumeSeq(cs);
      SpentResumes(store.Db(), scope, afterSeq, cs, next);
    }
    VisitCovers(store.Db(), targets, scope, afterSeq, cs, next);
  }

  /** So a call goes on exactly while every kind has counted less than the limit asked for, or
      than a thousand episodes if none was, and none counts more. */
  lemma StopMeans(start: T.Db, targets: seq<Target>, catalogue: seq<ScopeId>, n: nat, after: nat, settings: Settings, counts: seq<Count>)
    requires n <= |catalogue| && CountsAre(start, targets, catalogue, n, after, settings.Limit(), counts)
    ensures var limit := if settings.limit == 0 then 1000 else settings.limit;
      && (WithinBudget(start, targets, catalogue, n, after, settings.Limit()) <==> forall i :: 0 <= i < |counts| ==> counts[i].episodes < limit)
      && (forall i :: 0 <= i < |counts| ==> counts[i].episodes <= limit)
  {
    hide PendSum;
    if forall i :: 0 <= i < |counts| ==> counts[i].episodes < settings.Limit() {
      forall i | 0 <= i < |targets| ensures PendSum(start, targets[i], catalogue, n, after) < settings.Limit() {
        assert counts[i].episodes < settings.Limit();
      }
    }
  }

  /** A kind that spent its budget is not exhausted, so the resume point has moved on. */
  lemma SpentResumes(db: T.Db, scope: ScopeId, seed: nat, cs: seq<Cursor>, next: nat)
    requires CursorsOk(db, scope, seed, cs) && AllVisited(cs, seed)
    requires exists i :: 0 <= i < |cs| && cs[i].remaining == 0
    requires (exists i :: 0 <= i < |cs| && !cs[i].exhausted && next == cs[i].seqNo)
          || (next == 0 && forall i :: 0 <= i < |cs| ==> cs[i].exhausted)
    ensures seed < next <= T.LastSeq(db, scope)
  {
    var k :| 0 <= k < |cs| && cs[k].remaining == 0;
    assert CursorOk(db, scope, seed, cs[k]);
    var i :| 0 <= i < |cs| && !cs[i].exhausted && next == cs[i].seqNo;
    assert CursorOk(db, scope, seed, cs[i]);
  }

  lemma CoveredStands(db: T.Db, db': T.Db, targets: seq<Target>, catalogue: seq<ScopeId>, n: nat, lo: nat)
    requires n < |catalogue| && OnlyAdds(db, db', {catalogue[n]})
    requires forall i :: 0 <= i < n ==> ScopeCovered(db, targets, catalogue[i], lo)
    ensures forall i :: 0 <= i < n ==> ScopeCovered(db', targets, catalogue[i], lo)
  {
    CoverageStands(db, db', {catalogue[n]});
    forall i | 0 <= i < n ensures ScopeCovered(db', targets, catalogue[i], lo) {
      assert ScopeCovered(db, targets, catalogue[i], lo);
    }
  }

  /** A visit to one scope more leaves what was said of the others. */
  lemma WalkOn(a: T.Db, b: T.Db, c: T.Db, targets: seq<Target>, catalogue: seq<ScopeId>, n: nat, lo: nat)
    requires n < |catalogue| && OnlyAdds(b, c, {catalogue[n]})
    requires OnlyAdds(a, b, FirstScopes(catalogue, n))
    requires forall i :: 0 <= i < n ==> ScopeCovered(b, targets, catalogue[i], lo)
    ensures OnlyAdds(a, c, FirstScopes(catalogue, n + 1)) && c.scopes == a.scopes
    ensures forall i :: 0 <= i < n ==> ScopeCovered(c, targets, catalogue[i], lo)
  {
    assert catalogue[..n + 1] == catalogue[..n] + [catalogue[n]];
    CoveredStands(b, c, targets, catalogue, n, lo);
    hide ScopeCovered;
  }

  // ---- Whole walks ----------------------------------------------------------

  /** Safe to run twice: a second call with the same request, with nothing changed in between,
      stops where the first did and adds no job. */
  lemma SecondCallAddsNothing(a: T.Db, b: T.Db, c: T.Db, targets: seq<Target>, catalogue: seq<ScopeId>, after: nat, settings: Settings,
                              first: nat, second: nat)
    requires IsCall(a, b, targets, catalogue, after, settings, first) && IsCall(b, c, targets, catalogue, after, settings, second)
    ensures second == first && c == b.(minted := c.minted)
  {
    var n := if first < |catalogue| then first + 1 else first;
    SameBudget(a, b, FirstScopes(catalogue, n), targets, catalogue, after, settings.Limit());
    SameStop(a, b, targets, catalogue, after, settings.Limit(), first, second);
    hide WithinBudget, CallReady, FirstScopes;
  }

  lemma SameBudget(a: T.Db, b: T.Db, visited: set<ScopeId>, targets: seq<Target>, catalogue: seq<ScopeId>, after: nat, limit: nat)
    requires OnlyAdds(a, b, visited)
    ensures forall n: nat :: n <= |catalogue| ==> (WithinBudget(a, targets, catalogue, n, after, limit) <==> WithinBudget(b, targets, catalogue, n, after, limit))
  {
    forall n: nat | n <= |catalogue|
      ensures WithinBudget(a, targets, catalogue, n, after, limit) <==> WithinBudget(b, targets, catalogue, n, after, limit)
    {
      forall i | 0 <= i < |targets| ensures PendSum(a, targets[i], catalogue, n, after) == PendSum(b, targets[i], catalogue, n, after) {
        PendSumStands(a, b, visited, targets[i], catalogue, n, after);
      }
    }
    hide OnlyAdds, PendSum;
  }

  lemma SameStop(a: T.Db, b: T.Db, targets: seq<Target>, catalogue: seq<ScopeId>, after: nat, limit: nat, n: nat, n': nat)
    requires n <= |catalogue| && n' <= |catalogue|
    requires forall k: nat :: k <= |catalogue| ==> (WithinBudget(a, targets, catalogue, k, after, limit) <==> WithinBudget(b, targets, catalogue, k, after, limit))
    requires WithinBudget(a, targets, catalogue, n, after, limit) && WithinBudget(b, targets, catalogue, n', after, limit)
    requires n < |catalogue| ==> !WithinBudget(a, targets, catalogue, n + 1, after, limit)
    requires n' < |catalogue| ==> !WithinBudget(b, targets, catalogue, n' + 1, after, limit)
    ensures n == n'
  {
    EarlierWithin(a, targets, catalogue, after, limit, n);
    EarlierWithin(b, targets, catalogue, after, limit, n');
    hide WithinBudget;
  }

  /** Paging one scope: feeding each page's cursor back ends, because it strictly advances,
      and at the end every pending episode of every kind has an outstanding job. */
  method PageScope(store: S.Store, targets: seq<Target>, scope: ScopeId, settings: Settings, now: Instant)
    requires Inv(store.Db())
    modifies store
    ensures Inv(store.Db()) && OnlyAdds(old(store.Db()), store.Db(), {scope})
    ensures ScopeCovered(store.Db(), targets, scope, 0)
  {
    var after, done := 0, false;
    while !done
      invariant Inv(store.Db()) && OnlyAdds(old(store.Db()), store.Db(), {scope})
      invariant if done then ScopeCovered(store.Db(), targets, scope, 0) else ScopeCoveredTo(store.Db(), targets, scope, 0, after)
      decreases T.LastSeq(store.Db(), scope) - after, !done
    {
      ghost var before := store.Db();
      after, done := NextPage(store, targets, [scope], 0, after, settings, now);
      AddsCompose(old(store.Db()), before, store.Db(), {scope});
    }
  }

  lemma PagesJoin(db: T.Db, targets: seq<Target>, scope: ScopeId, mid: nat)
    requires ScopeCoveredTo(db, targets, scope, 0, mid) && ScopeCovered(db, targets, scope, mid)
    ensures ScopeCovered(db, targets, scope, 0)
  {
    forall i, e | 0 <= i < |targets| && Lacks(db, targets[i], scope, 0, e) ensures HasJob(db, targets[i].Kind(), scope, e) {
      if db.episodes[e].seqNo <= mid { assert CoveredTo(db, targets[i], scope, 0, mid); }
      else { assert Covered(db, targets[i], scope, mid) && Lacks(db, targets[i], scope, mid, e); }
    }
  }

  lemma PagesMeet(db: T.Db, targets: seq<Target>, scope: ScopeId, mid: nat, hi: nat)
    requires ScopeCoveredTo(db, targets, scope, 0, mid) && ScopeCoveredTo(db, targets, scope, mid, hi)
    ensures ScopeCoveredTo(db, targets, scope, 0, hi)
  {
    forall i, e | 0 <= i < |targets| && Lacks(db, targets[i], scope, 0, e) && db.episodes[e].seqNo <= hi
      ensures HasJob(db, targets[i].Kind(), scope, e)
    {
      if db.episodes[e].seqNo <= mid { assert CoveredTo(db, targets[i], scope, 0, mid); }
      else { assert CoveredTo(db, targets[i], scope, mid, hi) && Lacks(db, targets[i], scope, mid, e); }
    }
  }

  /** The first scope by which some kind lacks as much as its budget, counted from the first;
      all of them if no kind ever does. */
  ghost predicate StopsAt(db: T.Db, targets: seq<Target>, catalogue: seq<ScopeId>, limit: nat, n: nat) {
    && n <= |catalogue|
    && (forall k: nat :: k < n ==> WithinBudget(db, targets, catalogue, k, 0, limit))
    && (n < |catalogue| ==> !WithinBudget(db, targets, catalogue, n, 0, limit))
  }

  /** What paging a whole catalogue does: the scopes up to that one are covered, and no job is
      added to any other. */
  ghost predicate PagedAll(before: T.Db, after: T.Db, targets: seq<Target>, catalogue: seq<ScopeId>, limit: nat, reached: nat) {
    && StopsAt(before, targets, catalogue, limit, reached)
    && (forall i :: 0 <= i < reached ==> ScopeCovered(after, targets, catalogue[i], 0))
    && OnlyAdds(before, after, FirstScopes(catalogue, reached))
  }

  /** Paging the whole catalogue the way a caller does: the cursor handed back names one
      scope, so every later page walks that scope alone and reports the end of it. */
  method PageCatalogue(store: S.Store, targets: seq<Target>, catalogue: seq<ScopeId>, settings: Settings, now: Instant)
    returns (reached: nat)
    requires Inv(store.Db())
    modifies store
    ensures Inv(store.Db()) && PagedAll(old(store.Db()), store.Db(), targets, catalogue, settings.Limit(), reached)
  {
    hide Inv, OnlyAdds, ScopeCovered, ScopeCoveredTo, WithinBudget, IsCall, CountsAre, AllCosted, FirstScopes, T.LastSeq;
    ghost var start := store.Db();
    var stop, k, counts := Backfill(store, targets, catalogue, 0, settings, now);
    EarlierWithin(start, targets, catalogue, 0, settings.Limit(), k);
    if stop.done { return k; }
    var after, done := stop.nextSeq, false;
    while !done
      invariant Inv(store.Db()) && OnlyAdds(old(store.Db()), store.Db(), FirstScopes(catalogue, k + 1))
      invariant forall i :: 0 <= i < k ==> ScopeCovered(store.Db(), targets, catalogue[i], 0)
      invariant if done then ScopeCovered(store.Db(), targets, catalogue[k], 0) else ScopeCoveredTo(store.Db(), targets, catalogue[k], 0, after)
      decreases T.LastSeq(store.Db(), catalogue[k]) - after, !done
    {
      ghost var before := store.Db();
      after, done := NextPage(store, targets, catalogue, k, after, settings, now);
      CoveredStands(before, store.Db(), targets, catalogue, k, 0);
      PageAdds(start, before, store.Db(), catalogue, k);
    }
    return k + 1;
  }

  lemma PageAdds(a: T.Db, b: T.Db, c: T.Db, catalogue: seq<ScopeId>, k: nat)
    requires k < |catalogue| && OnlyAdds(a, b, FirstScopes(catalogue, k + 1)) && OnlyAdds(b, c, {catalogue[k]})
    ensures OnlyAdds(a, c, FirstScopes(catalogue, k + 1)) && T.LastSeq(c, catalogue[k]) == T.LastSeq(b, catalogue[k])
  {
    assert catalogue[..k + 1][k] == catalogue[k];
    AddsWithin(a, b, c, FirstScopes(catalogue, k + 1), catalogue[k]);
  }

  lemma {:induction false} PendSumGrows(db: T.Db, t: Target, catalogue: seq<ScopeId>, m: nat, n: nat, after: nat)
    requires m <= n <= |catalogue|
    ensures PendSum(db, t, catalogue, m, after) <= PendSum(db, t, catalogue, n, after)
  {
    if m < n { PendSumGrows(db, t, catalogue, m, n - 1, after); }
  }

  lemma EarlierWithin(db: T.Db, targets: seq<Target>, catalogue: seq<ScopeId>, after: nat, limit: nat, n: nat)
    requires n <= |catalogue| && WithinBudget(db, targets, catalogue, n, after, limit)
    ensures forall k: nat :: k <= n ==> WithinBudget(db, targets, catalogue, k, after, limit)
  {
    forall k: nat | k <= n ensures WithinBudget(db, targets, catalogue, k, after, limit) {
      forall i | 0 <= i < |targets| ensures PendSum(db, targets[i], catalogue, k, after) < limit {
        PendSumGrows(db, targets[i], catalogue, k, n, after);
      }
    }
  }

  /** A scope the paging does not visit is covered afterwards exactly if it was before. */
  lemma UnvisitedAsBefore(before: T.Db, after: T.Db, targets: seq<Target>, catalogue: seq<ScopeId>, limit: nat, reached: nat, scope: ScopeId)
    requires PagedAll(before, after, targets, catalogue, limit, reached) && scope !in FirstScopes(catalogue, reached)
    ensures ScopeCovered(after, targets, scope, 0) <==> ScopeCovered(before, targets, scope, 0)
  {
    CoverageStands(before, after, FirstScopes(catalogue, reached));
    forall k, e | HasJob(after, k, scope, e) ensures HasJob(before, k, scope, e) {
      var j :| j in after.jobs && after.jobs[j].Outstanding() && after.jobs[j].kind == k && after.jobs[j].scope == scope && e in after.jobs[j].episodes;
      assert j in before.jobs && before.jobs[j] == after.jobs[j];
    }
  }

  /** So paging covers the whole catalogue exactly when every scope behind the one the first
      call stops in was covered already. Where it stops is `StopsAt`, which a caller can count
      beforehand. */
  lemma CatalogueCoveredExactlyWhen(before: T.Db, after: T.Db, targets: seq<Target>, catalogue: seq<ScopeId>, limit: nat, reached: nat)
    requires PagedAll(before, after, targets, catalogue, limit, reached)
    ensures (forall k :: 0 <= k < |catalogue| ==> ScopeCovered(after, targets, catalogue[k], 0)) <==>
      (forall k :: reached <= k < |catalogue| && catalogue[k] !in FirstScopes(catalogue, reached) ==> ScopeCovered(before, targets, catalogue[k], 0))
  {
    assert forall i :: 0 <= i < reached ==> catalogue[..reached][i] in FirstScopes(catalogue, reached);
    forall k | 0 <= k < |catalogue|
      ensures catalogue[k] in FirstScopes(catalogue, reached) ==> ScopeCovered(after, targets, catalogue[k], 0)
      ensures catalogue[k] !in FirstScopes(catalogue, reached) ==>
        (ScopeCovered(after, targets, catalogue[k], 0) <==> ScopeCovered(before, targets, catalogue[k], 0)) && k >= reached
    {
      if catalogue[k] in FirstScopes(catalogue, reached) {
        var i :| 0 <= i < reached && catalogue[..reached][i] == catalogue[k];
        assert ScopeCovered(after, targets, catalogue[i], 0);
      } else {
        UnvisitedAsBefore(before, after, targets, catalogue, limit, reached, catalogue[k]);
      }
    }
    hide ScopeCovered, PagedAll, FirstScopes;
  }

  lemma StopUnique(db: T.Db, targets: seq<Target>, catalogue: seq<ScopeId>, limit: nat, m: nat, n: nat)
    requires StopsAt(db, targets, catalogue, limit, m) && StopsAt(db, targets, catalogue, limit, n)
    ensures m == n
  {
    hide WithinBudget;
  }

  // ---- Two scopes and a budget of one -------------------------------------------

  /** An episode recorded in each of two scopes, neither with a job. */
  function TwoScopes(body: Body): T.Db { T.Run(T.EMPTY, [T.OpAppend(Only("a", body)), T.OpAppend(Only("b", body))]) }

  lemma TwoScopesHold(body: Body)
    ensures Inv(TwoScopes(body))
    ensures TwoScopes(body) == T.Db(map["a" := 1, "b" := 1], map[0 := Episode(0, "a", 1, body, 0), 1 := Episode(1, "b", 1, body, 0)],
                                    map[], map[], map[], map[], 2)
  {
    var ops := [T.OpAppend(Only("a", body)), T.OpAppend(Only("b", body))];
    Reachable(ops);
    AppendsOne(T.EMPTY, "a", body);
    var one := T.Next(T.EMPTY, ops[0]);
    assert T.LastSeq(one, "b") == 0;
    AppendsOne(one, "b", body);
    RunTwo(T.EMPTY, ops[0], ops[1]);
    hide T.Next, Inv, Only;
  }

  /** Paging both with a budget of one episode covers the first and never reaches the second,
      whose episode ends with no job, although paging reports its end. */
  lemma SecondScopeLeftOut(body: Body, model: ModelId, after: T.Db, reached: nat)
    requires PagedAll(TwoScopes(body), after, [EncodeFor(model)], ["a", "b"], 1, reached)
    ensures reached == 1 && ScopeCovered(after, [EncodeFor(model)], "a", 0) && !ScopeCovered(after, [EncodeFor(model)], "b", 0)
  {
    var (db, targets, catalogue) := (TwoScopes(body), [EncodeFor(model)], ["a", "b"]);
    TwoScopesHold(body);
    assert Lacking(db, targets[0], "a", 0) == {0};
    assert PendSum(db, targets[0], catalogue, 0, 0) == 0 && PendSum(db, targets[0], catalogue, 1, 0) == 1;
    assert !WithinBudget(db, targets, catalogue, 1, 0, 1);
    assert StopsAt(db, targets, catalogue, 1, 1);
    StopUnique(db, targets, catalogue, 1, reached, 1);
    assert catalogue[0] == "a" && catalogue[..1] == ["a"];
    assert Lacks(db, targets[0], "b", 0, 1) && !HasJob(db, Encode, "b", 1);
    assert !ScopeCovered(db, targets, "b", 0) by { assert !Covered(db, targets[0], "b", 0); }
    UnvisitedAsBefore(db, after, targets, catalogue, 1, reached, "b");
    assert ScopeCovered(after, targets, catalogue[0], 0);
  }

  /** One resumed page of one scope. */
  method NextPage(store: S.Store, targets: seq<Target>, catalogue: seq<ScopeId>, k: nat, after: nat, settings: Settings, now: Instant)
    returns (next: nat, done: bool)
    requires Inv(store.Db()) && k < |catalogue| && ScopeCoveredTo(store.Db(), targets, catalogue[k], 0, after)
    modifies store
    ensures Inv(store.Db()) && OnlyAdds(old(store.Db()), store.Db(), {catalogue[k]})
    ensures if done then next == after && ScopeCovered(store.Db(), targets, catalogue[k], 0)
            else after < next <= T.LastSeq(old(store.Db()), catalogue[k]) && ScopeCoveredTo(store.Db(), targets, catalogue[k], 0, next)
  {
    var scope := catalogue[k];
    ghost var before := store.Db();
    var stop, reached, counts := Backfill(store, targets, [scope], after, settings, now);
    assert [scope][..1] == [scope] && FirstScopes([scope], 1) == {scope};
    CoverageStands(before, store.Db(), {scope});
    if stop.done {
      assert ScopeCovered(store.Db(), targets, [scope][0], after);
      PagesJoin(store.Db(), targets, scope, after);
      return after, true;
    }
    PagesMeet(store.Db(), targets, scope, after, stop.nextSeq);
    return stop.nextSeq, false;
  }
}
