/** Claims about whole runs of the queue: termination of every job, the bound on its
    attempts, and exclusion between leases. */
module QueueHistories {
  import opened Model
  import Sets
  import opened Tables
  import opened Invariants

  // ---- Work owed ------------------------------------------------------------

  /** What a job can still cost: two for each attempt left, one for an attempt under way. */
  function Owed(job: Job): int {
    if job.Outstanding() then 2 * (job.maxAttempts - job.attempts) + (if job.state.Running? then 1 else 0) else 0
  }

  function OwedBy(jobs: map<Id, Job>, j: Id): int { if j in jobs then Owed(jobs[j]) else 0 }

  /** The work owed by every job whose id is below `n`. */
  function TotalOwed(jobs: map<Id, Job>, n: nat): int {
    if n == 0 then 0 else TotalOwed(jobs, n - 1) + OwedBy(jobs, n - 1)
  }

  lemma {:induction false} TotalFalls(jobs: map<Id, Job>, jobs': map<Id, Job>, n: nat, j: Id)
    requires forall i :: 0 <= i < n ==> OwedBy(jobs', i) <= OwedBy(jobs, i)
    ensures TotalOwed(jobs', n) <= TotalOwed(jobs, n)
    ensures j < n && OwedBy(jobs', j) < OwedBy(jobs, j) ==> TotalOwed(jobs', n) < TotalOwed(jobs, n)
  {
    if n > 0 { TotalFalls(jobs, jobs', n - 1, j); }
  }

  lemma {:induction false} NothingOwedIsNegative(db: Db, n: nat)
    requires QueueInv(db)
    ensures TotalOwed(db.jobs, n) >= 0
  {
    if n > 0 { NothingOwedIsNegative(db, n - 1); }
  }

  predicate Transition(op: Op) { op.OpLease? || op.OpSucceed? || op.OpFail? || op.OpReclaim? }

  lemma LeaseLowersOwed(db: Db, req: LeaseRequest, locked: set<Id>, j: Id)
    requires QueueInv(db)
    ensures var jobs' := Lease(db, req, locked).jobs;
      OwedBy(jobs', j) <= OwedBy(db.jobs, j)
      && (j in Claimed(db.jobs, req, locked) ==> OwedBy(jobs', j) == OwedBy(db.jobs, j) - 1)
      && (j !in Claimed(db.jobs, req, locked) && j in db.jobs ==> j in jobs' && jobs'[j] == db.jobs[j])
      && jobs'.Keys == db.jobs.Keys
  {
    if j in Claimed(db.jobs, req, locked) { assert Claimable(db.jobs[j], req); }
  }

  lemma ReleaseLowersOwed(job: Job, at: Instant, retryAt: Option<Instant>)
    requires JobOk(job) && job.state.Running?
    ensures Owed(Released(job, at, retryAt)) < Owed(job)
  {}

  lemma SucceedLowersOwed(db: Db, id: Id, w: WorkerId, at: Instant, j: Id)
    requires QueueInv(db)
    ensures var jobs' := Kept(db, Succeed(db, id, w, at)).jobs;
      && jobs'.Keys == db.jobs.Keys
      && OwedBy(jobs', j) <= OwedBy(db.jobs, j)
      && (j in db.jobs && jobs'[j] != db.jobs[j] ==> OwedBy(jobs', j) < OwedBy(db.jobs, j))
  {
    forall i ensures i in Kept(db, Succeed(db, id, w, at)).jobs <==> i in db.jobs { SucceedRow(db, id, w, at, i); }
    SucceedRow(db, id, w, at, j);
    hide Succeed, OneInFlight;
  }

  lemma FailLowersOwed(db: Db, id: Id, w: WorkerId, at: Instant, retryAt: Instant, j: Id)
    requires QueueInv(db)
    ensures var jobs' := Kept(db, Fail(db, id, w, at, retryAt)).jobs;
      && jobs'.Keys == db.jobs.Keys
      && OwedBy(jobs', j) <= OwedBy(db.jobs, j)
      && (j in db.jobs && jobs'[j] != db.jobs[j] ==> OwedBy(jobs', j) < OwedBy(db.jobs, j))
  {
    forall i ensures i in Kept(db, Fail(db, id, w, at, retryAt)).jobs <==> i in db.jobs { FailRow(db, id, w, at, retryAt, i); }
    FailRow(db, id, w, at, retryAt, j);
    if j in db.jobs && db.jobs[j].HeldBy(w) { ReleaseLowersOwed(db.jobs[j], at, Some(retryAt)); }
    hide Fail, Released, OneInFlight;
  }

  lemma ReclaimLowersOwed(db: Db, now: Instant, j: Id)
    requires QueueInv(db)
    ensures var jobs' := Reclaim(db, now).jobs;
      && jobs'.Keys == db.jobs.Keys
      && OwedBy(jobs', j) <= OwedBy(db.jobs, j)
      && (j in db.jobs && jobs'[j] != db.jobs[j] ==> OwedBy(jobs', j) < OwedBy(db.jobs, j))
  {
    if j in db.jobs && Expired(db.jobs[j], now) { ReleaseLowersOwed(db.jobs[j], now, None); }
    hide Released, OneInFlight;
  }

  lemma TransitionLowersOwed(db: Db, op: Op, j: Id)
    requires QueueInv(db) && Transition(op)
    ensures var jobs' := Next(db, op).jobs;
      && jobs'.Keys == db.jobs.Keys
      && OwedBy(jobs', j) <= OwedBy(db.jobs, j)
      && (j in db.jobs && jobs'[j] != db.jobs[j] ==> OwedBy(jobs', j) < OwedBy(db.jobs, j))
  {
    hide Lease, Reclaim, OwedBy, QueueInv, Claimed, Succeed, Fail;
    match op
    case OpLease(req, locked) => LeaseLowersOwed(db, req, locked, j); LeaseMovesClaimed(db, req, locked, j);
    case OpReclaim(now) => ReclaimLowersOwed(db, now, j);
    case OpSucceed(id, w, at) => SucceedLowersOwed(db, id, w, at, j);
    case OpFail(id, w, at, retryAt) => FailLowersOwed(db, id, w, at, retryAt, j);
  }

  lemma LeaseMovesClaimed(db: Db, req: LeaseRequest, locked: set<Id>, j: Id)
    ensures j in db.jobs && j !in Claimed(db.jobs, req, locked) ==> Lease(db, req, locked).jobs[j] == db.jobs[j]
  {}

  /** Leasing, finishing, failing and reclaiming strictly lower the work owed whenever they
      change anything, so between enqueues and retries the queue can only move finitely often. */
  lemma TransitionsFall(db: Db, op: Op)
    requires QueueInv(db) && Transition(op)
    ensures Next(db, op).jobs != db.jobs ==> TotalOwed(Next(db, op).jobs, db.minted) < TotalOwed(db.jobs, db.minted)
  {
    var jobs' := Next(db, op).jobs;
    forall i: Id ensures OwedBy(jobs', i) <= OwedBy(db.jobs, i) { TransitionLowersOwed(db, op, i); }
    if jobs' != db.jobs {
      TransitionLowersOwed(db, op, 0);
      var j :| j in db.jobs && jobs'[j] != db.jobs[j];
      TransitionLowersOwed(db, op, j);
      TotalFalls(db.jobs, jobs', db.minted, j);
    }
  }

  /** Nothing but an append, an enqueue or a retry ever raises it. */
  lemma OnlyNewWorkRaises(db: Db, op: Op)
    requires QueueInv(db) && !op.OpAppend? && !op.OpEnqueue? && !op.OpRetry?
    ensures TotalOwed(Next(db, op).jobs, db.minted) <= TotalOwed(db.jobs, db.minted)
  {
    var jobs' := Next(db, op).jobs;
    forall i: Id ensures OwedBy(jobs', i) <= OwedBy(db.jobs, i) {
      if Transition(op) { TransitionLowersOwed(db, op, i); }
    }
    TotalFalls(db.jobs, jobs', db.minted, 0);
  }

  /** How many operations of a run change the queue by leasing, finishing, failing or reclaiming. */
  function Moves(db: Db, ops: seq<Op>): nat
    decreases |ops|
  {
    if ops == [] then 0
    else (if Transition(ops[0]) && Next(db, ops[0]).jobs != db.jobs then 1 else 0) + Moves(Next(db, ops[0]), ops[1..])
  }

  predicate AddsWork(op: Op) { op.OpAppend? || op.OpEnqueue? || op.OpRetry? }

  /** With no new work, the queue moves at most as often as it owes. */
  lemma {:induction false} QueueQuiesces(db: Db, ops: seq<Op>)
    requires QueueInv(db) && forall i :: 0 <= i < |ops| ==> !AddsWork(ops[i])
    ensures Moves(db, ops) <= TotalOwed(db.jobs, db.minted)
    decreases |ops|
  {
    if ops == [] {
      NothingOwedIsNegative(db, db.minted);
    } else {
      var next := Next(db, ops[0]);
      QueueStep(db, ops[0]);
      QueueQuiesces(next, ops[1..]);
      MintedNeverFalls(db, ops[0]);
      TotalStopsAtIds(next.jobs, db, next);
      OnlyNewWorkRaises(db, ops[0]);
      if Transition(ops[0]) { TransitionsFall(db, ops[0]); }
    }
  }

  lemma MintedNeverFalls(db: Db, op: Op)
    ensures db.minted <= Next(db, op).minted
    ensures !AddsWork(op) ==> Next(db, op).jobs.Keys <= db.jobs.Keys
  {
    if op.OpApplyExtraction? { ExtractionTouches(db, op.extraction); }
    if QueueOp(op) { QueueOpsTouchJobs(db, op); }
  }

  lemma TotalStopsAtIds(jobs: map<Id, Job>, db: Db, next: Db)
    requires QueueInv(db) && next.jobs == jobs && jobs.Keys <= db.jobs.Keys && db.minted <= next.minted
    ensures TotalOwed(jobs, next.minted) == TotalOwed(jobs, db.minted)
  {
    EmptyTail(jobs, db.minted, next.minted);
  }

  lemma {:induction false} EmptyTail(jobs: map<Id, Job>, m: nat, n: nat)
    requires m <= n && forall j :: j in jobs ==> j < m
    ensures TotalOwed(jobs, n) == TotalOwed(jobs, m)
  {
    if n > m { EmptyTail(jobs, m, n - 1); }
  }

  // ---- Attempts -------------------------------------------------------------

  predicate LeasesJob(db: Db, op: Op, j: Id) { op.OpLease? && j in Claimed(db.jobs, op.req, op.locked) }

  /** How often a run hands a job to a worker. */
  function Leases(db: Db, ops: seq<Op>, j: Id): nat
    decreases |ops|
  {
    if ops == [] then 0 else (if LeasesJob(db, ops[0], j) then 1 else 0) + Leases(Next(db, ops[0]), ops[1..], j)
  }

  predicate Retries(op: Op, j: Id) { op.OpRetry? && op.id == j }

  lemma {:induction false} BatchJobsSpareOld(jobs: map<Id, Job>, first: Id, scope: ScopeId, ids: seq<Id>, specs: seq<JobSpec>, at: Instant)
    ensures forall j :: j < first ==>
      (j in jobs <==> j in WithBatchJobs(jobs, first, scope, ids, specs, at))
      && (j in jobs ==> WithBatchJobs(jobs, first, scope, ids, specs, at)[j] == jobs[j])
    decreases |specs|
  {
    if specs != [] { BatchJobsSpareOld(jobs, first, scope, ids, specs[..|specs| - 1], at); }
  }

  /** What one operation makes of a row that it leaves in the table. */
  function RowAfter(db: Db, op: Op, j: Id): Job
    requires j in db.jobs
  {
    var job := db.jobs[j];
    match op
    case OpLease(req, locked) => if j in Claimed(db.jobs, req, locked) then Leased(job, req) else job
    case OpSucceed(id, w, at) =>
      if id == j && job.HeldBy(w) then job.(state := Done, leasedUntil := None, leasedBy := None, updatedAt := at) else job
    case OpFail(id, w, at, retryAt) => if id == j && job.HeldBy(w) then Released(job, at, Some(retryAt)) else job
    case OpReclaim(now) => if Expired(job, now) then Released(job, now, None) else job
    case OpRetry(id, now) =>
      if id == j && job.state.Dead? && !InFlight(db.jobs, job.kind, job.scope, job.episodes)
      then job.(state := Pending, attempts := 0, runAfter := now, leasedUntil := None, leasedBy := None, updatedAt := now)
      else job
    case _ => job
  }

  lemma LeaseRow(db: Db, req: LeaseRequest, locked: set<Id>, j: Id)
    ensures j in Lease(db, req, locked).jobs <==> j in db.jobs
    ensures j in db.jobs ==> Lease(db, req, locked).jobs[j] == RowAfter(db, OpLease(req, locked), j)
  {}

  lemma AppendRow(db: Db, cmd: AppendCommand, j: Id)
    requires j < db.minted && cmd.Valid()
    ensures j in Append(db, cmd).value.jobs <==> j in db.jobs
    ensures j in db.jobs ==> Append(db, cmd).value.jobs[j] == db.jobs[j]
  {
    var n := |cmd.episodes|;
    BatchJobsSpareOld(db.jobs, db.minted + n, cmd.episodes[0].scope, MintedIds(db.minted, n), cmd.jobs,
                      cmd.episodes[0].ingestedAt);
  }

  lemma SucceedRow(db: Db, id: Id, w: WorkerId, at: Instant, j: Id)
    ensures j in Kept(db, Succeed(db, id, w, at)).jobs <==> j in db.jobs
    ensures j in db.jobs ==> Kept(db, Succeed(db, id, w, at)).jobs[j] == RowAfter(db, OpSucceed(id, w, at), j)
  {}

  lemma FailRow(db: Db, id: Id, w: WorkerId, at: Instant, retryAt: Instant, j: Id)
    ensures j in Kept(db, Fail(db, id, w, at, retryAt)).jobs <==> j in db.jobs
    ensures j in db.jobs ==> Kept(db, Fail(db, id, w, at, retryAt)).jobs[j] == RowAfter(db, OpFail(id, w, at, retryAt), j)
  {}

  lemma ReclaimRow(db: Db, now: Instant, j: Id)
    ensures j in Reclaim(db, now).jobs <==> j in db.jobs
    ensures j in db.jobs ==> Reclaim(db, now).jobs[j] == RowAfter(db, OpReclaim(now), j)
  {}

  lemma RetryRow(db: Db, id: Id, now: Instant, j: Id)
    ensures j in Kept(db, Retry(db, id, now)).jobs <==> j in db.jobs
    ensures j in db.jobs ==> Kept(db, Retry(db, id, now)).jobs[j] == RowAfter(db, OpRetry(id, now), j)
  {}

  lemma OtherRow(db: Db, op: Op, j: Id)
    requires j < db.minted
    requires op.OpEnqueue? || op.OpPurge? || op.OpForget? || op.OpDropEncodings? || op.OpPutEncoding?
    ensures j in Next(db, op).jobs ==> j in db.jobs && Next(db, op).jobs[j] == db.jobs[j]
  {}

  /** Rows are never revived: an operation updates an old row, leaves it, or removes it. */
  lemma RowStep(db: Db, op: Op, j: Id)
    requires j < db.minted
    ensures j in Next(db, op).jobs ==> j in db.jobs && Next(db, op).jobs[j] == RowAfter(db, op, j)
    ensures j in db.jobs && Transition(op) ==> j in Next(db, op).jobs
  {
    match op
    case OpAppend(cmd) => if cmd.Valid() { AppendRow(db, cmd, j); }
    case OpApplyExtraction(cmd) => ExtractionTouches(db, cmd);
    case OpLease(req, locked) => LeaseRow(db, req, locked, j);
    case OpSucceed(id, w, at) => SucceedRow(db, id, w, at, j);
    case OpFail(id, w, at, retryAt) => FailRow(db, id, w, at, retryAt, j);
    case OpReclaim(now) => ReclaimRow(db, now, j);
    case OpRetry(id, now) => RetryRow(db, id, now, j);
    case _ => OtherRow(db, op, j);
  }

  lemma ClaimedIsClaimable(db: Db, op: Op, j: Id)
    requires LeasesJob(db, op, j)
    ensures j in db.jobs && Claimable(db.jobs[j], op.req)
  {}

  /** One operation neither revives a row that is gone nor changes its work or its allowance,
      and counts an attempt exactly when it leases the job. */
  lemma AttemptStep(db: Db, op: Op, j: Id)
    requires j < db.minted && !Retries(op, j)
    ensures LeasesJob(db, op, j) ==> j in Next(db, op).jobs
    ensures j in Next(db, op).jobs ==>
      var job' := Next(db, op).jobs[j];
      && j in db.jobs
      && job'.maxAttempts == db.jobs[j].maxAttempts
      && job'.SameWork(db.jobs[j].kind, db.jobs[j].scope, db.jobs[j].episodes)
      && job'.attempts == db.jobs[j].attempts + (if LeasesJob(db, op, j) then 1 else 0)
  {
    RowStep(db, op, j);
    if LeasesJob(db, op, j) { ClaimedIsClaimable(db, op, j); }
  }

  /** Without a retry, a job is handed out exactly as often as its attempts say, and never
      more often than its allowance, whatever becomes of it. */
  lemma {:induction false} AttemptsBounded(db: Db, ops: seq<Op>, j: Id)
    requires QueueInv(db) && j < db.minted && forall i :: 0 <= i < |ops| ==> !Retries(ops[i], j)
    ensures j in Run(db, ops).jobs ==> j in db.jobs && Run(db, ops).jobs[j].attempts == db.jobs[j].attempts + Leases(db, ops, j)
    ensures j in db.jobs ==> Leases(db, ops, j) <= db.jobs[j].maxAttempts - db.jobs[j].attempts
    ensures j !in db.jobs ==> Leases(db, ops, j) == 0
    decreases |ops|
  {
    if ops != [] {
      AttemptStep(db, ops[0], j);
      QueueStep(db, ops[0]);
      MintedNeverFalls(db, ops[0]);
      AttemptsBounded(Next(db, ops[0]), ops[1..], j);
    }
  }

  // ---- Exclusion ------------------------------------------------------------

  /** An operation that can end a lease before its holder reports: the holder failed the
      job, or a reclaim ran after the lease expired. */
  predicate EndsLease(op: Op, j: Id, w: WorkerId, until: Instant) {
    (op.OpFail? && op.id == j && op.worker == w) || (op.OpReclaim? && op.now > until)
  }

  /** Leased to `w` until then, finished, or gone. */
  predicate HeldOrSettled(jobs: map<Id, Job>, j: Id, w: WorkerId, until: Instant) {
    j in jobs ==> jobs[j].state.Done? || (jobs[j].HeldBy(w) && jobs[j].leasedUntil == Some(until))
  }

  lemma HoldStep(db: Db, op: Op, j: Id, w: WorkerId, until: Instant)
    requires j < db.minted && HeldOrSettled(db.jobs, j, w, until) && !EndsLease(op, j, w, until)
    ensures HeldOrSettled(Next(db, op).jobs, j, w, until) && !LeasesJob(db, op, j)
    ensures j in Next(db, op).jobs && !(op.OpSucceed? && op.id == j && op.worker == w) ==>
      j in db.jobs && Next(db, op).jobs[j] == db.jobs[j]
  {
    RowStep(db, op, j);
    if LeasesJob(db, op, j) { ClaimedIsClaimable(db, op, j); }
  }

  /** While a lease stands no one else is given the job: every later lease of it comes after
      its holder failed it or a reclaim found it expired. Once finished it is never leased again. */
  lemma {:induction false} LeaseExcludes(db: Db, ops: seq<Op>, j: Id, w: WorkerId, until: Instant)
    requires QueueInv(db) && j < db.minted && HeldOrSettled(db.jobs, j, w, until)
    requires forall i :: 0 <= i < |ops| ==> !EndsLease(ops[i], j, w, until)
    ensures Leases(db, ops, j) == 0 && HeldOrSettled(Run(db, ops).jobs, j, w, until)
    ensures j in Run(db, ops).jobs && (forall i :: 0 <= i < |ops| ==> !(ops[i].OpSucceed? && ops[i].id == j && ops[i].worker == w))
            ==> j in db.jobs && Run(db, ops).jobs[j] == db.jobs[j]
    decreases |ops|
  {
    if ops != [] {
      HoldStep(db, ops[0], j, w, until);
      QueueStep(db, ops[0]);
      MintedNeverFalls(db, ops[0]);
      LeaseExcludes(Next(db, ops[0]), ops[1..], j, w, until);
    }
  }

  /** An erasure that takes the job with it. */
  predicate Erases(op: Op, job: Job) { op.OpForget? && op.scope == job.scope && JobNames(job, op.ids) }

  /** Nothing but such an erasure removes the row of a job under way. */
  lemma RunningStays(db: Db, op: Op, j: Id)
    requires j < db.minted && j in db.jobs && db.jobs[j].state.Running? && !Erases(op, db.jobs[j])
    ensures j in Next(db, op).jobs
  {
    match op
    case OpAppend(cmd) => if cmd.Valid() { AppendRow(db, cmd, j); }
    case OpApplyExtraction(cmd) => ExtractionTouches(db, cmd);
    case OpForget(_, _) =>
    case OpPurge(_) =>
    case OpEnqueue(_, _) =>
    case OpRetry(id, now) => RetryRow(db, id, now, j);
    case OpPutEncoding(_, _, _, _) =>
    case OpDropEncodings =>
    case _ => RowStep(db, op, j);
  }

  /** Operations that leave a lease in place: the holder neither fails nor finishes the job, no
      reclaim comes after the lease ends, and no erasure takes the job. */
  predicate Spares(op: Op, j: Id, job: Job, w: WorkerId, until: Instant) {
    !EndsLease(op, j, w, until) && !(op.OpSucceed? && op.id == j && op.worker == w) && !Erases(op, job)
  }

  /** If a held job is not failed by its holder, reclaimed late or erased, then nobody else
      gets it, its row stands as leased, and the holder's first report of success is accepted. */
  lemma {:induction false} HolderSucceeds(db: Db, ops: seq<Op>, j: Id, w: WorkerId, until: Instant, at: Instant)
    requires QueueInv(db) && j in db.jobs && db.jobs[j].HeldBy(w) && db.jobs[j].leasedUntil == Some(until)
    requires forall i :: 0 <= i < |ops| ==> Spares(ops[i], j, db.jobs[j], w, until)
    ensures Leases(db, ops, j) == 0
    ensures j in Run(db, ops).jobs && Run(db, ops).jobs[j] == db.jobs[j]
    ensures Succeed(Run(db, ops), j, w, at).Ok?
    decreases |ops|
  {
    if ops != [] {
      HoldStep(db, ops[0], j, w, until);
      RunningStays(db, ops[0], j);
      QueueStep(db, ops[0]);
      HolderSucceeds(Next(db, ops[0]), ops[1..], j, w, until, at);
    }
  }

  /** And a lease makes its worker the holder, for as long as it asked or for five minutes. */
  lemma LeaseHolds(db: Db, req: LeaseRequest, locked: set<Id>, j: Id)
    requires QueueInv(db) && j in Claimed(db.jobs, req, locked)
    ensures var leased := Lease(db, req, locked);
      && QueueInv(leased) && j < leased.minted && j in leased.jobs
      && leased.jobs[j] == db.jobs[j].(state := Running, attempts := db.jobs[j].attempts + 1, leasedBy := Some(req.worker),
           leasedUntil := Some(req.now + if req.duration == 0 then 300 else req.duration), updatedAt := req.now)
  {
    hide Claimed, Lease, JobsInv;
    LeaseKeepsJobs(db, req, locked);
    LeaseRow(db, req, locked, j);
    ClaimedExists(db, req, locked, j);
  }

  lemma ClaimedExists(db: Db, req: LeaseRequest, locked: set<Id>, j: Id)
    requires QueueInv(db) && j in Claimed(db.jobs, req, locked)
    ensures j in db.jobs && j < Lease(db, req, locked).minted
  {}

  /** So a worker that leased a job can report it done however long it takes, provided that no
      reclaim comes after the end of the lease it asked for, it has not reported already, and no
      erasure takes the job: until then nobody else gets the job and its row stands as leased. */
  lemma ClaimerSucceeds(db: Db, req: LeaseRequest, locked: set<Id>, ops: seq<Op>, j: Id, at: Instant)
    requires QueueInv(db) && j in Claimed(db.jobs, req, locked)
    requires forall i :: 0 <= i < |ops| ==> LeavesToHolder(ops[i], j, db.jobs[j], req)
    ensures var leased := Lease(db, req, locked);
      && Leases(leased, ops, j) == 0
      && j in leased.jobs && j in Run(leased, ops).jobs && Run(leased, ops).jobs[j] == leased.jobs[j]
      && Succeed(Run(leased, ops), j, req.worker, at).Ok?
  {
    hide QueueInv, Claimed, Lease, Run, Next, Spares, LeavesToHolder, Leases, Succeed;
    LeaseHolds(db, req, locked, j);
    var leased := Lease(db, req, locked);
    var until := req.now + if req.duration == 0 then 300 else req.duration;
    ClaimedExists(db, req, locked, j);
    forall i | 0 <= i < |ops| ensures Spares(ops[i], j, leased.jobs[j], req.worker, until) { LeftIsSpared(ops[i], j, db.jobs[j], leased.jobs[j], req); }
    HolderSucceeds(leased, ops, j, req.worker, until, at);
  }

  /** Neither a report by the worker of this lease, nor a reclaim after it ends, nor an erasure of
      an episode of the job. */
  ghost predicate LeavesToHolder(op: Op, j: Id, job: Job, req: LeaseRequest) {
    match op
    case OpFail(id, w, _, _) => id != j || w != req.worker
    case OpSucceed(id, w, _) => id != j || w != req.worker
    case OpReclaim(now) => now <= req.now + if req.duration == 0 then 300 else req.duration
    case OpForget(scope, ids) => scope != job.scope || (ids != [] && forall e :: e in job.episodes ==> e !in ids)
    case _ => true
  }

  lemma LeftIsSpared(op: Op, j: Id, job: Job, leased: Job, req: LeaseRequest)
    requires LeavesToHolder(op, j, job, req) && leased.scope == job.scope && leased.episodes == job.episodes
    ensures Spares(op, j, leased, req.worker, req.now + if req.duration == 0 then 300 else req.duration)
  {}

  /** Fencing is by worker id alone: when the same id leases a job again, a report left over
      from its first lease is accepted although the second attempt is still under way. */
  lemma StaleReportAccepted(db: Db, req: LeaseRequest, locked: set<Id>, late: Instant, again: LeaseRequest, j: Id, at: Instant)
    requires QueueInv(db) && j in Claimed(db.jobs, req, locked)
    requires late > LeaseEnd(req) && again.worker == req.worker
    requires j in Claimed(Reclaim(Lease(db, req, locked), late).jobs, again, {})
    ensures var second := Lease(Reclaim(Lease(db, req, locked), late), again, {});
      second.jobs[j].attempts == db.jobs[j].attempts + 2 && Succeed(second, j, req.worker, at).Ok?
  {
    hide Claimed, QueueInv, Lease, Reclaim;
    LeaseHolds(db, req, locked, j);
    var first := Lease(db, req, locked);
    QueueStep(first, OpReclaim(late));
    ReclaimRow(first, late, j);
    LeaseHolds(Reclaim(first, late), again, {}, j);
  }

  /** One job, leased by one worker id, expired, and leased by that id again. */
  lemma StaleReportHappens(scope: ScopeId, w: WorkerId)
    ensures var job := FreshJob(Encode, scope, [0], None, 0, 0);
      var db := EMPTY.(jobs := map[1 := job], minted := 2);
      var (req, again) := (LeaseRequest({}, w, 1, 10, 0), LeaseRequest({}, w, 1, 10, 20));
      && QueueInv(db) && 1 in Claimed(db.jobs, req, {})
      && 1 in Claimed(Reclaim(Lease(db, req, {}), 20).jobs, again, {})
      && Succeed(Lease(Reclaim(Lease(db, req, {}), 20), again, {}), 1, w, 21).Ok?
  {
    var db := EMPTY.(jobs := map[1 := FreshJob(Encode, scope, [0], None, 0, 0)], minted := 2);
    var (req, again) := (LeaseRequest({}, w, 1, 10, 0), LeaseRequest({}, w, 1, 10, 20));
    OnlyCandidate(db.jobs, req, 1);
    LeaseRow(db, req, {}, 1);
    var late := Reclaim(Lease(db, req, {}), 20);
    assert late.jobs.Keys == {1};
    OnlyCandidate(late.jobs, again, 1);
    StaleReportAccepted(db, req, {}, 20, again, 1, 21);
  }

  /** The only row of the queue is claimed if it can be. */
  lemma OnlyCandidate(jobs: map<Id, Job>, req: LeaseRequest, j: Id)
    requires jobs.Keys == {j} && Claimable(jobs[j], req)
    ensures Claimed(jobs, req, {}) == {j}
  {
    var cs := Candidates(jobs, req, {});
    assert cs == {j} && Ahead(jobs, cs, j) == {};
  }

  // ---- Order of claims ------------------------------------------------------

  /** A lease never passes over a candidate for one that is behind it in the queue. */
  lemma LeaseTakesOldestFirst(jobs: map<Id, Job>, req: LeaseRequest, locked: set<Id>, i: Id, j: Id)
    requires j in Claimed(jobs, req, locked) && i in Candidates(jobs, req, locked) && Before(jobs, i, j)
    ensures i in Claimed(jobs, req, locked)
  {
    var cs := Candidates(jobs, req, locked);
    assert Ahead(jobs, cs, i) <= Ahead(jobs, cs, j);
    Sets.SubsetSize(Ahead(jobs, cs, i), Ahead(jobs, cs, j));
  }

  function FirstOf(jobs: map<Id, Job>, cs: set<Id>, limit: nat): set<Id>
    requires cs <= jobs.Keys
  {
    set j | j in cs && |Ahead(jobs, cs, j)| < limit
  }

  lemma {:induction false} LastInQueue(jobs: map<Id, Job>, cs: set<Id>) returns (last: Id)
    requires cs != {} && cs <= jobs.Keys
    ensures last in cs && forall i :: i in cs && i != last ==> Before(jobs, i, last)
  {
    last :| last in cs;
    if cs != {last} {
      var one := last;
      var other := LastInQueue(jobs, cs - {one});
      if Before(jobs, one, other) { last := other; }
      forall i | i in cs && i != last ensures Before(jobs, i, last) { assert i == one || i in cs - {one}; }
    }
  }

  /** However the candidates are ordered, exactly as many are first as the limit allows. */
  lemma {:induction false} FirstOfSize(jobs: map<Id, Job>, cs: set<Id>, limit: nat)
    requires cs <= jobs.Keys
    ensures |FirstOf(jobs, cs, limit)| == if |cs| < limit then |cs| else limit
    decreases |cs|
  {
    if cs == {} {
      assert FirstOf(jobs, cs, limit) == {};
    } else {
      var last := LastInQueue(jobs, cs);
      var rest := cs - {last};
      FirstOfSize(jobs, rest, limit);
      assert Ahead(jobs, cs, last) == rest;
      forall j | j in rest ensures Ahead(jobs, cs, j) == Ahead(jobs, rest, j) { assert !Before(jobs, last, j); }
      var first := FirstOf(jobs, rest, limit);
      assert FirstOf(jobs, cs, limit) == if |rest| < limit then first + {last} else first;
    }
  }

  /** A lease takes as many candidates as its limit and no more, and misses none below it. */
  lemma LeaseFillsItsLimit(jobs: map<Id, Job>, req: LeaseRequest, locked: set<Id>)
    ensures |Claimed(jobs, req, locked)| ==
      if |Candidates(jobs, req, locked)| < LeaseLimit(req) then |Candidates(jobs, req, locked)| else LeaseLimit(req)
  {
    var cs := Candidates(jobs, req, locked);
    FirstOfSize(jobs, cs, LeaseLimit(req));
    assert FirstOf(jobs, cs, LeaseLimit(req)) == Claimed(jobs, req, locked);
  }

  /** A row is due: it waits, its time has come, it has an attempt left and is of a kind asked for. */
  predicate Due(job: Job, req: LeaseRequest) {
    && job.state == Pending && req.now >= job.runAfter && job.maxAttempts - job.attempts >= 1
    && (job.kind in req.kinds || |req.kinds| == 0)
  }

  /** Of the rows that are due and that nobody has locked, as many as asked for, one if no number
      was, and none of them behind one that is left. */
  ghost predicate Claims(jobs: map<Id, Job>, req: LeaseRequest, locked: set<Id>, claimed: set<Id>) {
    && (forall j :: j in claimed ==> j in jobs && j !in locked && Due(jobs[j], req))
    && |claimed| <= (if req.limit == 0 then 1 else req.limit)
    && forall i :: i in jobs && i !in locked && Due(jobs[i], req) && i !in claimed ==>
         && |claimed| == (if req.limit == 0 then 1 else req.limit)
         && forall j :: j in claimed ==> jobs[j].runAfter < jobs[i].runAfter || (jobs[j].runAfter == jobs[i].runAfter && j < i)
  }

  lemma ClaimedClaims(jobs: map<Id, Job>, req: LeaseRequest, locked: set<Id>)
    ensures Claims(jobs, req, locked, Claimed(jobs, req, locked))
  {
    var cs, claimed := Candidates(jobs, req, locked), Claimed(jobs, req, locked);
    LeaseFillsItsLimit(jobs, req, locked);
    ClaimedAreCandidates(jobs, req, locked);
    hide Claimed, Candidates, Due;
    forall i, j | i in cs && i !in claimed && j in claimed
      ensures jobs[j].runAfter < jobs[i].runAfter || (jobs[j].runAfter == jobs[i].runAfter && j < i)
    {
      if Before(jobs, i, j) { LeaseTakesOldestFirst(jobs, req, locked, i, j); }
    }
    if |claimed| < LeaseLimit(req) { Sets.SubsetSize(claimed, cs); }
  }

  lemma ClaimedAreCandidates(jobs: map<Id, Job>, req: LeaseRequest, locked: set<Id>)
    ensures Claimed(jobs, req, locked) <= Candidates(jobs, req, locked) <= jobs.Keys
    ensures forall j :: j in Candidates(jobs, req, locked) <==> j in jobs && j !in locked && Due(jobs[j], req)
  {
    assert |req.kinds| == 0 ==> req.kinds == {};
  }

  // ---- Order of pruning -----------------------------------------------------

  function OldestOf(cs: set<Id>, limit: nat): set<Id> { set j | j in cs && |Older(cs, j)| < limit }

  lemma {:induction false} NewestOf(cs: set<Id>) returns (last: Id)
    requires cs != {}
    ensures last in cs && forall i :: i in cs ==> i <= last
  {
    last :| last in cs;
    if cs != {last} {
      var one := last;
      var other := NewestOf(cs - {one});
      last := if one < other then other else one;
      forall i | i in cs ensures i <= last { assert i == one || i in cs - {one}; }
    }
  }

  lemma {:induction false} OldestOfSize(cs: set<Id>, limit: nat)
    ensures |OldestOf(cs, limit)| == if |cs| < limit then |cs| else limit
    decreases |cs|
  {
    if cs == {} {
      assert OldestOf(cs, limit) == {};
    } else {
      var last := NewestOf(cs);
      var rest := cs - {last};
      OldestOfSize(rest, limit);
      assert Older(cs, last) == rest;
      forall j | j in rest ensures Older(cs, j) == Older(rest, j) {}
      assert OldestOf(cs, limit) == if |rest| < limit then OldestOf(rest, limit) + {last} else OldestOf(rest, limit);
    }
  }

  /** A row may be pruned: it is in one of the states asked for, or finished if none was, and
      changed last before the horizon. */
  predicate Prunable(job: Job, req: PurgeRequest) {
    && (job.state in req.states || (|req.states| == 0 && (job.state == Done || job.state == Dead)))
    && req.before > job.updatedAt
  }

  /** Of the rows that may be pruned as many as asked for, a thousand if no number was, and none of
      them younger than one that is left. */
  ghost predicate Prunes(jobs: map<Id, Job>, req: PurgeRequest, gone: set<Id>) {
    && (forall j :: j in gone ==> j in jobs && Prunable(jobs[j], req))
    && |gone| <= (if req.limit == 0 then 1000 else req.limit)
    && forall i :: i in jobs && Prunable(jobs[i], req) && i !in gone ==>
         |gone| == (if req.limit == 0 then 1000 else req.limit) && forall j :: j in gone ==> j < i
  }

  lemma PurgedPrunes(jobs: map<Id, Job>, req: PurgeRequest)
    ensures Prunes(jobs, req, Purged(jobs, req))
  {
    var cs, gone := PurgeableRows(jobs, req), Purged(jobs, req);
    var limit := if req.limit == 0 then 1000 else req.limit;
    OldestOfSize(cs, limit);
    assert gone == OldestOf(cs, limit);
    PurgedArePurgeable(jobs, req);
    hide PurgeableRows, Purged, Prunable;
    forall i, j | i in cs && i !in gone && j in gone ensures j < i {
      if i < j {
        assert Older(cs, i) <= Older(cs, j);
        Sets.SubsetSize(Older(cs, i), Older(cs, j));
      }
    }
    if |gone| < limit { Sets.SubsetSize(gone, cs); }
  }

  lemma PurgedArePurgeable(jobs: map<Id, Job>, req: PurgeRequest)
    ensures Purged(jobs, req) <= PurgeableRows(jobs, req) <= jobs.Keys
    ensures forall j :: j in PurgeableRows(jobs, req) <==> j in jobs && Prunable(jobs[j], req)
  {
    assert |req.states| == 0 ==> req.states == {};
  }
}
