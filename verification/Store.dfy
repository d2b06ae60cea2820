/** The store as the object a deployment holds: one field per table, each method one
    statement or one transaction, proved against the functions of `Tables`. */
module Store {
  import opened Model
  import T = Tables
  import opened FactAlgebra
  import opened Invariants
  import B = Births
  import Q = QueueHistories

  /** What an erasure destroyed, table by table. */
  datatype ForgetResult = ForgetResult(
    facts: nat, extractions: nat, encodings: nat, jobs: nat, episodes: nat, scopeRemoved: bool)

  /** The tables an erasure visits, in the order it visits them. */
  datatype ErasureStep = OfFacts | OfMarkers | OfEncodings | OfJobs | OfEpisodes

  const ERASURE_STEPS: seq<ErasureStep> := [OfFacts, OfMarkers, OfEncodings, OfJobs, OfEpisodes]

  /** Which projection a kind of work fills: encodings of a model, or markers of an extractor. */
  datatype Target = EncodeFor(model: ModelId) | ExtractFor(extractor: ExtractorId) {
    function Kind(): JobKind { if EncodeFor? then Encode else Extract }
  }

  /** An episode past `after` that the projection does not cover. */
  predicate Lacks(db: T.Db, t: Target, scope: ScopeId, after: nat, e: Id) {
    && e in db.episodes && db.episodes[e].scope == scope && db.episodes[e].seqNo > after
    && (match t
        case EncodeFor(m) => (e, m) !in db.encodings
        case ExtractFor(x) => (e, x) !in db.markers)
  }

  /** The first rows of a scope's pending episodes in Seq order: nothing is passed over. */
  ghost predicate FirstPending(db: T.Db, t: Target, scope: ScopeId, after: nat, limit: nat, ids: seq<Id>) {
    && |ids| <= limit
    && (forall i :: 0 <= i < |ids| ==> Lacks(db, t, scope, after, ids[i]))
    && (forall i, j :: 0 <= i < j < |ids| ==> db.episodes[ids[i]].seqNo < db.episodes[ids[j]].seqNo)
    && (forall e :: Lacks(db, t, scope, after, e) && e !in ids ==>
          |ids| == limit && forall i :: 0 <= i < |ids| ==> db.episodes[ids[i]].seqNo < db.episodes[e].seqNo)
  }

  /** The first of some episodes in sequence order, as many as the limit allows: nothing is passed over. */
  ghost predicate FirstInOrder(episodes: map<Id, Episode>, rows: set<Id>, limit: nat, ids: seq<Id>)
    requires rows <= episodes.Keys
  {
    && |ids| <= limit && (forall i :: 0 <= i < |ids| ==> ids[i] in rows)
    && (forall i, j :: 0 <= i < j < |ids| ==> episodes[ids[i]].seqNo < episodes[ids[j]].seqNo)
    && (forall e :: e in rows && e !in ids ==>
          |ids| == limit && forall i :: 0 <= i < |ids| ==> episodes[ids[i]].seqNo < episodes[e].seqNo)
  }

  /** Minted ids and consecutive sequence numbers, in the order of the command. */
  ghost predicate RowsReturned(out: seq<Episode>, cmd: AppendCommand, first: Id, base: nat)
    requires cmd.episodes != []
  {
    |out| == |cmd.episodes| && forall i :: 0 <= i < |out| ==>
      out[i] == Episode(first + i, cmd.episodes[0].scope, base + 1 + i, cmd.episodes[i].body, cmd.episodes[i].ingestedAt)
  }

  /** A fact of the command's scope and extractor that names one of its episodes. */
  predicate SupportedBy(f: Fact, cmd: ExtractCommand) {
    f.scope == cmd.scope && f.extractor == cmd.extractor && exists e :: e in f.episodes && e in cmd.episodes
  }

  /** The job is waiting or under way, and is exactly this work. */
  predicate OutstandingFor(job: Job, kind: JobKind, scope: ScopeId, episodes: seq<Id>) {
    (job.state.Pending? || job.state.Running?) && job.kind == kind && job.scope == scope && job.episodes == episodes
  }

  /** The jobs an append added: for each kind asked, unless one names the whole batch already,
      one that does, to run when asked or at once, five times at most if no other number was. */
  ghost predicate JobsAdded(jobs: map<Id, Job>, added: map<Id, Job>, first: Id, scope: ScopeId, ids: seq<Id>, specs: seq<JobSpec>, at: Instant) {
    && (forall j :: j in added ==> first <= j < first + |specs|)
    && (forall k :: 0 <= k < |specs| ==> JobAdded(jobs, added, first + k, scope, ids, specs[k], at))
  }

  ghost predicate JobAdded(jobs: map<Id, Job>, added: map<Id, Job>, id: Id, scope: ScopeId, ids: seq<Id>, spec: JobSpec, at: Instant) {
    && (id !in added <==> exists j :: j in jobs && OutstandingFor(jobs[j], spec.kind, scope, ids))
    && (id in added ==>
          added[id] == Job(spec.kind, scope, ids, JobState.Pending, 0, if spec.maxAttempts == 0 then 5 else spec.maxAttempts,
                           if spec.runAfter == None then at else spec.runAfter.value, None, None, at, at))
  }

  /** What is in flight for one kind more was before the append. */
  lemma FlightIsOlder(jobs: map<Id, Job>, added: map<Id, Job>, first: Id, scope: ScopeId, ids: seq<Id>, specs: seq<JobSpec>, at: Instant, kind: JobKind)
    requires JobsAdded(jobs, added, first, scope, ids, specs, at)
    requires (forall j :: j in jobs ==> j < first) && (forall k :: 0 <= k < |specs| ==> specs[k].kind != kind)
    ensures T.InFlight(jobs + added, kind, scope, ids) <==> exists j :: j in jobs && OutstandingFor(jobs[j], kind, scope, ids)
  {
    var rows := jobs + added;
    forall j | j in added ensures added[j].kind == specs[j - first].kind {
      assert JobAdded(jobs, added, first + (j - first), scope, ids, specs[j - first], at);
    }
    if T.InFlight(rows, kind, scope, ids) {
      var j :| j in rows && rows[j].Outstanding() && rows[j].SameWork(kind, scope, ids);
      assert j in jobs;
    }
    if j :| j in jobs && OutstandingFor(jobs[j], kind, scope, ids) { assert j !in added && rows[j] == jobs[j]; }
  }

  lemma OneMoreAdded(jobs: map<Id, Job>, added: map<Id, Job>, first: Id, scope: ScopeId, ids: seq<Id>, specs: seq<JobSpec>, at: Instant, n: nat)
    requires n < |specs| && JobsAdded(jobs, added, first, scope, ids, specs[..n], at)
    requires (forall j :: j in jobs ==> j < first) && (forall k :: 0 <= k < n ==> specs[k].kind != specs[n].kind)
    ensures var job := T.FreshJob(specs[n].kind, scope, ids, specs[n].runAfter, specs[n].maxAttempts, at);
      JobsAdded(jobs, if T.InFlight(jobs + added, job.kind, scope, ids) then added else added[first + n := job], first, scope, ids, specs[..n + 1], at)
  {
    FlightIsOlder(jobs, added, first, scope, ids, specs[..n], at, specs[n].kind);
    var job := T.FreshJob(specs[n].kind, scope, ids, specs[n].runAfter, specs[n].maxAttempts, at);
    var added' := if T.InFlight(jobs + added, job.kind, scope, ids) then added else added[first + n := job];
    hide T.InFlight;
    forall k | 0 <= k <= n ensures JobAdded(jobs, added', first + k, scope, ids, specs[k], at) {
      if k < n { assert JobAdded(jobs, added, first + k, scope, ids, specs[..n][k], at); }
    }
  }

  /** What a reclaim makes of a row. */
  predicate ReleasedRow(was: Job, job: Job, now: Instant) {
    if was.state.Running? && was.leasedUntil.Some? && was.leasedUntil.value < now then
      && job.leasedUntil == None && job.leasedBy == None && job.updatedAt == now
      && job.state == (if was.attempts < was.maxAttempts then JobState.Pending else Dead)
      && job.(state := was.state, leasedUntil := was.leasedUntil, leasedBy := was.leasedBy, updatedAt := was.updatedAt) == was
    else job == was
  }

  /** What an append recorded: its episodes in order, and the jobs enqueued beside them. */
  datatype AppendResult = AppendResult(episodes: seq<Episode>, jobs: map<Id, Job>)

  class Store {
    var scopes: map<ScopeId, nat>
    var episodes: map<Id, Episode>
    var encodings: map<(Id, ModelId), Encoding>
    var markers: map<(Id, ExtractorId), Marker>
    var facts: map<Id, Fact>
    var jobs: map<Id, Job>
    var minted: nat

    function Db(): T.Db
      reads this
    {
      T.Db(scopes, episodes, encodings, markers, facts, jobs, minted)
    }

    constructor ()
      ensures Db() == T.EMPTY
    {
      scopes, episodes, encodings, markers, facts, jobs, minted := map[], map[], map[], map[], map[], map[], 0;
    }

    // ---- L0 -----------------------------------------------------------------

    /** Rows come back in the order the caller gave, each as the table holds it, with the jobs
        that were not there before. */
    method Append(cmd: AppendCommand) returns (r: Result<AppendResult>)
      modifies this
      ensures Db() == T.Kept(old(Db()), T.Append(old(Db()), cmd))
      ensures r.Ok? <==> cmd.Valid()
      ensures r.Ok? ==> RowsReturned(r.value.episodes, cmd, old(minted), T.LastSeq(old(Db()), cmd.episodes[0].scope))
      ensures r.Ok? && (forall j :: j in old(jobs) ==> j < old(minted)) ==> r.value.jobs == jobs - old(jobs).Keys
      ensures r.Ok? && (forall j :: j in old(jobs) ==> j < old(minted)) ==>
        JobsAdded(old(jobs), r.value.jobs, old(minted) + |cmd.episodes|, cmd.episodes[0].scope, T.MintedIds(old(minted), |cmd.episodes|),
                  cmd.jobs, cmd.episodes[0].ingestedAt)
    {
      hide RowsReturned, T.NewRows, T.WithBatchJobs, T.MintedIds, JobsAdded, T.Append, T.Kept;
      if !cmd.Valid() {
        AppendRefused(Db(), cmd);
        return Err(InvalidConfig);
      }
      var scope, n, first := cmd.episodes[0].scope, |cmd.episodes|, minted;
      var base := if scope in scopes then scopes[scope] else 0;
      scopes := scopes[scope := base + n];
      var out := InsertEpisodes(cmd, first, base);
      var added := InsertJobs(first + n, scope, T.MintedIds(first, n), cmd.jobs, cmd.episodes[0].ingestedAt);
      minted := first + n + |cmd.jobs|;
      AppendIs(old(Db()), cmd, Db());
      return Ok(AppendResult(out, added));
    }

    method InsertEpisodes(cmd: AppendCommand, first: Id, base: nat) returns (out: seq<Episode>)
      requires cmd.Valid()
      modifies this`episodes
      ensures episodes == old(episodes) + T.NewRows(first, base, cmd.episodes)
      ensures RowsReturned(out, cmd, first, base)
    {
      out := [];
      for i := 0 to |cmd.episodes|
        invariant episodes == old(episodes) + T.NewRows(first, base, cmd.episodes[..i])
        invariant |out| == i && forall k :: 0 <= k < i ==>
          out[k] == Episode(first + k, cmd.episodes[0].scope, base + 1 + k, cmd.episodes[k].body, cmd.episodes[k].ingestedAt)
      {
        var row := Episode(first + i, cmd.episodes[i].scope, base + 1 + i, cmd.episodes[i].body, cmd.episodes[i].ingestedAt);
        NewRowsGrow(old(episodes), first, base, cmd.episodes, i);
        episodes := episodes[first + i := row];
        out := out + [row];
      }
      assert cmd.episodes[..|cmd.episodes|] == cmd.episodes;
    }

    method InsertJobs(first: Id, scope: ScopeId, ids: seq<Id>, specs: seq<JobSpec>, at: Instant) returns (added: map<Id, Job>)
      requires forall i, j :: 0 <= i < j < |specs| ==> specs[i].kind != specs[j].kind
      modifies this`jobs
      ensures jobs == T.WithBatchJobs(old(jobs), first, scope, ids, specs, at)
      ensures (forall j :: j in old(jobs) ==> j < first) ==>
        added == jobs - old(jobs).Keys && JobsAdded(old(jobs), added, first, scope, ids, specs, at)
    {
      hide JobsAdded, T.InFlight;
      added := map[];
      NoneAdded(jobs, first, scope, ids, specs, at);
      for i := 0 to |specs|
        invariant jobs == T.WithBatchJobs(old(jobs), first, scope, ids, specs[..i], at)
        invariant (forall j :: j in old(jobs) ==> j < first) ==>
          && JobsAdded(old(jobs), added, first, scope, ids, specs[..i], at)
          && jobs == old(jobs) + added && added.Keys !! old(jobs).Keys && forall j :: j in jobs ==> j < first + i
      {
        assert specs[..i + 1][..i] == specs[..i];
        var job := T.FreshJob(specs[i].kind, scope, ids, specs[i].runAfter, specs[i].maxAttempts, at);
        if forall j :: j in old(jobs) ==> j < first { OneMoreAdded(old(jobs), added, first, scope, ids, specs, at, i); }
        if !T.InFlight(jobs, job.kind, job.scope, job.episodes) {
          jobs := jobs[first + i := job];
          added := added[first + i := job];
        }
      }
      assert specs[..|specs|] == specs;
    }

    // ---- Queue --------------------------------------------------------------

    /** The job returned is outstanding and names exactly this work, whether new or found. */
    method Enqueue(job: NewJob, now: Instant) returns (r: Result<Id>)
      modifies this
      ensures Db() == T.Kept(old(Db()), T.Enqueue(old(Db()), job, now))
      ensures r.Ok? <==> job.episodes != [] && job.scope in old(scopes)
      ensures r.Err? ==> r.error == if job.episodes == [] then InvalidConfig else NotFound
      ensures r.Ok? ==> r.value in jobs && OutstandingFor(jobs[r.value], job.kind, job.scope, job.episodes)
      ensures r.Ok? && (exists j :: j in old(jobs) && OutstandingFor(old(jobs)[j], job.kind, job.scope, job.episodes)) ==>
        r.value in old(jobs) && jobs == old(jobs)
      ensures r.Ok? && !(exists j :: j in old(jobs) && OutstandingFor(old(jobs)[j], job.kind, job.scope, job.episodes)) ==>
        r.value == old(minted) && jobs == old(jobs)[r.value :=
          Job(job.kind, job.scope, job.episodes, JobState.Pending, 0, if job.maxAttempts == 0 then 5 else job.maxAttempts,
              if job.runAfter == None then now else job.runAfter.value, None, None, now, now)]
    {
      if job.episodes == [] { return Err(InvalidConfig); }
      if job.scope !in scopes { return Err(NotFound); }
      minted := minted + 1;
      if T.InFlight(jobs, job.kind, job.scope, job.episodes) {
        var j :| j in jobs && jobs[j].Outstanding() && jobs[j].SameWork(job.kind, job.scope, job.episodes);
        return Ok(j);
      }
      var id := minted - 1;
      jobs := jobs[id := T.FreshJob(job.kind, job.scope, job.episodes, job.runAfter, job.maxAttempts, now)];
      return Ok(id);
    }

    /** Every claimed row comes back as it now stands. */
    method Lease(req: LeaseRequest, locked: set<Id>) returns (claimed: map<Id, Job>)
      modifies this`jobs
      ensures Db() == T.Lease(old(Db()), req, locked)
      ensures claimed.Keys == T.Claimed(old(jobs), req, locked) && Q.Claims(old(jobs), req, locked, claimed.Keys)
      ensures jobs.Keys == old(jobs).Keys && forall j :: j in jobs && j !in claimed ==> jobs[j] == old(jobs)[j]
      ensures forall j :: j in claimed ==> j in jobs && claimed[j] == jobs[j] && jobs[j].HeldBy(req.worker)
      ensures forall j :: j in claimed ==> jobs[j] == old(jobs)[j].(
        state := JobState.Running, attempts := old(jobs)[j].attempts + 1, leasedBy := Some(req.worker),
        leasedUntil := Some(req.now + if req.duration == 0 then 300 else req.duration), updatedAt := req.now)
    {
      Q.ClaimedClaims(jobs, req, locked);
      Q.ClaimedAreCandidates(jobs, req, locked);
      hide Q.Claims, T.Claimed, T.Candidates;
      var ids := T.Claimed(jobs, req, locked);
      jobs := map j | j in jobs :: if j in ids then T.Leased(jobs[j], req) else jobs[j];
      claimed := map j | j in jobs && j in ids :: jobs[j];
    }

    method Succeed(id: Id, worker: WorkerId, at: Instant) returns (r: Result<()>)
      modifies this`jobs
      ensures Db() == T.Kept(old(Db()), T.Succeed(old(Db()), id, worker, at))
      ensures r.Ok? <==> id in old(jobs) && old(jobs)[id].HeldBy(worker)
      ensures r.Ok? ==> jobs == old(jobs)[id := old(jobs)[id].(state := Done, leasedUntil := None, leasedBy := None, updatedAt := at)]
      ensures r.Err? ==> Db() == old(Db()) && r.error == if id in old(jobs) then JobNotLeased else NotFound
    {
      if id in jobs && jobs[id].HeldBy(worker) {
        jobs := jobs[id := jobs[id].(state := Done, leasedUntil := None, leasedBy := None, updatedAt := at)];
        return Ok(());
      }
      return Err(if id in jobs then JobNotLeased else NotFound);
    }

    method Fail(id: Id, worker: WorkerId, at: Instant, retryAt: Instant) returns (r: Result<()>)
      modifies this`jobs
      ensures Db() == T.Kept(old(Db()), T.Fail(old(Db()), id, worker, at, retryAt))
      ensures r.Ok? <==> id in old(jobs) && old(jobs)[id].HeldBy(worker)
      ensures r.Ok? && old(jobs)[id].attempts >= old(jobs)[id].maxAttempts ==>
        jobs == old(jobs)[id := old(jobs)[id].(state := Dead, leasedUntil := None, leasedBy := None, updatedAt := at)]
      ensures r.Ok? && old(jobs)[id].attempts < old(jobs)[id].maxAttempts ==>
        jobs == old(jobs)[id := old(jobs)[id].(
          state := JobState.Pending, runAfter := retryAt, leasedUntil := None, leasedBy := None, updatedAt := at)]
      ensures r.Err? ==> Db() == old(Db()) && r.error == if id in old(jobs) then JobNotLeased else NotFound
    {
      if id in jobs && jobs[id].HeldBy(worker) {
        var job := jobs[id].(leasedUntil := None, leasedBy := None, updatedAt := at);
        if job.attempts >= job.maxAttempts {
          job := job.(state := Dead);
        } else {
          job := job.(state := JobState.Pending, runAfter := retryAt);
        }
        jobs := jobs[id := job];
        return Ok(());
      }
      return Err(if id in jobs then JobNotLeased else NotFound);
    }

    /** Releases every job whose lease ran out before `now`, to wait again or, its attempts
        spent, to die; no other row moves. Says how many it released. */
    method Reclaim(now: Instant) returns (released: nat)
      modifies this`jobs
      ensures Db() == T.Reclaim(old(Db()), now) && jobs.Keys == old(jobs).Keys
      ensures forall j :: j in jobs ==> ReleasedRow(old(jobs)[j], jobs[j], now)
      ensures released ==
        |set j | j in old(jobs) && old(jobs)[j].state.Running? && old(jobs)[j].leasedUntil.Some? && old(jobs)[j].leasedUntil.value < now|
    {
      var expired := set j | j in jobs && T.Expired(jobs[j], now);
      jobs := map j | j in jobs :: if j in expired then T.Released(jobs[j], now, None) else jobs[j];
      released := |expired|;
      assert expired == set j | j in old(jobs) && old(jobs)[j].state.Running? && old(jobs)[j].leasedUntil.Some? && old(jobs)[j].leasedUntil.value < now;
    }

    /** The revived row comes back: its whole allowance again, claimable from `now`. */
    method Retry(id: Id, now: Instant) returns (r: Result<Job>)
      modifies this`jobs
      ensures Db() == T.Kept(old(Db()), T.Retry(old(Db()), id, now))
      ensures id !in old(jobs) ==> r == Err(NotFound)
      ensures id in old(jobs) && old(jobs)[id].state != Dead ==> r == Err(JobNotDead)
      ensures id in old(jobs) && old(jobs)[id].state == Dead ==>
        && (r.Err? ==> r.error == JobOutstanding)
        && (r.Err? <==> exists j :: j in old(jobs) && OutstandingFor(old(jobs)[j], old(jobs)[id].kind, old(jobs)[id].scope, old(jobs)[id].episodes))
      ensures r.Err? ==> Db() == old(Db())
      ensures r.Ok? ==> jobs == old(jobs)[id := r.value] && r.value == old(jobs)[id].(
        state := JobState.Pending, attempts := 0, runAfter := now, leasedUntil := None, leasedBy := None, updatedAt := now)
    {
      if id !in jobs { return Err(NotFound); }
      if jobs[id].state != Dead { return Err(JobNotDead); }
      if T.InFlight(jobs, jobs[id].kind, jobs[id].scope, jobs[id].episodes) { return Err(JobOutstanding); }
      var job := jobs[id].(state := JobState.Pending, attempts := 0, runAfter := now,
                           leasedUntil := None, leasedBy := None, updatedAt := now);
      jobs := jobs[id := job];
      return Ok(job);
    }

    method Purge(req: PurgeRequest) returns (r: Result<nat>)
      modifies this`jobs
      ensures Db() == T.Kept(old(Db()), T.Purge(old(Db()), req))
      ensures r.Ok? <==> forall state :: state in req.states ==> state == Done || state == Dead
      ensures r.Ok? ==> jobs.Keys <= old(jobs).Keys && r.value == |old(jobs).Keys - jobs.Keys|
      ensures r.Ok? ==> Q.Prunes(old(jobs), req, old(jobs).Keys - jobs.Keys) && forall j :: j in jobs ==> jobs[j] == old(jobs)[j]
      ensures r.Err? ==> Db() == old(Db()) && r.error == InvalidJobState
    {
      Q.PurgedPrunes(jobs, req);
      hide Q.Prunes;
      if !req.Valid() { return Err(InvalidJobState); }
      var gone := T.Purged(jobs, req);
      jobs := jobs - gone;
      assert old(jobs).Keys - jobs.Keys == gone;
      return Ok(|gone|);
    }

    // ---- Encodings ----------------------------------------------------------

    method PutEncoding(episode: Id, model: ModelId, vector: Vector, at: Instant) returns (r: Result<()>)
      modifies this`encodings
      ensures Db() == T.Kept(old(Db()), T.PutEncoding(old(Db()), episode, model, vector, at))
      ensures r.Ok? <==> episode in episodes
      ensures r.Ok? ==> encodings == old(encodings)[(episode, model) :=
        if (episode, model) in old(encodings) then old(encodings)[(episode, model)].(vector := vector, encodedAt := at)
        else Encoding(episodes[episode].scope, episodes[episode].ingestedAt, vector, at)]
      ensures r.Err? ==> Db() == old(Db()) && r.error == NotFound
    {
      if episode !in episodes { return Err(NotFound); }
      var row := Encoding(episodes[episode].scope, episodes[episode].ingestedAt, vector, at);
      if (episode, model) in encodings {
        row := encodings[(episode, model)].(vector := vector, encodedAt := at);
      }
      encodings := encodings[(episode, model) := row];
      return Ok(());
    }

    /** Pages the anti-join of L0 against one projection. */
    method PendingIds(t: Target, scope: ScopeId, after: nat, limit: nat) returns (ids: seq<Id>)
      requires LogInv(Db())
      ensures FirstPending(Db(), t, scope, after, limit, ids)
      ensures t.ExtractFor? ==>
        FirstInOrder(episodes, (set e | e in episodes && episodes[e].scope == scope && episodes[e].seqNo > after && (e, t.extractor) !in markers), limit, ids)
      ensures t.EncodeFor? ==>
        FirstInOrder(episodes, (set e | e in episodes && episodes[e].scope == scope && episodes[e].seqNo > after && (e, t.model) !in encodings), limit, ids)
    {
      var lacking := set e | e in episodes && Lacks(Db(), t, scope, after, e);
      LackingRows(Db(), t, scope, after, lacking);
      hide FirstInOrder, FirstPending, LogInv, Lacks;
      ids := InSeqOrder(lacking, limit);
      LackingInOrder(Db(), t, scope, after, limit, ids, lacking);
    }

    /** ORDER BY seq LIMIT limit. */
    method InSeqOrder(rows: set<Id>, limit: nat) returns (ids: seq<Id>)
      requires rows <= episodes.Keys && DistinctSeqs(episodes, rows)
      ensures FirstInOrder(episodes, rows, limit, ids)
    {
      var left := rows;
      ids := [];
      TakesNothing(episodes, rows);
      hide Ascending, DistinctSeqs;
      while left != {} && |ids| < limit
        invariant left <= rows && (forall e :: e in rows <==> e in left || e in ids)
        invariant Ascending(episodes, ids, left) && DistinctSeqs(episodes, left) && |ids| <= limit
        decreases left
      {
        EarliestExists(episodes, left);
        var e :| Earliest(episodes, left, e);
        TakesEarliest(episodes, ids, left, e);
        ids := ids + [e];
        left := left - {e};
      }
      AscendingMeans(episodes, ids, left);
    }

    // ---- Facts --------------------------------------------------------------

    static method DedupeAssertions(batch: seq<Assertion>) returns (r: Result<seq<Assertion>>)
      ensures r == T.Dedupe(batch)
    {
      var out: seq<Assertion> := [];
      var windows: map<Triple, seq<Validity>> := map[];
      for i := 0 to |batch|
        invariant T.Dedupe(batch[..i]) == Ok(out)
        invariant WindowsOf(windows, out)
      {
        assert batch[..i + 1][..i] == batch[..i] && batch[..i + 1][i] == batch[i];
        var a := batch[i];
        var seen := SeenOf(windows, a.triple);
        WindowsSay(windows, out, a);
        if a.valid in seen {
          continue;
        }
        for k := 0 to |seen|
          invariant forall l :: 0 <= l < k ==> !seen[l].Overlaps(a.valid)
        {
          if seen[k].Overlaps(a.valid) {
            RefusedPrefix(batch, i + 1);
            return Err(FactConflict);
          }
        }
        WindowsGrow(windows, out, a);
        windows := windows[a.triple := seen + [a.valid]];
        out := out + [a];
      }
      assert batch[..|batch|] == batch;
      return Ok(out);
    }

    /** One transaction: markers, then retractions, then assertions. Any error rolls back.
        Either way it succeeds, by writing or by finding the work already done, every fact of
        the extractor that the named episodes support comes back. */
    method ApplyExtraction(cmd: ExtractCommand) returns (r: Result<map<Id, Fact>>)
      modifies this
      ensures Db() == T.Kept(old(Db()), T.ApplyExtraction(old(Db()), cmd))
      ensures r.Ok? <==> T.ApplyExtraction(old(Db()), cmd).Ok?
      ensures r.Err? ==> r.error == T.ApplyExtraction(old(Db()), cmd).error
      ensures Inv(old(Db())) && r.Ok? ==> B.ConcludesAs(old(Db()), cmd, Db())
      ensures r.Ok? ==> forall f :: f in r.value <==>
        f in facts && facts[f].scope == cmd.scope && facts[f].extractor == cmd.extractor && exists e :: e in facts[f].episodes && e in cmd.episodes
      ensures r.Ok? ==> forall f :: f in r.value ==> r.value[f] == facts[f]
    {
      hide B.ConcludesAs, Inv, T.ApplyExtraction;
      ghost var before := Db();
      var done := Conclude(cmd);
      if done.Err? { return Err(done.error); }
      if Inv(before) { B.Concludes(before, cmd, Db()); }
      return Ok(map f | f in facts && SupportedBy(facts[f], cmd) :: facts[f]);
    }

    /** Everything the transaction writes. */
    method Conclude(cmd: ExtractCommand) returns (r: Result<()>)
      modifies this
      ensures Db() == T.Kept(old(Db()), T.ApplyExtraction(old(Db()), cmd))
      ensures r.Ok? <==> T.ApplyExtraction(old(Db()), cmd).Ok?
      ensures r.Err? ==> r.error == T.ApplyExtraction(old(Db()), cmd).error
    {
      if !cmd.Valid() { return Err(InvalidExtraction); }
      var deduped := DedupeAssertions(cmd.asserts);
      if deduped.Err? { return Err(deduped.error); }
      var batch := deduped.value;
      var marked := MarkEpisodes(cmd, |batch|);
      if |T.FoundEpisodes(Db(), cmd)| < |cmd.episodes| { return Err(NotFound); }
      if !T.AlreadyRead(Db(), cmd) {
        var cut := ApplyRetractions(facts, cmd);
        if cut.Err? { return Err(cut.error); }
        var rows := ApplyAssertions(cut.value, minted, cmd, batch);
        if rows.Err? { return Err(rows.error); }
        markers, facts, minted := marked, rows.value, minted + |batch|;
      }
      return Ok(());
    }

    method MarkEpisodes(cmd: ExtractCommand, factCount: nat) returns (marked: map<(Id, ExtractorId), Marker>)
      ensures marked == T.WithMarkers(Db(), cmd, cmd.episodes, factCount)
    {
      var found := T.FoundEpisodes(Db(), cmd);
      marked := markers;
      for i := 0 to |cmd.episodes|
        invariant marked == T.WithMarkers(Db(), cmd, cmd.episodes[..i], factCount)
      {
        assert cmd.episodes[..i + 1][..i] == cmd.episodes[..i];
        var e := cmd.episodes[i];
        if e in found && (e, cmd.extractor) !in marked {
          marked := marked[(e, cmd.extractor) := Marker(episodes[e].scope, episodes[e].ingestedAt, factCount, cmd.at)];
        }
      }
      assert cmd.episodes[..|cmd.episodes|] == cmd.episodes;
    }

    static method ApplyRetractions(facts: map<Id, Fact>, cmd: ExtractCommand) returns (r: Result<map<Id, Fact>>)
      ensures r == T.RetractAll(facts, cmd.scope, cmd.retracts, cmd.at)
    {
      var rows := facts;
      for i := 0 to |cmd.retracts|
        invariant T.RetractAll(facts, cmd.scope, cmd.retracts[..i], cmd.at) == Ok(rows)
      {
        assert cmd.retracts[..i + 1][..i] == cmd.retracts[..i];
        var ret := cmd.retracts[i];
        if ret.fact in rows && rows[ret.fact].scope == cmd.scope && rows[ret.fact].valid.from < ret.at
           && (rows[ret.fact].valid.IsOpen() || rows[ret.fact].valid.to.value > ret.at) {
          rows := rows[ret.fact := T.Closed(rows[ret.fact], ret.at, cmd.at)];
        } else {
          var why := ExplainRetraction(rows, cmd.scope, ret);
          if why.Some? {
            RetractRefused(facts, cmd.scope, cmd.retracts, cmd.at, i + 1);
            return Err(why.value);
          }
        }
      }
      assert cmd.retracts[..|cmd.retracts|] == cmd.retracts;
      return Ok(rows);
    }

    static method ApplyAssertions(cut: map<Id, Fact>, first: Id, cmd: ExtractCommand, batch: seq<Assertion>) returns (r: Result<map<Id, Fact>>)
      ensures r == T.InsertFacts(T.RefreshAll(cut, batch, cmd), first, T.ToInsert(cut, batch, batch, cmd), cmd)
    {
      var inserts := T.ToInsert(cut, batch, batch, cmd);
      var updated := T.RefreshAll(cut, batch, cmd);
      var rows := updated;
      for i := 0 to |inserts|
        invariant T.InsertFacts(updated, first, inserts[..i], cmd) == Ok(rows)
      {
        assert inserts[..i + 1][..i] == inserts[..i];
        var f := T.NewFact(inserts[i], cmd);
        if T.Collides(rows, f) {
          InsertRefused(updated, first, inserts, cmd, i + 1);
          return Err(FactConflict);
        }
        rows := rows[first + i := f];
      }
      assert inserts[..|inserts|] == inserts;
      return Ok(rows);
    }

    /** Why a retraction changed nothing; `None` is the one acceptable reason. */
    static method ExplainRetraction(rows: map<Id, Fact>, scope: ScopeId, r: Retraction) returns (why: Option<Error>)
      ensures why == match T.RetractOne(rows, scope, r, 0) case Ok(_) => None case Err(e) => Some(e)
    {
      if r.fact !in rows || rows[r.fact].scope != scope { return Some(NotFound); }
      if !(r.at > rows[r.fact].valid.from) { return Some(InvalidValidity); }
      return None;
    }

    // ---- Erasure ------------------------------------------------------------

    /** Every projection goes before its source, and the counts say what went. */
    method Forget(scope: ScopeId, ids: seq<Id>) returns (out: ForgetResult)
      modifies this
      ensures Db() == T.Forget(old(Db()), scope, ids) && Spared(old(Db()), Db(), scope, ids)
      ensures out.facts == |old(facts)| - |facts| && out.extractions == |old(markers)| - |markers|
      ensures out.encodings == |old(encodings)| - |encodings| && out.jobs == |old(jobs)| - |jobs|
      ensures out.episodes == |old(episodes)| - |episodes|
      ensures out.scopeRemoved <==> ids == [] && scope in old(scopes)
    {
      hide T.Forget, Erased, ErasedUpTo, Went, RowsOf, Spared;
      ghost var before := Db();
      var counts: seq<nat> := [];
      StartsErasing(before, scope, ids);
      for i := 0 to |ERASURE_STEPS|
        invariant Db() == ErasedUpTo(before, scope, ids, i) && |counts| == i
        invariant forall k :: 0 <= k < i ==> counts[k] == Went(before, scope, ids, k)
      {
        var n := EraseStep(ERASURE_STEPS[i], scope, ids);
        ErasesNext(before, scope, ids, i);
        counts := counts + [n];
      }
      ghost var last := Db();
      ErasesNoScope(before, scope, ids);
      out := ForgetResult(counts[0], counts[1], counts[2], counts[3], counts[4], ids == [] && scope in scopes);
      if ids == [] {
        scopes := scopes - {scope};
      }
      AllErased(before, last, Db(), scope, ids);
      ForgetSpares(before, scope, ids);
    }

    /** One table's share. */
    method EraseStep(step: ErasureStep, scope: ScopeId, ids: seq<Id>) returns (n: nat)
      modifies this
      ensures Db() == Erased(old(Db()), step, scope, ids) && n == RowsOf(old(Db()), step) - RowsOf(Db(), step)
    {
      match step {
        case OfFacts => n := EraseFacts(scope, ids);
        case OfMarkers => n := EraseMarkers(scope, ids);
        case OfEncodings => n := EraseEncodings(scope, ids);
        case OfJobs => n := EraseJobs(scope, ids);
        case OfEpisodes => n := EraseEpisodes(scope, ids);
      }
    }

    method EraseFacts(scope: ScopeId, ids: seq<Id>) returns (n: nat)
      modifies this`facts
      ensures facts == T.KeepFacts(old(facts), scope, ids) && n == |old(facts)| - |facts|
    {
      var gone := set f | f in facts && facts[f].scope == scope && T.NamesAny(ids, facts[f].episodes);
      MinusSize(facts, gone);
      facts, n := facts - gone, |gone|;
    }

    method EraseMarkers(scope: ScopeId, ids: seq<Id>) returns (n: nat)
      modifies this`markers
      ensures markers == T.KeepMarkers(old(markers), scope, ids) && n == |old(markers)| - |markers|
    {
      var gone := set k | k in markers && markers[k].scope == scope && T.Named(ids, k.0);
      MinusSize(markers, gone);
      markers, n := markers - gone, |gone|;
    }

    method EraseEncodings(scope: ScopeId, ids: seq<Id>) returns (n: nat)
      modifies this`encodings
      ensures encodings == T.KeepEncodings(old(encodings), scope, ids) && n == |old(encodings)| - |encodings|
    {
      var gone := set k | k in encodings && encodings[k].scope == scope && T.Named(ids, k.0);
      MinusSize(encodings, gone);
      encodings, n := encodings - gone, |gone|;
    }

    method EraseJobs(scope: ScopeId, ids: seq<Id>) returns (n: nat)
      modifies this`jobs
      ensures jobs == T.KeepJobs(old(jobs), scope, ids) && n == |old(jobs)| - |jobs|
    {
      var gone := set j | j in jobs && jobs[j].scope == scope && T.JobNames(jobs[j], ids);
      MinusSize(jobs, gone);
      jobs, n := jobs - gone, |gone|;
    }

    method EraseEpisodes(scope: ScopeId, ids: seq<Id>) returns (n: nat)
      modifies this`episodes
      ensures episodes == T.KeepEpisodes(old(episodes), scope, ids) && n == |old(episodes)| - |episodes|
    {
      var gone := set e | e in episodes && episodes[e].scope == scope && T.Named(ids, e);
      MinusSize(episodes, gone);
      episodes, n := episodes - gone, |gone|;
    }
  }

  // ---- What the loops rest on -------------------------------------------------

  /** The tables after one step of an erasure. */
  function Erased(db: T.Db, step: ErasureStep, scope: ScopeId, ids: seq<Id>): T.Db {
    match step
    case OfFacts => db.(facts := T.KeepFacts(db.facts, scope, ids))
    case OfMarkers => db.(markers := T.KeepMarkers(db.markers, scope, ids))
    case OfEncodings => db.(encodings := T.KeepEncodings(db.encodings, scope, ids))
    case OfJobs => db.(jobs := T.KeepJobs(db.jobs, scope, ids))
    case OfEpisodes => db.(episodes := T.KeepEpisodes(db.episodes, scope, ids))
  }

  function ErasedUpTo(db: T.Db, scope: ScopeId, ids: seq<Id>, n: nat): T.Db
    requires n <= |ERASURE_STEPS|
  {
    if n == 0 then db else Erased(ErasedUpTo(db, scope, ids, n - 1), ERASURE_STEPS[n - 1], scope, ids)
  }

  function RowsOf(db: T.Db, step: ErasureStep): nat {
    match step
    case OfFacts => |db.facts|
    case OfMarkers => |db.markers|
    case OfEncodings => |db.encodings|
    case OfJobs => |db.jobs|
    case OfEpisodes => |db.episodes|
  }

  /** An erasure asks for this episode: it names it, or it names none, which is all of them. */
  predicate Asked(ids: seq<Id>, e: Id) { |ids| == 0 || exists i :: 0 <= i < |ids| && ids[i] == e }

  /** What an erasure spares, exactly: every row of another scope, and of its own what is of no
      episode asked for. A fact or a job goes if any of its episodes is asked for, and the count
      of the scope's log only with the whole scope. */
  ghost predicate Spared(db: T.Db, db': T.Db, scope: ScopeId, ids: seq<Id>) {
    && (forall e :: e in db'.episodes <==> e in db.episodes && !(db.episodes[e].scope == scope && Asked(ids, e)))
    && (forall k :: k in db'.encodings <==> k in db.encodings && !(db.encodings[k].scope == scope && Asked(ids, k.0)))
    && (forall k :: k in db'.markers <==> k in db.markers && !(db.markers[k].scope == scope && Asked(ids, k.0)))
    && (forall f :: f in db'.facts <==>
          f in db.facts && !(db.facts[f].scope == scope && (|ids| == 0 || exists e :: e in db.facts[f].episodes && Asked(ids, e))))
    && (forall j :: j in db'.jobs <==>
          j in db.jobs && !(db.jobs[j].scope == scope && (|ids| == 0 || exists e :: e in db.jobs[j].episodes && Asked(ids, e))))
    && (forall e :: e in db'.episodes ==> db'.episodes[e] == db.episodes[e])
    && (forall k :: k in db'.encodings ==> db'.encodings[k] == db.encodings[k])
    && (forall k :: k in db'.markers ==> db'.markers[k] == db.markers[k])
    && (forall f :: f in db'.facts ==> db'.facts[f] == db.facts[f])
    && (forall j :: j in db'.jobs ==> db'.jobs[j] == db.jobs[j])
    && db'.scopes == (if |ids| == 0 then db.scopes - {scope} else db.scopes) && db'.minted == db.minted
  }

  lemma ForgetSpares(db: T.Db, scope: ScopeId, ids: seq<Id>)
    ensures Spared(db, T.Forget(db, scope, ids), scope, ids)
  {
    forall e ensures Asked(ids, e) <==> T.Named(ids, e) {}
    forall f | f in db.facts
      ensures T.NamesAny(ids, db.facts[f].episodes) <==> |ids| == 0 || exists e :: e in db.facts[f].episodes && Asked(ids, e)
    {
      NamesAsked(ids, db.facts[f].episodes);
    }
    forall j | j in db.jobs
      ensures T.JobNames(db.jobs[j], ids) <==> |ids| == 0 || exists e :: e in db.jobs[j].episodes && Asked(ids, e)
    {
      NamesAsked(ids, set e | e in db.jobs[j].episodes);
    }
    hide T.Named, T.NamesAny, T.JobNames, Asked;
  }

  lemma NamesAsked(ids: seq<Id>, es: set<Id>)
    ensures T.NamesAny(ids, es) <==> |ids| == 0 || exists e :: e in es && Asked(ids, e)
  {
    forall e ensures e in ids <==> exists i :: 0 <= i < |ids| && ids[i] == e {}
  }

  /** How many rows step k took. */
  function Went(db: T.Db, scope: ScopeId, ids: seq<Id>, k: nat): int
    requires k < |ERASURE_STEPS|
  {
    RowsOf(ErasedUpTo(db, scope, ids, k), ERASURE_STEPS[k]) - RowsOf(ErasedUpTo(db, scope, ids, k + 1), ERASURE_STEPS[k])
  }

  lemma ErasesNext(db: T.Db, scope: ScopeId, ids: seq<Id>, n: nat)
    requires n < |ERASURE_STEPS|
    ensures var before := ErasedUpTo(db, scope, ids, n);
      && ErasedUpTo(db, scope, ids, n + 1) == Erased(before, ERASURE_STEPS[n], scope, ids)
      && Went(db, scope, ids, n) == RowsOf(before, ERASURE_STEPS[n]) - RowsOf(Erased(before, ERASURE_STEPS[n], scope, ids), ERASURE_STEPS[n])
  {
    hide Erased, RowsOf;
  }

  lemma StartsErasing(db: T.Db, scope: ScopeId, ids: seq<Id>)
    ensures ErasedUpTo(db, scope, ids, 0) == db
  {}

  lemma ErasesNoScope(db: T.Db, scope: ScopeId, ids: seq<Id>)
    ensures ErasedUpTo(db, scope, ids, 5).scopes == db.scopes
  {
    hide T.KeepFacts, T.KeepMarkers, T.KeepEncodings, T.KeepJobs, T.KeepEpisodes, Went;
    ErasesNext(db, scope, ids, 0);
    ErasesNext(db, scope, ids, 1);
    ErasesNext(db, scope, ids, 2);
    ErasesNext(db, scope, ids, 3);
    ErasesNext(db, scope, ids, 4);
    hide ErasedUpTo;
  }

  /** Taken together the steps leave what an erasure leaves, and each counts its own table. */
  lemma AllErased(db: T.Db, last: T.Db, after: T.Db, scope: ScopeId, ids: seq<Id>)
    requires last == ErasedUpTo(db, scope, ids, 5)
    requires after == last.(scopes := if ids == [] then db.scopes - {scope} else db.scopes)
    ensures after == T.Forget(db, scope, ids)
    ensures Went(db, scope, ids, 0) == |db.facts| - |after.facts| && Went(db, scope, ids, 1) == |db.markers| - |after.markers|
    ensures Went(db, scope, ids, 2) == |db.encodings| - |after.encodings| && Went(db, scope, ids, 3) == |db.jobs| - |after.jobs|
    ensures Went(db, scope, ids, 4) == |db.episodes| - |after.episodes|
  {
    hide T.KeepFacts, T.KeepMarkers, T.KeepEncodings, T.KeepJobs, T.KeepEpisodes;
    ErasesNext(db, scope, ids, 0);
    ErasesNext(db, scope, ids, 1);
    ErasesNext(db, scope, ids, 2);
    ErasesNext(db, scope, ids, 3);
    ErasesNext(db, scope, ids, 4);
    hide ErasedUpTo, Went;
  }

  /** What a projection lacks, read off the tables. */
  lemma LackingRows(db: T.Db, t: Target, scope: ScopeId, after: nat, lacking: set<Id>)
    requires LogInv(db) && lacking == set e | e in db.episodes && Lacks(db, t, scope, after, e)
    ensures lacking <= db.episodes.Keys && DistinctSeqs(db.episodes, lacking)
    ensures t.ExtractFor? ==>
      lacking == set e | e in db.episodes && db.episodes[e].scope == scope && db.episodes[e].seqNo > after && (e, t.extractor) !in db.markers
    ensures t.EncodeFor? ==>
      lacking == set e | e in db.episodes && db.episodes[e].scope == scope && db.episodes[e].seqNo > after && (e, t.model) !in db.encodings
  {}

  lemma LackingInOrder(db: T.Db, t: Target, scope: ScopeId, after: nat, limit: nat, ids: seq<Id>, lacking: set<Id>)
    requires lacking == (set e | e in db.episodes && Lacks(db, t, scope, after, e)) && FirstInOrder(db.episodes, lacking, limit, ids)
    ensures FirstPending(db, t, scope, after, limit, ids)
  {
    assert forall e :: e in lacking <==> Lacks(db, t, scope, after, e);
    hide Lacks;
  }

  predicate Earliest(episodes: map<Id, Episode>, ids: set<Id>, e: Id)
    requires ids <= episodes.Keys
  {
    e in ids && forall f :: f in ids ==> episodes[e].seqNo <= episodes[f].seqNo
  }

  lemma EarliestExists(episodes: map<Id, Episode>, ids: set<Id>)
    requires ids != {} && ids <= episodes.Keys
    ensures exists e :: Earliest(episodes, ids, e)
  {
    var e :| e in ids;
    var rest := ids - {e};
    if rest == {} {
      assert ids == rest + {e};
      assert Earliest(episodes, ids, e);
    } else {
      EarliestExists(episodes, rest);
      var g :| Earliest(episodes, rest, g);
      EarlierOfTwo(episodes, ids, e, g);
    }
  }

  lemma EarlierOfTwo(episodes: map<Id, Episode>, ids: set<Id>, e: Id, g: Id)
    requires ids <= episodes.Keys && e in ids && Earliest(episodes, ids - {e}, g)
    ensures Earliest(episodes, ids, if episodes[e].seqNo <= episodes[g].seqNo then e else g)
  {
    assert forall f :: f in ids ==> f == e || f in ids - {e};
  }

  lemma TakesEarliest(episodes: map<Id, Episode>, ids: seq<Id>, left: set<Id>, e: Id)
    requires Ascending(episodes, ids, left) && Earliest(episodes, left, e) && DistinctSeqs(episodes, left)
    ensures Ascending(episodes, ids + [e], left - {e}) && DistinctSeqs(episodes, left - {e})
  {}

  /** Taken in sequence order, with everything not yet taken still ahead. */
  ghost predicate Ascending(episodes: map<Id, Episode>, ids: seq<Id>, left: set<Id>) {
    && left <= episodes.Keys && (forall i :: 0 <= i < |ids| ==> ids[i] in episodes)
    && (forall i, j :: 0 <= i < j < |ids| ==> episodes[ids[i]].seqNo < episodes[ids[j]].seqNo)
    && (forall i, e :: 0 <= i < |ids| && e in left ==> episodes[ids[i]].seqNo < episodes[e].seqNo)
  }

  lemma TakesNothing(episodes: map<Id, Episode>, left: set<Id>)
    requires left <= episodes.Keys
    ensures Ascending(episodes, [], left)
  {}

  lemma AscendingMeans(episodes: map<Id, Episode>, ids: seq<Id>, left: set<Id>)
    requires Ascending(episodes, ids, left)
    ensures left <= episodes.Keys && forall i :: 0 <= i < |ids| ==> ids[i] in episodes
    ensures forall i, j :: 0 <= i < j < |ids| ==> episodes[ids[i]].seqNo < episodes[ids[j]].seqNo
    ensures forall i, e :: 0 <= i < |ids| && e in left ==> episodes[ids[i]].seqNo < episodes[e].seqNo
  {}

  ghost predicate DistinctSeqs(episodes: map<Id, Episode>, rows: set<Id>)
    requires rows <= episodes.Keys
  {
    forall e, f :: e in rows && f in rows && e != f ==> episodes[e].seqNo != episodes[f].seqNo
  }

  lemma AppendRefused(db: T.Db, cmd: AppendCommand)
    requires !cmd.Valid()
    ensures T.Kept(db, T.Append(db, cmd)) == db
  {}

  lemma AppendIs(db: T.Db, cmd: AppendCommand, db': T.Db)
    requires cmd.Valid()
    requires var (scope, n) := (cmd.episodes[0].scope, |cmd.episodes|);
      db' == db.(scopes := db.scopes[scope := T.LastSeq(db, scope) + n],
                 episodes := db.episodes + T.NewRows(db.minted, T.LastSeq(db, scope), cmd.episodes),
                 jobs := T.WithBatchJobs(db.jobs, db.minted + n, scope, T.MintedIds(db.minted, n), cmd.jobs, cmd.episodes[0].ingestedAt),
                 minted := db.minted + n + |cmd.jobs|)
    ensures db' == T.Kept(db, T.Append(db, cmd))
  {
    hide T.NewRows, T.WithBatchJobs, T.MintedIds;
  }

  lemma NewRowsGrow(rows: map<Id, Episode>, first: Id, base: nat, news: seq<NewEpisode>, i: nat)
    requires i < |news|
    ensures rows + T.NewRows(first, base, news[..i + 1]) ==
      (rows + T.NewRows(first, base, news[..i]))[
        first + i := Episode(first + i, news[i].scope, base + 1 + i, news[i].body, news[i].ingestedAt)]
  {
    assert news[..i + 1][..i] == news[..i];
  }

  lemma NoneAdded(jobs: map<Id, Job>, first: Id, scope: ScopeId, ids: seq<Id>, specs: seq<JobSpec>, at: Instant)
    ensures JobsAdded(jobs, map[], first, scope, ids, specs[..0], at)
  {}

  lemma MinusSize<K, V>(m: map<K, V>, gone: set<K>)
    requires gone <= m.Keys
    ensures |m - gone| == |m| - |gone|
  {
    assert (m - gone).Keys == m.Keys - gone;
    assert |m.Keys| == |m| && |(m - gone).Keys| == |m - gone|;
  }

  ghost predicate Keeps(kept: seq<Assertion>, t: Triple, v: Validity) {
    exists k :: 0 <= k < |kept| && kept[k].triple == t && kept[k].valid == v
  }

  /** The window map of a deduplication holds exactly the kept windows, by triple. */
  ghost predicate WindowsOf(windows: map<Triple, seq<Validity>>, kept: seq<Assertion>) {
    forall t: Triple, v: Validity :: v in SeenOf(windows, t) <==> Keeps(kept, t, v)
  }

  function SeenOf(windows: map<Triple, seq<Validity>>, t: Triple): seq<Validity> {
    if t in windows then windows[t] else []
  }

  lemma WindowsSay(windows: map<Triple, seq<Validity>>, kept: seq<Assertion>, a: Assertion)
    requires WindowsOf(windows, kept)
    ensures T.Listed(kept, a) <==> a.valid in SeenOf(windows, a.triple)
    ensures T.Clashes(kept, a) <==> exists v :: v in SeenOf(windows, a.triple) && v.Overlaps(a.valid)
  {
    assert T.Listed(kept, a) <==> Keeps(kept, a.triple, a.valid);
    if T.Clashes(kept, a) {
      var k :| 0 <= k < |kept| && kept[k].triple == a.triple && kept[k].valid.Overlaps(a.valid);
      assert Keeps(kept, a.triple, kept[k].valid);
    }
    if v :| v in SeenOf(windows, a.triple) && v.Overlaps(a.valid) {
      assert Keeps(kept, a.triple, v);
    }
  }

  lemma WindowsGrow(windows: map<Triple, seq<Validity>>, kept: seq<Assertion>, a: Assertion)
    requires WindowsOf(windows, kept)
    ensures WindowsOf(windows[a.triple := SeenOf(windows, a.triple) + [a.valid]], kept + [a])
  {
    var windows' := windows[a.triple := SeenOf(windows, a.triple) + [a.valid]];
    forall t: Triple, v: Validity
      ensures v in SeenOf(windows', t) <==> Keeps(kept + [a], t, v)
    {
      assert v in SeenOf(windows, t) <==> Keeps(kept, t, v);
      if Keeps(kept, t, v) {
        var k :| 0 <= k < |kept| && kept[k].triple == t && kept[k].valid == v;
        assert (kept + [a])[k] == kept[k];
      }
      assert (kept + [a])[|kept|] == a;
    }
  }

  lemma {:induction false} RefusedPrefix(batch: seq<Assertion>, n: nat)
    requires n <= |batch| && T.Dedupe(batch[..n]) == Err(FactConflict)
    ensures T.Dedupe(batch) == Err(FactConflict)
    decreases |batch| - n
  {
    if n == |batch| {
      assert batch[..n] == batch;
    } else {
      assert batch[..n + 1][..n] == batch[..n];
      RefusedPrefix(batch, n + 1);
    }
  }

  lemma {:induction false} RetractRefused(facts: map<Id, Fact>, scope: ScopeId, rs: seq<Retraction>, at: Instant, n: nat)
    requires n <= |rs| && T.RetractAll(facts, scope, rs[..n], at).Err?
    ensures T.RetractAll(facts, scope, rs, at) == T.RetractAll(facts, scope, rs[..n], at)
    decreases |rs| - n
  {
    if n == |rs| {
      assert rs[..n] == rs;
    } else {
      assert rs[..n + 1][..n] == rs[..n];
      RetractRefused(facts, scope, rs, at, n + 1);
    }
  }

  lemma {:induction false} InsertRefused(facts: map<Id, Fact>, first: Id, rows: seq<Assertion>, cmd: ExtractCommand, n: nat)
    requires n <= |rows| && T.InsertFacts(facts, first, rows[..n], cmd).Err?
    ensures T.InsertFacts(facts, first, rows, cmd) == T.InsertFacts(facts, first, rows[..n], cmd)
    decreases |rows| - n
  {
    if n == |rows| {
      assert rows[..n] == rows;
    } else {
      assert rows[..n + 1][..n] == rows[..n];
      InsertRefused(facts, first, rows, cmd, n + 1);
    }
  }
}
