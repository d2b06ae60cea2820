/** Recording through the public surface: batches of requests, and an import of a whole
    history in full batches. What the log then holds does not depend on the split. */
module Ingest {
  import opened Model
  import T = Tables
  import opened Effects
  import opened Invariants
  import opened S = Store

  /** An absent `occurredAt` means the instant it is recorded. */
  datatype AppendRequest = AppendRequest(
    scope: ScopeId, content: string, role: string, actor: string, source: string,
    occurredAt: Option<Instant>, binding: map<string, string>)
  {
    predicate Valid() { scope != "" && content != "" }

    function Body(now: Instant): Model.Body {
      Model.Body(content, role, actor, source, occurredAt.GetOr(now), binding)
    }
  }

  // ---- What a scope's log says ----------------------------------------------

  /** The scope's k-th episode says this. */
  ghost predicate SaysAt(db: T.Db, scope: ScopeId, k: int, body: Body) {
    exists e :: e in db.episodes && db.episodes[e].scope == scope && db.episodes[e].seqNo == k && db.episodes[e].body == body
  }

  /** The log of a scope grew by exactly these, in this order, and changed nowhere else. */
  ghost predicate Grew(db: T.Db, db': T.Db, scope: ScopeId, bodies: seq<Body>) {
    && T.LastSeq(db', scope) == T.LastSeq(db, scope) + |bodies|
    && forall k, b :: SaysAt(db', scope, k, b) <==>
         SaysAt(db, scope, k, b) || (T.LastSeq(db, scope) < k <= T.LastSeq(db', scope) && bodies[k - T.LastSeq(db, scope) - 1] == b)
  }

  lemma GrewNothing(db: T.Db, scope: ScopeId)
    ensures Grew(db, db, scope, [])
  {}

  lemma GrowthsCompose(a: T.Db, b: T.Db, c: T.Db, scope: ScopeId, xs: seq<Body>, ys: seq<Body>)
    requires Grew(a, b, scope, xs) && Grew(b, c, scope, ys)
    ensures Grew(a, c, scope, xs + ys)
  {}

  function Bodies(cmd: AppendCommand): seq<Body> {
    seq(|cmd.episodes|, i requires 0 <= i < |cmd.episodes| => cmd.episodes[i].body)
  }

  lemma AppendGrows(db: T.Db, cmd: AppendCommand)
    requires LogInv(db) && cmd.Valid()
    ensures Grew(db, T.Append(db, cmd).value, cmd.episodes[0].scope, Bodies(cmd))
  {
    AppendTakesBlock(db, cmd);
    BlockGrows(db, cmd, T.Append(db, cmd).value);
  }

  lemma BlockGrows(db: T.Db, cmd: AppendCommand, db': T.Db)
    requires LogInv(db) && cmd.episodes != [] && TakesBlock(db, cmd, db')
    ensures Grew(db, db', cmd.episodes[0].scope, Bodies(cmd))
  {
    var scope, base := cmd.episodes[0].scope, T.LastSeq(db, cmd.episodes[0].scope);
    assert T.LastSeq(db', scope) == base + |cmd.episodes|;
    forall k, b ensures SaysAt(db', scope, k, b) <==>
      SaysAt(db, scope, k, b) || (base < k <= base + |cmd.episodes| && Bodies(cmd)[k - base - 1] == b)
    {
      BlockSays(db, cmd, db', k, b);
    }
    hide SaysAt, Bodies, LogInv, TakesBlock;
  }

  lemma BlockSays(db: T.Db, cmd: AppendCommand, db': T.Db, k: int, b: Body)
    requires LogInv(db) && cmd.episodes != [] && TakesBlock(db, cmd, db')
    ensures var (scope, base) := (cmd.episodes[0].scope, T.LastSeq(db, cmd.episodes[0].scope));
      SaysAt(db', scope, k, b) <==> SaysAt(db, scope, k, b) || (base < k <= base + |cmd.episodes| && Bodies(cmd)[k - base - 1] == b)
  {
    var scope, base := cmd.episodes[0].scope, T.LastSeq(db, cmd.episodes[0].scope);
    if SaysAt(db, scope, k, b) {
      var e :| e in db.episodes && db.episodes[e].scope == scope && db.episodes[e].seqNo == k && db.episodes[e].body == b;
      assert db'.episodes[e] == db.episodes[e];
    }
    if base < k <= base + |cmd.episodes| && Bodies(cmd)[k - base - 1] == b {
      var e := db.minted + (k - base - 1);
      assert e in db'.episodes && db'.episodes[e] == RowOf(db, cmd, k - base - 1);
    }
    if SaysAt(db', scope, k, b) {
      var e :| e in db'.episodes && db'.episodes[e].scope == scope && db'.episodes[e].seqNo == k && db'.episodes[e].body == b;
      assert e in db.episodes ==> db'.episodes[e] == db.episodes[e];
      assert e !in db.episodes ==> db'.episodes[e] == RowOf(db, cmd, e - db.minted);
    }
  }

  // ---- Splitting ------------------------------------------------------------

  /** Batches of one scope, appended one after another. */
  function AppendAll(db: T.Db, cmds: seq<AppendCommand>): T.Db
    decreases |cmds|
  {
    if cmds == [] then db else T.Kept(AppendAll(db, cmds[..|cmds| - 1]), T.Append(AppendAll(db, cmds[..|cmds| - 1]), cmds[|cmds| - 1]))
  }

  function AllBodies(cmds: seq<AppendCommand>): seq<Body>
    decreases |cmds|
  {
    if cmds == [] then [] else AllBodies(cmds[..|cmds| - 1]) + Bodies(cmds[|cmds| - 1])
  }

  predicate OfScope(cmds: seq<AppendCommand>, scope: ScopeId) {
    forall i :: 0 <= i < |cmds| ==> cmds[i].Valid() && cmds[i].episodes[0].scope == scope
  }

  lemma {:induction false} BatchesGrow(db: T.Db, cmds: seq<AppendCommand>, scope: ScopeId)
    requires LogInv(db) && OfScope(cmds, scope)
    ensures LogInv(AppendAll(db, cmds)) && Grew(db, AppendAll(db, cmds), scope, AllBodies(cmds))
    decreases |cmds|
  {
    if cmds != [] {
      var n := |cmds| - 1;
      assert OfScope(cmds[..n], scope);
      BatchesGrow(db, cmds[..n], scope);
      var mid := AppendAll(db, cmds[..n]);
      AppendKeepsLog(mid, cmds[n]);
      AppendGrows(mid, cmds[n]);
      GrowthsCompose(db, mid, AppendAll(db, cmds), scope, AllBodies(cmds[..n]), Bodies(cmds[n]));
    }
  }

  /** However the same episodes are split into batches, single appends included, the scope's
      log ends up saying the same things at the same places. */
  lemma AnySplit(db: T.Db, xs: seq<AppendCommand>, ys: seq<AppendCommand>, scope: ScopeId)
    requires LogInv(db) && OfScope(xs, scope) && OfScope(ys, scope) && AllBodies(xs) == AllBodies(ys)
    ensures T.LastSeq(AppendAll(db, xs), scope) == T.LastSeq(AppendAll(db, ys), scope)
    ensures forall k, b :: SaysAt(AppendAll(db, xs), scope, k, b) <==> SaysAt(AppendAll(db, ys), scope, k, b)
  {
    BatchesGrow(db, xs, scope);
    BatchesGrow(db, ys, scope);
  }

  // ---- One batch ------------------------------------------------------------

  /** Every episode is to be encoded; with an extractor configured, read as well. */
  function JobsFor(extracts: bool): seq<JobSpec> {
    [JobSpec(Encode, None, 0)] + if extracts then [JobSpec(Extract, None, 0)] else []
  }

  predicate Acceptable(reqs: seq<AppendRequest>) {
    && 1 <= |reqs| <= MAX_APPEND_BATCH
    && forall i :: 0 <= i < |reqs| ==> reqs[i].Valid() && reqs[i].scope == reqs[0].scope
  }

  /** The first request of a batch that cannot be taken. */
  ghost predicate FirstRefused(reqs: seq<AppendRequest>, i: nat) {
    && i < |reqs| && (reqs[i].scope == "" || reqs[i].content == "" || reqs[i].scope != reqs[0].scope)
    && forall k :: 0 <= k < i ==> reqs[k].scope != "" && reqs[k].content != "" && reqs[k].scope == reqs[0].scope
  }

  /** Why a batch is refused: its size, or else the first request that cannot be taken. */
  ghost predicate RefusedFor(reqs: seq<AppendRequest>, error: Error) {
    if |reqs| == 0 || |reqs| > 64 then error == InvalidConfig
    else exists i: nat :: FirstRefused(reqs, i) && error == if reqs[i].scope == "" || reqs[i].content == "" then InvalidRequest else InvalidConfig
  }

  /** An episode says what its request does, and happened when it says or, if it does not, as it
      was recorded. */
  predicate Records(body: Body, req: AppendRequest, at: Instant) {
    && body.content == req.content && body.role == req.role && body.actor == req.actor && body.source == req.source
    && body.binding == req.binding && body.occurredAt == if req.occurredAt == None then at else req.occurredAt.value
  }

  /** A job to encode a batch, or with an extractor configured to read it, that can run at once. */
  predicate WorkOf(job: Job, scope: ScopeId, ids: seq<Id>, now: Instant, extracts: bool) {
    (job.kind == Encode || (extracts && job.kind == Extract)) && job == Job(job.kind, scope, ids, JobState.Pending, 0, 5, now, None, None, now, now)
  }

  function RequestBodies(reqs: seq<AppendRequest>, now: Instant): seq<Body> {
    seq(|reqs|, i requires 0 <= i < |reqs| => reqs[i].Body(now))
  }

  /** One row for each request, as the table now holds it, numbered on from the last. */
  ghost predicate Returned(db: T.Db, db': T.Db, reqs: seq<AppendRequest>, now: Instant, out: seq<Episode>)
    requires reqs != []
  {
    |out| == |reqs| && forall i :: 0 <= i < |reqs| ==>
      && out[i].id == db.minted + i && out[i].scope == reqs[0].scope && out[i].seqNo == T.LastSeq(db, reqs[0].scope) + 1 + i
      && out[i].ingestedAt == now && Records(out[i].body, reqs[i], now)
      && out[i].id in db'.episodes && db'.episodes[out[i].id] == out[i]
  }

  /** The episodes come back sequenced in the order given, sharing one ingest instant. */
  method AppendBatch(store: S.Store, reqs: seq<AppendRequest>, now: Instant, extracts: bool) returns (r: Result<seq<Episode>>)
    requires Inv(store.Db())
    modifies store
    ensures Inv(store.Db())
    ensures r.Ok? <==> 1 <= |reqs| <= 64 && forall i :: 0 <= i < |reqs| ==> reqs[i].scope == reqs[0].scope && reqs[i].scope != "" && reqs[i].content != ""
    ensures r.Err? ==> store.Db() == old(store.Db()) && RefusedFor(reqs, r.error)
    ensures r.Ok? ==> Grew(old(store.Db()), store.Db(), reqs[0].scope, RequestBodies(reqs, now))
    ensures r.Ok? ==> Returned(old(store.Db()), store.Db(), reqs, now, r.value)
    ensures r.Ok? ==>
      && Queued(store.jobs, Encode, reqs[0].scope, T.MintedIds(old(store.minted), |reqs|))
      && (extracts ==> Queued(store.jobs, Extract, reqs[0].scope, T.MintedIds(old(store.minted), |reqs|)))
    ensures r.Ok? ==> forall j :: j in store.jobs && j !in old(store.jobs) ==>
      WorkOf(store.jobs[j], reqs[0].scope, T.MintedIds(old(store.minted), |reqs|), now, extracts)
  {
    hide Inv, Grew, T.Append, Queued, Bodies, RequestBodies, JobsFor, T.MintedIds, Returned, RowsRecorded, S.RowsReturned, S.JobsAdded, WorkOf;
    var built := BatchCommand(reqs, now, extracts);
    if built.Err? { return Err(built.error); }
    var cmd := built.value;
    BatchRecorded(store.Db(), cmd);
    BatchWorkQueued(store.Db(), cmd, extracts);
    ghost var before := store.Db();
    var appended := store.Append(cmd);
    RowsComeBack(before, store.Db(), cmd, reqs, now, appended.value.episodes);
    WorkIsAsAsked(before, store.Db(), cmd, appended.value.jobs, extracts);
    r := Ok(appended.value.episodes);
  }

  lemma RowsComeBack(db: T.Db, db': T.Db, cmd: AppendCommand, reqs: seq<AppendRequest>, now: Instant, out: seq<Episode>)
    requires reqs != [] && |cmd.episodes| == |reqs|
    requires forall i :: 0 <= i < |reqs| ==> cmd.episodes[i] == NewEpisode(reqs[0].scope, reqs[i].Body(now), now)
    requires RowsRecorded(db, cmd, db') && S.RowsReturned(out, cmd, db.minted, T.LastSeq(db, cmd.episodes[0].scope))
    ensures Returned(db, db', reqs, now, out)
  {
    forall i | 0 <= i < |reqs| ensures out[i].id in db'.episodes && db'.episodes[out[i].id] == out[i] {
      assert db'.episodes[db.minted + i] == RowOf(db, cmd, i);
    }
  }

  lemma WorkIsAsAsked(db: T.Db, db': T.Db, cmd: AppendCommand, added: map<Id, Job>, extracts: bool)
    requires cmd.episodes != [] && cmd.jobs == JobsFor(extracts) && added == db'.jobs - db.jobs.Keys
    requires var (first, ids) := (db.minted + |cmd.episodes|, T.MintedIds(db.minted, |cmd.episodes|));
      S.JobsAdded(db.jobs, added, first, cmd.episodes[0].scope, ids, cmd.jobs, cmd.episodes[0].ingestedAt)
    ensures forall j :: j in db'.jobs && j !in db.jobs ==>
      WorkOf(db'.jobs[j], cmd.episodes[0].scope, T.MintedIds(db.minted, |cmd.episodes|), cmd.episodes[0].ingestedAt, extracts)
  {
    var first, ids := db.minted + |cmd.episodes|, T.MintedIds(db.minted, |cmd.episodes|);
    forall j | j in db'.jobs && j !in db.jobs ensures WorkOf(db'.jobs[j], cmd.episodes[0].scope, ids, cmd.episodes[0].ingestedAt, extracts) {
      assert j in added;
      assert S.JobAdded(db.jobs, added, first + (j - first), cmd.episodes[0].scope, ids, cmd.jobs[j - first], cmd.episodes[0].ingestedAt);
    }
    hide T.MintedIds;
  }

  /** Checks the requests one by one and builds the command they make. */
  method BatchCommand(reqs: seq<AppendRequest>, now: Instant, extracts: bool) returns (r: Result<AppendCommand>)
    ensures r.Ok? <==> Acceptable(reqs)
    ensures r.Err? ==> RefusedFor(reqs, r.error)
    ensures r.Ok? ==> r.value.Valid() && r.value.jobs == JobsFor(extracts) && Bodies(r.value) == RequestBodies(reqs, now)
    ensures r.Ok? ==> |r.value.episodes| == |reqs| && forall i :: 0 <= i < |reqs| ==>
      r.value.episodes[i] == NewEpisode(reqs[0].scope, reqs[i].Body(now), now)
  {
    if |reqs| == 0 || |reqs| > MAX_APPEND_BATCH { return Err(InvalidConfig); }
    var scope := reqs[0].scope;
    var episodes: seq<NewEpisode> := [];
    for i := 0 to |reqs|
      invariant |episodes| == i
      invariant forall k :: 0 <= k < i ==> reqs[k].Valid() && reqs[k].scope == scope
      invariant forall k :: 0 <= k < i ==> episodes[k] == NewEpisode(scope, reqs[k].Body(now), now)
    {
      assert !reqs[i].Valid() || reqs[i].scope != scope ==> FirstRefused(reqs, i);
      if !reqs[i].Valid() { return Err(InvalidRequest); }
      if reqs[i].scope != scope { return Err(InvalidConfig); }
      episodes := episodes + [NewEpisode(reqs[i].scope, reqs[i].Body(now), now)];
    }
    var cmd := AppendCommand(episodes, JobsFor(extracts));
    assert Bodies(cmd) == RequestBodies(reqs, now);
    return Ok(cmd);
  }

  lemma BatchWorkQueued(db: T.Db, cmd: AppendCommand, extracts: bool)
    requires Inv(db) && cmd.Valid() && cmd.jobs == JobsFor(extracts)
    ensures var (jobs, ids) := (T.Append(db, cmd).value.jobs, T.MintedIds(db.minted, |cmd.episodes|));
      && Queued(jobs, Encode, cmd.episodes[0].scope, ids) && (extracts ==> Queued(jobs, Extract, cmd.episodes[0].scope, ids))
  {
    AppendQueuesItsWork(db, cmd, 0);
    if extracts { AppendQueuesItsWork(db, cmd, 1); }
  }

  lemma AppendIsNext(db: T.Db, cmd: AppendCommand)
    requires cmd.Valid()
    ensures T.Append(db, cmd).Ok? && T.Next(db, T.OpAppend(cmd)) == T.Append(db, cmd).value
    ensures Inv(db) ==> LogInv(db) && forall j :: j in db.jobs ==> j < db.minted
  {}

  lemma BatchRecorded(db: T.Db, cmd: AppendCommand)
    requires Inv(db) && cmd.Valid()
    ensures T.Append(db, cmd).Ok?
    ensures Inv(T.Append(db, cmd).value) && Grew(db, T.Append(db, cmd).value, cmd.episodes[0].scope, Bodies(cmd))
    ensures RowsRecorded(db, cmd, T.Append(db, cmd).value) && forall j :: j in db.jobs ==> j < db.minted
  {
    AppendIsNext(db, cmd);
    hide Inv, Grew, T.Append, T.Next;
    StepKeepsInv(db, T.OpAppend(cmd));
    AppendGrows(db, cmd);
    AppendTakesBlock(db, cmd);
    BlockHasRows(db, cmd, T.Append(db, cmd).value);
  }

  ghost predicate RowsRecorded(db: T.Db, cmd: AppendCommand, db': T.Db) {
    forall e :: db.minted <= e < db.minted + |cmd.episodes| ==>
      e in db'.episodes && db'.episodes[e] == RowOf(db, cmd, e - db.minted)
  }

  lemma BlockHasRows(db: T.Db, cmd: AppendCommand, db': T.Db)
    requires LogInv(db) && cmd.episodes != [] && TakesBlock(db, cmd, db')
    ensures RowsRecorded(db, cmd, db')
  {}

  // ---- Importing a history --------------------------------------------------

  function Rescoped(reqs: seq<AppendRequest>, scope: ScopeId): seq<AppendRequest> {
    seq(|reqs|, i requires 0 <= i < |reqs| => reqs[i].(scope := scope))
  }

  predicate AllValid(reqs: seq<AppendRequest>, scope: ScopeId, n: nat)
    requires n <= |reqs|
  {
    forall i :: 0 <= i < n ==> reqs[i].(scope := scope).Valid()
  }

  lemma AcceptedSlice(reqs: seq<AppendRequest>, scope: ScopeId, start: nat, end: nat)
    requires start < end <= |reqs| && end <= start + MAX_APPEND_BATCH
    ensures var batch := Rescoped(reqs[start..end], scope);
      && |batch| == end - start && batch[0].scope == scope
      && (AllValid(reqs, scope, start) ==> (Acceptable(batch) <==> AllValid(reqs, scope, end)))
      && (!AllValid(reqs, scope, end) ==> !AllValid(reqs, scope, |reqs|))
  {
    var batch := Rescoped(reqs[start..end], scope);
    assert forall i :: start <= i < end ==> batch[i - start] == reqs[i].(scope := scope);
    if Acceptable(batch) && AllValid(reqs, scope, start) {
      forall i | 0 <= i < end ensures reqs[i].(scope := scope).Valid() {
        if i >= start { assert batch[i - start].Valid(); }
      }
    }
  }

  /** What each request of the history says once recorded; the clock is read once a batch. */
  function History(haystack: seq<AppendRequest>, clock: nat -> Instant): seq<Body> {
    seq(|haystack|, i requires 0 <= i < |haystack| => haystack[i].Body(clock(i / MAX_APPEND_BATCH)))
  }

  /** Every episode of the scope says what the request does that its number points at. */
  ghost predicate SeqIsIndex(db: T.Db, scope: ScopeId, haystack: seq<AppendRequest>, clock: nat -> Instant, n: nat)
    requires n <= |haystack|
  {
    forall e :: e in db.episodes && db.episodes[e].scope == scope ==>
      1 <= db.episodes[e].seqNo <= n &&
      Records(db.episodes[e].body, haystack[db.episodes[e].seqNo - 1], clock((db.episodes[e].seqNo - 1) / 64))
  }

  /** The history is recorded whole and in order, or up to the first batch holding an
      invalid request. Into a fresh scope, the number of an episode less one is its index. */
  method Ingest(store: S.Store, scope: ScopeId, haystack: seq<AppendRequest>, clock: nat -> Instant, extracts: bool)
    returns (ok: bool, ghost recorded: nat)
    requires Inv(store.Db())
    modifies store
    ensures Inv(store.Db()) && recorded <= |haystack|
    ensures ok ==> recorded == |haystack| && forall i :: 0 <= i < |haystack| ==> Takable(scope, haystack[i])
    ensures !ok ==> StoppedAt(haystack, scope, recorded)
    ensures Grew(old(store.Db()), store.Db(), scope, History(haystack, clock)[..recorded])
    ensures forall i :: 0 <= i < recorded ==>
      RecordedAt(store.Db(), scope, T.LastSeq(old(store.Db()), scope) + 1 + i, haystack[i], clock(i / 64))
    ensures T.LastSeq(old(store.Db()), scope) == 0 ==> SeqIsIndex(store.Db(), scope, haystack, clock, recorded)
  {
    GrewNothing(store.Db(), scope);
    assert AllValid(haystack, scope, 0);
    hide Inv, Grew, SeqIsIndex, RecordedAt, AllValid, StoppedAt, Rescoped, RequestBodies, Returned, WorkOf, Queued, RefusedFor, T.MintedIds, T.LastSeq, JobsFor;
    var start, ticks := 0, 0;
    recorded := 0;
    ok := true;
    ghost var all := History(haystack, clock);
    while start < |haystack| && ok
      invariant start == ticks * MAX_APPEND_BATCH && Inv(store.Db()) && recorded <= |haystack|
      invariant ok ==> recorded == if start < |haystack| then start else |haystack|
      invariant if ok then AllValid(haystack, scope, recorded) else StoppedAt(haystack, scope, recorded)
      invariant Grew(old(store.Db()), store.Db(), scope, all[..recorded])
      decreases |haystack| - start, ok
    {
      var end := if start + MAX_APPEND_BATCH < |haystack| then start + MAX_APPEND_BATCH else |haystack|;
      var batch := Rescoped(haystack[start..end], scope);
      AcceptedSlice(haystack, scope, start, end);
      ghost var before := store.Db();
      var r := AppendBatch(store, batch, clock(ticks), extracts);
      if r.Err? {
        StopsHere(haystack, scope, ticks, start, end);
        ok := false;
      } else {
        BatchIsSlice(haystack, scope, clock, ticks, start, end);
        GrowthsCompose(old(store.Db()), before, store.Db(), scope, all[..start], all[start..end]);
        recorded := end;
        start, ticks := start + MAX_APPEND_BATCH, ticks + 1;
      }
    }
    if ok { ValidMeans(haystack, scope, recorded); }
    FreshScopeIndexes(old(store.Db()), store.Db(), scope, haystack, clock, recorded);
    AllRecorded(old(store.Db()), store.Db(), scope, haystack, clock, recorded);
  }

  predicate Takable(scope: ScopeId, req: AppendRequest) { scope != "" && req.content != "" }

  /** Everything before is in full batches and could be recorded; the batch from here holds a
      request that cannot be. */
  ghost predicate StoppedAt(haystack: seq<AppendRequest>, scope: ScopeId, n: nat) {
    && n < |haystack| && n % 64 == 0 && (forall i :: 0 <= i < n ==> Takable(scope, haystack[i]))
    && exists i :: n <= i < n + 64 && i < |haystack| && !Takable(scope, haystack[i])
  }

  lemma StopsHere(haystack: seq<AppendRequest>, scope: ScopeId, ticks: nat, start: nat, end: nat)
    requires start < end <= |haystack| && end <= start + MAX_APPEND_BATCH && start == ticks * MAX_APPEND_BATCH
    requires AllValid(haystack, scope, start) && !AllValid(haystack, scope, end)
    ensures StoppedAt(haystack, scope, start)
  {
    ValidMeans(haystack, scope, start);
    var i :| 0 <= i < end && !haystack[i].(scope := scope).Valid();
    assert i >= start && !Takable(scope, haystack[i]);
  }

  lemma ValidMeans(haystack: seq<AppendRequest>, scope: ScopeId, n: nat)
    requires n <= |haystack| && AllValid(haystack, scope, n)
    ensures forall i :: 0 <= i < n ==> Takable(scope, haystack[i])
  {
    forall i | 0 <= i < n ensures Takable(scope, haystack[i]) { assert haystack[i].(scope := scope).Valid(); }
  }

  /** The scope's k-th episode says what this request does. */
  ghost predicate RecordedAt(db: T.Db, scope: ScopeId, k: int, req: AppendRequest, at: Instant) {
    exists e :: e in db.episodes && db.episodes[e].scope == scope && db.episodes[e].seqNo == k && Records(db.episodes[e].body, req, at)
  }

  lemma AllRecorded(db: T.Db, db': T.Db, scope: ScopeId, haystack: seq<AppendRequest>, clock: nat -> Instant, n: nat)
    requires n <= |haystack| && Grew(db, db', scope, History(haystack, clock)[..n])
    ensures forall i :: 0 <= i < n ==> RecordedAt(db', scope, T.LastSeq(db, scope) + 1 + i, haystack[i], clock(i / 64))
  {
    var all, base := History(haystack, clock)[..n], T.LastSeq(db, scope);
    forall i | 0 <= i < n ensures RecordedAt(db', scope, base + 1 + i, haystack[i], clock(i / 64)) {
      assert all[i] == haystack[i].Body(clock(i / MAX_APPEND_BATCH));
      assert SaysAt(db', scope, base + 1 + i, all[i]);
    }
  }

  lemma BatchIsSlice(haystack: seq<AppendRequest>, scope: ScopeId, clock: nat -> Instant, ticks: nat, start: nat, end: nat)
    requires start < end <= |haystack| && start == ticks * MAX_APPEND_BATCH && end <= start + MAX_APPEND_BATCH
    ensures RequestBodies(Rescoped(haystack[start..end], scope), clock(ticks)) == History(haystack, clock)[start..end]
    ensures History(haystack, clock)[..start] + History(haystack, clock)[start..end] == History(haystack, clock)[..end]
  {
    forall i | 0 <= i < end - start
      ensures RequestBodies(Rescoped(haystack[start..end], scope), clock(ticks))[i] == History(haystack, clock)[start..end][i]
    {
      assert (start + i) / MAX_APPEND_BATCH == ticks;
      assert haystack[start..end][i] == haystack[start + i];
      assert History(haystack, clock)[start + i] == haystack[start + i].Body(clock((start + i) / MAX_APPEND_BATCH));
    }
  }

  lemma FreshScopeIndexes(db: T.Db, db': T.Db, scope: ScopeId, haystack: seq<AppendRequest>, clock: nat -> Instant, n: nat)
    requires Inv(db) && Inv(db') && n <= |haystack| && Grew(db, db', scope, History(haystack, clock)[..n])
    ensures T.LastSeq(db, scope) == 0 ==> SeqIsIndex(db', scope, haystack, clock, n)
  {
    if T.LastSeq(db, scope) == 0 {
      forall e | e in db'.episodes && db'.episodes[e].scope == scope
        ensures 1 <= db'.episodes[e].seqNo <= n
        ensures Records(db'.episodes[e].body, haystack[db'.episodes[e].seqNo - 1], clock((db'.episodes[e].seqNo - 1) / 64))
      {
        var k, b := db'.episodes[e].seqNo, db'.episodes[e].body;
        assert SaysAt(db', scope, k, b);
        assert History(haystack, clock)[..n][k - 1] == haystack[k - 1].Body(clock((k - 1) / MAX_APPEND_BATCH));
      }
    }
  }
}
