/** When the encodings catch up with the log. A process that wrote an encoding believes it is
    there; dropping the encodings under it makes that belief stale, and its job's success a
    false report. Staleness is exactly what can keep a covered episode from being encoded. */
module Staleness {
  import opened Model
  import opened Tables
  import opened Invariants
  import opened Histories
  import opened QueueHistories
  import opened Backfill
  import opened Workers
  import opened S = Store

  ghost predicate NoDrop(actions: seq<Action>) { forall i :: 0 <= i < |actions| ==> !Drops(actions[i]) }

  predicate Encoded(cfg: Config, db: Db, e: Id) { (e, cfg.model) in db.encodings }

  lemma {:induction false} ActsJoin(cfg: Config, sys: Sys, xs: seq<Action>, ys: seq<Action>)
    ensures Acts(cfg, sys, xs + ys) == Acts(cfg, Acts(cfg, sys, xs), ys)
    decreases |xs|
  {
    if xs == [] {
      assert xs + ys == ys;
    } else {
      assert (xs + ys)[0] == xs[0] && (xs + ys)[1..] == xs[1..] + ys;
      hide Act;
      ActsJoin(cfg, Act(cfg, sys, xs[0]), xs[1..], ys);
    }
  }

  // ---- What stands, and what was written ---------------------------------------

  /** This step stores the episode's vector. */
  predicate WritesAt(cfg: Config, sys: Sys, a: Action, e: Id) {
    && a.WriteNext? && e in sys.db.episodes
    && DbOp(cfg, sys, a).Some? && DbOp(cfg, sys, a).value.OpPutEncoding? && DbOp(cfg, sys, a).value.episode == e
  }

  /** Some process wrote it, and nothing was dropped after. */
  ghost predicate WrittenSinceDrop(cfg: Config, sys: Sys, actions: seq<Action>, e: Id)
    decreases |actions|
  {
    actions != [] &&
    ((WritesAt(cfg, sys, actions[0], e) && NoDrop(actions[1..])) || WrittenSinceDrop(cfg, Act(cfg, sys, actions[0]), actions[1..], e))
  }

  lemma EpisodeBack(cfg: Config, sys: Sys, a: Action, e: Id)
    requires SysInv(cfg, sys) && e < sys.db.minted
    ensures e in Act(cfg, sys, a).db.episodes ==> e in sys.db.episodes && Act(cfg, sys, a).db.episodes[e] == sys.db.episodes[e]
    ensures sys.db.minted <= Act(cfg, sys, a).db.minted
  {
    ActDb(cfg, sys, a);
    hide Act, DbOp, Next;
    if DbOp(cfg, sys, a).Some? {
      EpisodeStep(sys.db, DbOp(cfg, sys, a).value, e);
      LogStep(sys.db, DbOp(cfg, sys, a).value);
    }
  }

  lemma EncodedStep(cfg: Config, sys: Sys, a: Action, e: Id)
    requires SysInv(cfg, sys) && e < sys.db.minted && e in Act(cfg, sys, a).db.episodes
    ensures Encoded(cfg, Act(cfg, sys, a).db, e) <==> (Encoded(cfg, sys.db, e) && !Drops(a)) || WritesAt(cfg, sys, a, e)
  {
    ActDb(cfg, sys, a);
    EpisodeBack(cfg, sys, a, e);
    WhoWrites(cfg, sys, a);
    var op := DbOp(cfg, sys, a);
    hide Act, Next, DbOp, SysInv;
    if op.Some? {
      OpTouches(sys.db, op.value);
      if Encoded(cfg, sys.db, e) && !op.value.OpDropEncodings? { KeepsEncoding(cfg, sys, op.value, e); }
      if Encoded(cfg, Next(sys.db, op.value), e) { HadEncoding(cfg, sys, op.value, e); }
    }
  }

  lemma KeepsEncoding(cfg: Config, sys: Sys, op: Op, e: Id)
    requires SysInv(cfg, sys) && Encoded(cfg, sys.db, e) && !op.OpDropEncodings? && e in Next(sys.db, op).episodes
    ensures Encoded(cfg, Next(sys.db, op), e)
  {
    EncodingPersists(sys.db, op, e, cfg.model);
  }

  lemma HadEncoding(cfg: Config, sys: Sys, op: Op, e: Id)
    requires SysInv(cfg, sys) && Encoded(cfg, Next(sys.db, op), e) && e in Next(sys.db, op).episodes
    ensures Encoded(cfg, sys.db, e) || (op.OpPutEncoding? && op.model == cfg.model && op.episode == e && e in sys.db.episodes)
  {
    EncodingRow(sys.db, op, e, cfg.model);
  }

  /** Encodings of the model are written by worker processes alone. */
  lemma WhoWrites(cfg: Config, sys: Sys, a: Action)
    ensures var op := DbOp(cfg, sys, a);
      && (op.Some? && op.value.OpPutEncoding? && op.value.model == cfg.model ==> a.WriteNext?)
      && (a.WriteNext? && op.Some? ==> op.value.OpPutEncoding? && op.value.model == cfg.model)
      && (op.Some? && op.value.OpDropEncodings? <==> Drops(a))
  {}

  /** What is encoded is exactly what was written since the last drop: a surviving episode
      has its vector at the end of a run if and only if some process wrote it with no drop
      after, or it had it from the start and nothing was dropped at all. */
  lemma {:induction false} EncodedIffWritten(cfg: Config, sys: Sys, actions: seq<Action>, e: Id)
    requires SysInv(cfg, sys) && e < sys.db.minted && e in Acts(cfg, sys, actions).db.episodes
    ensures Encoded(cfg, Acts(cfg, sys, actions).db, e) <==>
      WrittenSinceDrop(cfg, sys, actions, e) || (Encoded(cfg, sys.db, e) && NoDrop(actions))
    decreases |actions|
  {
    if actions != [] {
      var a, rest, mid := actions[0], actions[1..], Act(cfg, sys, actions[0]);
      ActKeeps(cfg, sys, a);
      EpisodeBack(cfg, sys, a, e);
      SurvivorWasThere(cfg, mid, rest, e);
      EncodedStep(cfg, sys, a, e);
      EncodedIffWritten(cfg, mid, rest, e);
      assert NoDrop(actions) <==> !Drops(a) && NoDrop(rest) by { assert forall i :: 0 <= i < |rest| ==> rest[i] == actions[i + 1]; }
      hide Act, SysInv, WritesAt, Encoded;
    }
  }

  lemma {:induction false} SurvivorWasThere(cfg: Config, sys: Sys, actions: seq<Action>, e: Id)
    requires SysInv(cfg, sys) && e < sys.db.minted && e in Acts(cfg, sys, actions).db.episodes
    ensures e in sys.db.episodes && Acts(cfg, sys, actions).db.episodes[e] == sys.db.episodes[e]
    decreases |actions|
  {
    if actions != [] {
      hide Act, SysInv;
      ActKeeps(cfg, sys, actions[0]);
      EpisodeBack(cfg, sys, actions[0], e);
      SurvivorWasThere(cfg, Act(cfg, sys, actions[0]), actions[1..], e);
    }
  }

  // ---- Staleness --------------------------------------------------------------

  ghost predicate WrittenIn(read: seq<Episode>, n: int, e: Id) { exists i :: 0 <= i < n <= |read| && read[i].id == e }

  /** Everything still to be written is there to be written, and is something else. */
  ghost predicate Finishes(db: Db, read: seq<Episode>, n: int, e: Id) {
    forall i :: 0 <= n <= i < |read| ==> read[i].id in db.episodes && read[i].id != e
  }

  /** At the head of its batch the process has this encode job, has written this episode, and
      will report the job done without writing it again. */
  ghost predicate Stale(db: Db, proc: Proc, j: Id, e: Id) {
    && proc.batch != [] && proc.batch[0].0 == j && Head(proc).kind == Encode && e in Head(proc).episodes
    && match proc.phase
       case Writing(read, written) => WrittenIn(read, written, e) && Finishes(db, read, written, e)
       case Reporting(ok) => ok
       case _ => false
  }

  ghost predicate NobodyStale(sys: Sys, j: Id, e: Id) { forall p :: p in sys.procs ==> !Stale(sys.db, sys.procs[p], j, e) }

  /** An encode job naming the episode, if the job is there at all. */
  predicate NamesIt(db: Db, j: Id, e: Id) {
    j < db.minted && e < db.minted && (j in db.jobs ==> db.jobs[j].kind == Encode && e in db.jobs[j].episodes)
  }

  predicate IsDone(db: Db, j: Id) { j in db.jobs && db.jobs[j].state.Done? }

  /** The episode is gone, encoded, or has this job still to come with nobody stale on it. */
  ghost predicate Sound(cfg: Config, sys: Sys, j: Id, e: Id) {
    e in sys.db.episodes ==> Encoded(cfg, sys.db, e) || (!IsDone(sys.db, j) && NobodyStale(sys, j, e))
  }

  lemma NamesItStep(cfg: Config, sys: Sys, a: Action, j: Id, e: Id)
    requires SysInv(cfg, sys) && NamesIt(sys.db, j, e)
    ensures NamesIt(Act(cfg, sys, a).db, j, e)
  {
    ActDb(cfg, sys, a);
    EpisodeBack(cfg, sys, a, e);
    hide Act, DbOp, Next, SysInv;
    if DbOp(cfg, sys, a).Some? && j in Next(sys.db, DbOp(cfg, sys, a).value).jobs { WorkNeverChanges(sys.db, DbOp(cfg, sys, a).value, j); }
  }

  /** A job gets done only by a process that reports it, and that process is stale on
      everything of it that is not encoded. */
  lemma DoneByStale(cfg: Config, sys: Sys, a: Action, j: Id, e: Id)
    requires SysInv(cfg, sys) && NamesIt(sys.db, j, e) && !IsDone(sys.db, j) && IsDone(Act(cfg, sys, a).db, j)
    ensures !NobodyStale(sys, j, e)
  {
    ActDb(cfg, sys, a);
    ReportedBy(cfg, sys, a, j);
    var proc := sys.procs[a.p];
    assert ProcOk(sys.db, proc);
    assert CopyOk(sys.db, proc.batch[0].0, proc.batch[0].1);
    assert Stale(sys.db, proc, j, e);
  }

  lemma ReportedBy(cfg: Config, sys: Sys, a: Action, j: Id)
    requires j < sys.db.minted && (j in sys.db.jobs ==> sys.db.jobs[j].kind == Encode)
    requires !IsDone(sys.db, j) && IsDone(DbAfter(sys.db, DbOp(cfg, sys, a)), j)
    ensures j in sys.db.jobs && a.Report? && Busy(sys, a.p) && sys.procs[a.p].phase == Reporting(true) && sys.procs[a.p].batch[0].0 == j
  {
    var op := DbOp(cfg, sys, a);
    DoneByReport(sys.db, op.value, j);
    hide Next;
    SucceedsOnly(cfg, sys, a);
  }

  lemma SucceedsOnly(cfg: Config, sys: Sys, a: Action)
    ensures var op := DbOp(cfg, sys, a);
      op.Some? && op.value.OpSucceed? ==>
        (a.Report? && Busy(sys, a.p) && sys.procs[a.p].phase == Reporting(true) && sys.procs[a.p].batch[0].0 == op.value.id)
        || (op.value.id in sys.db.jobs ==> sys.db.jobs[op.value.id].kind == Extract)
  {}

  /** A process becomes stale only by writing, and what it writes is encoded. */
  lemma StaleBefore(cfg: Config, sys: Sys, a: Action, p: nat, j: Id, e: Id)
    requires SysInv(cfg, sys) && e in sys.db.episodes && p in Act(cfg, sys, a).procs
    requires Stale(Act(cfg, sys, a).db, Act(cfg, sys, a).procs[p], j, e)
    ensures p in sys.procs && (Stale(sys.db, sys.procs[p], j, e) || WritesAt(cfg, sys, a, e))
  {
    var after := Act(cfg, sys, a);
    assert p in sys.procs ==> ProcOk(sys.db, sys.procs[p]);
    if p in sys.procs && after.procs[p] == sys.procs[p] {
      if sys.procs[p].phase.Writing? { FinishesBefore(cfg, sys, a, sys.procs[p], e); }
    } else if a.WriteNext? && a.p == p && Busy(sys, p) && sys.procs[p].phase.Writing? {
      WritingBefore(cfg, sys, p, a.at, j, e);
    } else {
      OthersStartClean(cfg, sys, a, p, j, e);
    }
  }

  lemma FinishesBefore(cfg: Config, sys: Sys, a: Action, proc: Proc, e: Id)
    requires SysInv(cfg, sys) && ProcOk(sys.db, proc) && proc.phase.Writing?
    requires Finishes(Act(cfg, sys, a).db, proc.phase.read, proc.phase.written, e)
    ensures Finishes(sys.db, proc.phase.read, proc.phase.written, e)
  {
    var (read, w) := (proc.phase.read, proc.phase.written);
    forall i | 0 <= w <= i < |read| ensures read[i].id in sys.db.episodes {
      assert ReadOk(sys.db, read[i]);
      EpisodeBack(cfg, sys, a, read[i].id);
    }
  }

  lemma WritingBefore(cfg: Config, sys: Sys, p: nat, at: Instant, j: Id, e: Id)
    requires SysInv(cfg, sys) && e in sys.db.episodes && Busy(sys, p) && sys.procs[p].phase.Writing?
    requires Stale(DoWrite(cfg, sys, p, at).db, DoWrite(cfg, sys, p, at).procs[p], j, e)
    ensures Stale(sys.db, sys.procs[p], j, e) || WritesAt(cfg, sys, WriteNext(p, at), e)
  {
    var proc := sys.procs[p];
    var (read, w) := (proc.phase.read, proc.phase.written);
    assert ProcOk(sys.db, proc);
    WrittenAfter(cfg, sys, p, at);
    if w < |read| {
      assert ReadOk(sys.db, read[w]);
      if read[w].id != e && read[w].id in sys.db.episodes {
        var i :| 0 <= i < w + 1 <= |read| && read[i].id == e;
        assert WrittenIn(read, w, e);
        assert Finishes(sys.db, read, w, e);
      }
    } else {
      var i :| 0 <= i < |read| && Head(proc).episodes[i] == e;
      assert read[i].id == e && WrittenIn(read, w, e);
    }
  }

  lemma WrittenAfter(cfg: Config, sys: Sys, p: nat, at: Instant)
    requires Busy(sys, p) && sys.procs[p].phase.Writing?
    ensures var (proc, after) := (sys.procs[p], DoWrite(cfg, sys, p, at));
      var (read, w) := (proc.phase.read, proc.phase.written);
      && after.db.episodes == sys.db.episodes
      && after.procs[p] == proc.(phase :=
           if w >= |read| then Reporting(true)
           else if read[w].id in sys.db.episodes then Writing(read, w + 1) else Reporting(false))
  {}

  lemma OthersStartClean(cfg: Config, sys: Sys, a: Action, p: nat, j: Id, e: Id)
    requires p in Act(cfg, sys, a).procs && !(p in sys.procs && Act(cfg, sys, a).procs[p] == sys.procs[p])
    requires !(a.WriteNext? && a.p == p && Busy(sys, p) && sys.procs[p].phase.Writing?)
    ensures !Stale(Act(cfg, sys, a).db, Act(cfg, sys, a).procs[p], j, e)
  {
    hide Next, ClientMay, Claimed;
    match a
    case ReadNext(q) => ReadMoves(sys, q, p);
    case LeaseBatch(q, req, locked, order) => LeaseMoves(sys, q, req, locked, order, p);
    case WriteNext(q, at) => WriteMoves(cfg, sys, q, at, p);
    case _ =>
  }

  lemma ReadMoves(sys: Sys, q: nat, p: nat)
    requires p in DoRead(sys, q).procs && !(p in sys.procs && DoRead(sys, q).procs[p] == sys.procs[p])
    ensures DoRead(sys, q).procs[p].phase.Reading? || DoRead(sys, q).procs[p].phase == Reporting(false)
  {}

  lemma LeaseMoves(sys: Sys, q: nat, req: LeaseRequest, locked: set<Id>, order: seq<Id>, p: nat)
    requires p in DoLease(sys, q, req, locked, order).procs
    requires !(p in sys.procs && DoLease(sys, q, req, locked, order).procs[p] == sys.procs[p])
    ensures DoLease(sys, q, req, locked, order).procs[p].phase == Ready
  {}

  lemma WriteMoves(cfg: Config, sys: Sys, q: nat, at: Instant, p: nat)
    ensures p in DoWrite(cfg, sys, q, at).procs && !(p in sys.procs && DoWrite(cfg, sys, q, at).procs[p] == sys.procs[p])
      ==> q == p && Busy(sys, q) && sys.procs[q].phase.Writing?
  {}

  lemma SoundStep(cfg: Config, sys: Sys, a: Action, j: Id, e: Id)
    requires SysInv(cfg, sys) && NamesIt(sys.db, j, e) && Sound(cfg, sys, j, e) && !Drops(a)
    ensures Sound(cfg, Act(cfg, sys, a), j, e)
  {
    var after := Act(cfg, sys, a);
    EpisodeBack(cfg, sys, a, e);
    if e in after.db.episodes {
      EncodedStep(cfg, sys, a, e);
      if !Encoded(cfg, after.db, e) {
        if IsDone(after.db, j) { DoneByStale(cfg, sys, a, j, e); }
        forall p | p in after.procs ensures !Stale(after.db, after.procs[p], j, e) {
          if Stale(after.db, after.procs[p], j, e) { StaleBefore(cfg, sys, a, p, j, e); }
        }
      }
    }
    hide Act, SysInv, Stale, WritesAt, Encoded, DbOp;
  }

  // ---- Done at some time --------------------------------------------------------

  /** The job was done in some state of the run, whatever became of its row since. */
  predicate EverDone(cfg: Config, sys: Sys, actions: seq<Action>, j: Id)
    decreases |actions|
  {
    IsDone(sys.db, j) || (actions != [] && EverDone(cfg, Act(cfg, sys, actions[0]), actions[1..], j))
  }

  lemma {:induction false} StaysEncoded(cfg: Config, sys: Sys, actions: seq<Action>, e: Id)
    requires SysInv(cfg, sys) && e < sys.db.minted && NoDrop(actions) && (e in sys.db.episodes ==> Encoded(cfg, sys.db, e))
    ensures e in Acts(cfg, sys, actions).db.episodes ==> Encoded(cfg, Acts(cfg, sys, actions).db, e)
  {
    if e in Acts(cfg, sys, actions).db.episodes {
      SurvivorWasThere(cfg, sys, actions, e);
      EncodedIffWritten(cfg, sys, actions, e);
    }
  }

  /** Where a job naming an episode is sound, once it has been done the episode is encoded. */
  lemma {:induction false} SoundOnceDone(cfg: Config, sys: Sys, actions: seq<Action>, j: Id, e: Id)
    requires SysInv(cfg, sys) && NamesIt(sys.db, j, e) && Sound(cfg, sys, j, e) && NoDrop(actions)
    requires EverDone(cfg, sys, actions, j)
    ensures e in Acts(cfg, sys, actions).db.episodes ==> Encoded(cfg, Acts(cfg, sys, actions).db, e)
    decreases |actions|
  {
    if IsDone(sys.db, j) {
      StaysEncoded(cfg, sys, actions, e);
    } else {
      assert NoDrop(actions[1..]) by { assert forall i :: 0 <= i < |actions[1..]| ==> actions[1..][i] == actions[i + 1]; }
      hide Act, SysInv, Sound, NamesIt, Encoded;
      ActKeeps(cfg, sys, actions[0]);
      SoundStep(cfg, sys, actions[0], j, e);
      NamesItStep(cfg, sys, actions[0], j, e);
      SoundOnceDone(cfg, Act(cfg, sys, actions[0]), actions[1..], j, e);
    }
  }

  // ---- What a stale process can do ----------------------------------------------

  /** Nothing happened but to one process and one job, and the episode is still not encoded. */
  ghost predicate Spared(cfg: Config, sys: Sys, sys': Sys, p: nat, j: Id, e: Id) {
    && sys'.db.episodes == sys.db.episodes && sys'.db.minted == sys.db.minted && !Encoded(cfg, sys'.db, e)
    && (forall i :: i in sys.db.jobs && i != j ==> i in sys'.db.jobs && sys'.db.jobs[i] == sys.db.jobs[i])
    && (forall q :: q in sys.procs && q != p ==> q in sys'.procs && sys'.procs[q] == sys.procs[q])
    && p in sys'.procs && j in sys'.db.jobs
  }

  lemma SparedJoin(cfg: Config, a: Sys, b: Sys, c: Sys, p: nat, j: Id, e: Id)
    requires Spared(cfg, a, b, p, j, e) && Spared(cfg, b, c, p, j, e)
    ensures Spared(cfg, a, c, p, j, e)
  {}

  /** One client operation on the job's row alone. */
  lemma ClientSpares(cfg: Config, sys: Sys, op: Op, p: nat, j: Id, e: Id, job: Job)
    requires SysInv(cfg, sys) && j in sys.db.jobs && p in sys.procs && !Encoded(cfg, sys.db, e)
    requires ClientMay(cfg, sys.db, op) && Next(sys.db, op) == sys.db.(jobs := sys.db.jobs[j := job])
    ensures var sys' := Act(cfg, sys, Client(op));
      SysInv(cfg, sys') && Spared(cfg, sys, sys', p, j, e) && sys'.procs == sys.procs && sys'.db.jobs[j] == job
  {
    ActKeeps(cfg, sys, Client(op));
    hide SysInv, Next;
  }

  lemma FailOnce(db: Db, j: Id, w: WorkerId)
    requires j in db.jobs && db.jobs[j].HeldBy(w)
    ensures Next(db, OpFail(j, w, 0, 0)) == db.(jobs := db.jobs[j := Released(db.jobs[j], 0, Some(0))])
  {}

  lemma RetryOnce(db: Db, j: Id)
    requires j in db.jobs && db.jobs[j].state.Dead? && !InFlight(db.jobs, db.jobs[j].kind, db.jobs[j].scope, db.jobs[j].episodes)
    ensures Next(db, OpRetry(j, 0)).jobs[j].state.Pending?
    ensures Next(db, OpRetry(j, 0)) == db.(jobs := db.jobs[j := Next(db, OpRetry(j, 0)).jobs[j]])
  {}

  /** Any outstanding job can be made to wait: failed by whoever holds it, revived if that killed it. */
  lemma MakePending(cfg: Config, sys: Sys, p: nat, j: Id, e: Id) returns (actions: seq<Action>)
    requires SysInv(cfg, sys) && p in sys.procs && j in sys.db.jobs && sys.db.jobs[j].Outstanding() && !Encoded(cfg, sys.db, e)
    ensures NoDrop(actions)
    ensures var sys' := Acts(cfg, sys, actions);
      && SysInv(cfg, sys') && Spared(cfg, sys, sys', p, j, e) && sys'.procs == sys.procs && sys'.db.jobs[j].state.Pending?
  {
    actions := [];
    if sys.db.jobs[j].state.Running? {
      assert JobOk(sys.db.jobs[j]);
      var w := sys.db.jobs[j].leasedBy.value;
      var fail := Client(OpFail(j, w, 0, 0));
      FailOnce(sys.db, j, w);
      ClientSpares(cfg, sys, OpFail(j, w, 0, 0), p, j, e, Released(sys.db.jobs[j], 0, Some(0)));
      var mid := Act(cfg, sys, fail);
      actions := [fail];
      ActsOne(cfg, sys, fail);
      if mid.db.jobs[j].state.Dead? {
        NotInFlight(sys.db, mid.db, j);
        RetryOnce(mid.db, j);
        ClientSpares(cfg, mid, OpRetry(j, 0), p, j, e, Next(mid.db, OpRetry(j, 0)).jobs[j]);
        SparedJoin(cfg, sys, mid, Act(cfg, mid, Client(OpRetry(j, 0))), p, j, e);
        actions := [fail] + [Client(OpRetry(j, 0))];
        ActsJoin(cfg, sys, [fail], [Client(OpRetry(j, 0))]);
        ActsOne(cfg, mid, Client(OpRetry(j, 0)));
      }
    }
    hide SysInv, Act, Next;
  }

  lemma ActsOne(cfg: Config, sys: Sys, a: Action)
    ensures Acts(cfg, sys, [a]) == Act(cfg, sys, a)
  {
    assert [a][1..] == [];
    assert Acts(cfg, Act(cfg, sys, a), []) == Act(cfg, sys, a);
    hide Act;
  }

  lemma NotInFlight(db: Db, db': Db, j: Id)
    requires QueueInv(db) && j in db.jobs && db.jobs[j].Outstanding() && j in db'.jobs && !db'.jobs[j].Outstanding()
    requires db'.jobs == db.jobs[j := db'.jobs[j]]
    requires db'.jobs[j].SameWork(db.jobs[j].kind, db.jobs[j].scope, db.jobs[j].episodes)
    ensures !InFlight(db'.jobs, db'.jobs[j].kind, db'.jobs[j].scope, db'.jobs[j].episodes)
  {}

  /** The one row not locked is claimed if it can be. */
  lemma ClaimsUnlocked(jobs: map<Id, Job>, req: LeaseRequest, j: Id)
    requires j in jobs && Claimable(jobs[j], req)
    ensures Claimed(jobs, req, jobs.Keys - {j}) == {j}
  {
    var cs := Candidates(jobs, req, jobs.Keys - {j});
    assert cs == {j} && Ahead(jobs, cs, j) == {};
  }

  lemma FreshProcess(procs: map<nat, Proc>) returns (q: nat)
    ensures q !in procs
  {
    q := Above(procs.Keys);
  }

  lemma {:induction false} Above(ns: set<nat>) returns (q: nat)
    ensures forall n :: n in ns ==> n < q
  {
    q := 0;
    if ns != {} {
      var n :| n in ns;
      var r := Above(ns - {n});
      q := if n < r then r else n + 1;
      assert forall m :: m in ns ==> m == n || m in ns - {n};
    }
  }

  /** A waiting job can be leased under any worker id, by a process of its own. */
  lemma LeaseAs(cfg: Config, sys: Sys, p: nat, w: WorkerId, j: Id, e: Id) returns (actions: seq<Action>)
    requires SysInv(cfg, sys) && p in sys.procs && j in sys.db.jobs && sys.db.jobs[j].state.Pending? && !Encoded(cfg, sys.db, e)
    ensures NoDrop(actions)
    ensures var sys' := Acts(cfg, sys, actions);
      && SysInv(cfg, sys') && Spared(cfg, sys, sys', p, j, e) && sys'.procs[p] == sys.procs[p] && sys'.db.jobs[j].HeldBy(w)
  {
    var q := FreshProcess(sys.procs);
    var req := LeaseRequest({}, w, 1, 1, sys.db.jobs[j].runAfter);
    var locked := sys.db.jobs.Keys - {j};
    var start, claim := Start(q, w), LeaseBatch(q, req, locked, [j]);
    WaitingIsClaimed(cfg, sys, req, j);
    hide SysInv, Next, Act, DoLease, Claimed, Encoded;
    var mid := sys.(procs := sys.procs[q := Proc(w, [], Ready)]);
    StartsAndLeases(cfg, sys, q, req, locked, j);
    ActKeeps(cfg, sys, start);
    ActKeeps(cfg, mid, claim);
    LeaseSpares(cfg, sys, mid, q, req, locked, p, j, e);
    ActsJoin(cfg, sys, [start], [claim]);
    ActsOne(cfg, sys, start);
    ActsOne(cfg, mid, claim);
    actions := [start] + [claim];
    hide Acts, Spared;
  }

  lemma WaitingIsClaimed(cfg: Config, sys: Sys, req: LeaseRequest, j: Id)
    requires SysInv(cfg, sys) && j in sys.db.jobs && sys.db.jobs[j].state.Pending?
    requires req.kinds == {} && req.now == sys.db.jobs[j].runAfter
    ensures Claimed(sys.db.jobs, req, sys.db.jobs.Keys - {j}) == {j}
  {
    assert JobOk(sys.db.jobs[j]);
    ClaimsUnlocked(sys.db.jobs, req, j);
  }

  lemma StartsAndLeases(cfg: Config, sys: Sys, q: nat, req: LeaseRequest, locked: set<Id>, j: Id)
    requires q !in sys.procs
    ensures var mid := sys.(procs := sys.procs[q := Proc(req.worker, [], Ready)]);
      && Act(cfg, sys, Start(q, req.worker)) == mid
      && Act(cfg, mid, LeaseBatch(q, req, locked, [j])) == DoLease(mid, q, req, locked, [j])
  {
    hide DoLease;
  }

  lemma LeaseSpares(cfg: Config, sys: Sys, mid: Sys, q: nat, req: LeaseRequest, locked: set<Id>, p: nat, j: Id, e: Id)
    requires p in sys.procs && q !in sys.procs && mid == sys.(procs := sys.procs[q := Proc(req.worker, [], Ready)])
    requires j in sys.db.jobs && Claimed(sys.db.jobs, req, locked) == {j} && !Encoded(cfg, sys.db, e)
    ensures var sys' := DoLease(mid, q, req, locked, [j]);
      && Spared(cfg, sys, sys', p, j, e) && sys'.procs[p] == sys.procs[p]
      && sys'.db.jobs[j] == Leased(sys.db.jobs[j], req)
  {
    assert (set i | i in [j]) == {j};
  }

  /** So a stale process can always come to hold its job again, by its worker id. */
  lemma MakeHeld(cfg: Config, sys: Sys, p: nat, j: Id, e: Id) returns (actions: seq<Action>)
    requires SysInv(cfg, sys) && p in sys.procs && j in sys.db.jobs && sys.db.jobs[j].Outstanding() && !Encoded(cfg, sys.db, e)
    ensures NoDrop(actions)
    ensures var sys' := Acts(cfg, sys, actions);
      && SysInv(cfg, sys') && Spared(cfg, sys, sys', p, j, e) && sys'.procs[p] == sys.procs[p]
      && sys'.db.jobs[j].HeldBy(sys.procs[p].worker)
  {
    hide SysInv, Act, Next;
    var xs := MakePending(cfg, sys, p, j, e);
    var mid := Acts(cfg, sys, xs);
    var ys := LeaseAs(cfg, mid, p, sys.procs[p].worker, j, e);
    SparedJoin(cfg, sys, mid, Acts(cfg, mid, ys), p, j, e);
    ActsJoin(cfg, sys, xs, ys);
    actions := xs + ys;
  }

  /** And write out what is left. */
  lemma {:induction false} WriteOut(cfg: Config, sys: Sys, p: nat, j: Id, e: Id) returns (actions: seq<Action>)
    requires SysInv(cfg, sys) && Busy(sys, p) && sys.procs[p].phase.Writing? && sys.procs[p].phase.written <= |sys.procs[p].phase.read|
    requires j in sys.db.jobs && !Encoded(cfg, sys.db, e) && Finishes(sys.db, sys.procs[p].phase.read, sys.procs[p].phase.written, e)
    ensures NoDrop(actions)
    ensures var sys' := Acts(cfg, sys, actions);
      && SysInv(cfg, sys') && Spared(cfg, sys, sys', p, j, e)
      && sys'.procs[p] == sys.procs[p].(phase := Reporting(true)) && sys'.db.jobs == sys.db.jobs
    decreases |sys.procs[p].phase.read| - sys.procs[p].phase.written
  {
    hide SysInv, Act, DoWrite, Next, Encoded;
    var (read, n) := (sys.procs[p].phase.read, sys.procs[p].phase.written);
    var a := WriteNext(p, 0);
    var mid := Act(cfg, sys, a);
    WritesOne(cfg, sys, p);
    WrittenAfter(cfg, sys, p, 0);
    WriteSpares(cfg, sys, p, j, e);
    ActKeeps(cfg, sys, a);
    ActsOne(cfg, sys, a);
    actions := [a];
    if n < |read| {
      assert Finishes(mid.db, read, n + 1, e);
      var rest := WriteOut(cfg, mid, p, j, e);
      SparedJoin(cfg, sys, mid, Acts(cfg, mid, rest), p, j, e);
      ActsJoin(cfg, sys, [a], rest);
      actions := [a] + rest;
    }
    hide Acts, Spared;
  }

  lemma WritesOne(cfg: Config, sys: Sys, p: nat)
    ensures Act(cfg, sys, WriteNext(p, 0)) == DoWrite(cfg, sys, p, 0)
  {}

  lemma WriteSpares(cfg: Config, sys: Sys, p: nat, j: Id, e: Id)
    requires Busy(sys, p) && sys.procs[p].phase.Writing? && j in sys.db.jobs && !Encoded(cfg, sys.db, e)
    requires Finishes(sys.db, sys.procs[p].phase.read, sys.procs[p].phase.written, e)
    ensures Spared(cfg, sys, DoWrite(cfg, sys, p, 0), p, j, e) && DoWrite(cfg, sys, p, 0).db.jobs == sys.db.jobs
  {}

  /** A stale process can report its job done with the episode still not encoded, disturbing
      no other job and no other process. */
  lemma FinishStale(cfg: Config, sys: Sys, p: nat, j: Id, e: Id) returns (actions: seq<Action>)
    requires SysInv(cfg, sys) && p in sys.procs && Stale(sys.db, sys.procs[p], j, e)
    requires j in sys.db.jobs && sys.db.jobs[j].Outstanding() && !Encoded(cfg, sys.db, e)
    ensures NoDrop(actions)
    ensures var sys' := Acts(cfg, sys, actions); SysInv(cfg, sys') && Spared(cfg, sys, sys', p, j, e) && IsDone(sys'.db, j)
  {
    hide SysInv, Act, Next, Stale;
    var xs := MakeHeld(cfg, sys, p, j, e);
    var held := Acts(cfg, sys, xs);
    StaleStands(sys.db, held.db, sys.procs[p], j, e);
    var ys := ReportHeld(cfg, held, p, j, e);
    SparedJoin(cfg, sys, held, Acts(cfg, held, ys), p, j, e);
    ActsJoin(cfg, sys, xs, ys);
    actions := xs + ys;
  }

  lemma StaleStands(db: Db, db': Db, proc: Proc, j: Id, e: Id)
    requires db'.episodes == db.episodes
    ensures Stale(db', proc, j, e) <==> Stale(db, proc, j, e)
  {}

  lemma ReportHeld(cfg: Config, sys: Sys, p: nat, j: Id, e: Id) returns (actions: seq<Action>)
    requires SysInv(cfg, sys) && p in sys.procs && Stale(sys.db, sys.procs[p], j, e)
    requires j in sys.db.jobs && sys.db.jobs[j].HeldBy(sys.procs[p].worker) && !Encoded(cfg, sys.db, e)
    ensures NoDrop(actions)
    ensures var sys' := Acts(cfg, sys, actions); SysInv(cfg, sys') && Spared(cfg, sys, sys', p, j, e) && IsDone(sys'.db, j)
  {
    var ys := ReadyToReport(cfg, sys, p, j, e);
    var ready, report := Acts(cfg, sys, ys), Report(p, 0);
    assert Busy(sys, p) && sys.procs[p].batch[0].0 == j;
    hide SysInv, Next, Stale, Act, DoReport, Encoded;
    ReportSpares(cfg, ready, p, j, e);
    ActKeeps(cfg, ready, report);
    Reports(cfg, ready, p);
    SparedJoin(cfg, sys, ready, Act(cfg, ready, report), p, j, e);
    ActsOne(cfg, ready, report);
    ActsJoin(cfg, sys, ys, [report]);
    actions := ys + [report];
  }

  lemma Reports(cfg: Config, sys: Sys, p: nat)
    ensures Act(cfg, sys, Report(p, 0)) == DoReport(sys, p, 0)
  {}

  lemma ReadyToReport(cfg: Config, sys: Sys, p: nat, j: Id, e: Id) returns (actions: seq<Action>)
    requires SysInv(cfg, sys) && p in sys.procs && Stale(sys.db, sys.procs[p], j, e)
    requires j in sys.db.jobs && !Encoded(cfg, sys.db, e)
    ensures NoDrop(actions)
    ensures var sys' := Acts(cfg, sys, actions);
      && SysInv(cfg, sys') && Spared(cfg, sys, sys', p, j, e)
      && sys'.procs[p] == sys.procs[p].(phase := Reporting(true)) && sys'.db.jobs == sys.db.jobs
  {
    actions := [];
    if sys.procs[p].phase.Writing? {
      hide SysInv, Act, Next;
      actions := WriteOut(cfg, sys, p, j, e);
    }
  }

  lemma ReportSpares(cfg: Config, sys: Sys, p: nat, j: Id, e: Id)
    requires Busy(sys, p) && sys.procs[p].phase == Reporting(true) && sys.procs[p].batch[0].0 == j
    requires j in sys.db.jobs && sys.db.jobs[j].HeldBy(sys.procs[p].worker) && !Encoded(cfg, sys.db, e)
    ensures Spared(cfg, sys, DoReport(sys, p, 0), p, j, e) && IsDone(DoReport(sys, p, 0).db, j)
  {}

  // ---- Exactly when an episode catches up ----------------------------------------

  /** An outstanding encode job of the scope that names the episode. */
  predicate Names(db: Db, j: Id, scope: ScopeId, e: Id) {
    j in db.jobs && db.jobs[j].Outstanding() && db.jobs[j].kind == Encode && db.jobs[j].scope == scope && e in db.jobs[j].episodes
  }

  ghost predicate AllDone(cfg: Config, sys: Sys, actions: seq<Action>, scope: ScopeId, e: Id) {
    forall j :: Names(sys.db, j, scope, e) ==> EverDone(cfg, sys, actions, j)
  }

  /** Whatever happens short of dropping encodings: once every job that names the episode has
      been done, it is encoded, unless it was erased. */
  ghost predicate CatchesUp(cfg: Config, sys: Sys, scope: ScopeId, e: Id) {
    forall actions :: NoDrop(actions) && AllDone(cfg, sys, actions, scope, e) ==>
      (e in Acts(cfg, sys, actions).db.episodes ==> Encoded(cfg, Acts(cfg, sys, actions).db, e))
  }

  lemma {:induction false} DoneLater(cfg: Config, sys: Sys, xs: seq<Action>, ys: seq<Action>, j: Id)
    ensures EverDone(cfg, sys, xs, j) ==> EverDone(cfg, sys, xs + ys, j)
    ensures EverDone(cfg, Acts(cfg, sys, xs), ys, j) ==> EverDone(cfg, sys, xs + ys, j)
    decreases |xs|
  {
    if xs == [] {
      assert xs + ys == ys;
    } else {
      assert (xs + ys)[0] == xs[0] && (xs + ys)[1..] == xs[1..] + ys;
      hide Act, IsDone;
      DoneLater(cfg, Act(cfg, sys, xs[0]), xs[1..], ys, j);
    }
  }

  lemma {:induction false} DoneAtEnd(cfg: Config, sys: Sys, actions: seq<Action>, j: Id)
    requires IsDone(Acts(cfg, sys, actions).db, j)
    ensures EverDone(cfg, sys, actions, j)
    decreases |actions|
  {
    if actions != [] {
      hide Act;
      DoneAtEnd(cfg, Act(cfg, sys, actions[0]), actions[1..], j);
    }
  }

  ghost predicate SomebodyStale(sys: Sys, j: Id, e: Id) { exists p :: p in sys.procs && Stale(sys.db, sys.procs[p], j, e) }

  /** With a stale process on each of them, a set of jobs can all be done without the episode
      ever being encoded. */
  lemma {:induction false} FinishAll(cfg: Config, sys: Sys, todo: set<Id>, e: Id) returns (actions: seq<Action>)
    requires SysInv(cfg, sys) && e in sys.db.episodes && !Encoded(cfg, sys.db, e)
    requires forall j :: j in todo ==> j in sys.db.jobs && sys.db.jobs[j].Outstanding() && SomebodyStale(sys, j, e)
    ensures NoDrop(actions)
    ensures e in Acts(cfg, sys, actions).db.episodes && !Encoded(cfg, Acts(cfg, sys, actions).db, e)
    ensures forall j :: j in todo ==> EverDone(cfg, sys, actions, j)
    decreases todo
  {
    actions := [];
    if todo != {} {
      hide SysInv, Act, SomebodyStale, Encoded, EverDone, Drops;
      var j :| j in todo;
      var xs := FinishOne(cfg, sys, todo, j, e);
      var mid := Acts(cfg, sys, xs);
      var ys := FinishAll(cfg, mid, todo - {j}, e);
      ActsJoin(cfg, sys, xs, ys);
      forall k | k in todo ensures EverDone(cfg, sys, xs + ys, k) { DoneLater(cfg, sys, xs, ys, k); }
      actions := xs + ys;
    }
  }

  lemma FinishOne(cfg: Config, sys: Sys, todo: set<Id>, j: Id, e: Id) returns (xs: seq<Action>)
    requires SysInv(cfg, sys) && e in sys.db.episodes && !Encoded(cfg, sys.db, e) && j in todo
    requires forall k :: k in todo ==> k in sys.db.jobs && sys.db.jobs[k].Outstanding() && SomebodyStale(sys, k, e)
    ensures NoDrop(xs) && EverDone(cfg, sys, xs, j)
    ensures var mid := Acts(cfg, sys, xs);
      && SysInv(cfg, mid) && e in mid.db.episodes && !Encoded(cfg, mid.db, e)
      && forall k :: k in todo - {j} ==> k in mid.db.jobs && mid.db.jobs[k].Outstanding() && SomebodyStale(mid, k, e)
  {
    hide SysInv, Act, Stale, SomebodyStale, Encoded, EverDone, Drops, IsDone;
    var p := WhoIsStale(sys, j, e);
    xs := FinishStale(cfg, sys, p, j, e);
    var mid := Acts(cfg, sys, xs);
    DoneAtEnd(cfg, sys, xs, j);
    forall k | k in todo - {j} ensures k in mid.db.jobs && mid.db.jobs[k].Outstanding() && SomebodyStale(mid, k, e) {
      OtherStaleStands(cfg, sys, mid, p, j, k, e);
    }
  }

  lemma WhoIsStale(sys: Sys, j: Id, e: Id) returns (p: nat)
    requires SomebodyStale(sys, j, e)
    ensures p in sys.procs && Stale(sys.db, sys.procs[p], j, e)
  {
    p :| p in sys.procs && Stale(sys.db, sys.procs[p], j, e);
  }

  lemma OtherStaleStands(cfg: Config, sys: Sys, mid: Sys, p: nat, j: Id, k: Id, e: Id)
    requires Spared(cfg, sys, mid, p, j, e) && k != j && SomebodyStale(sys, k, e)
    requires p in sys.procs && Stale(sys.db, sys.procs[p], j, e)
    ensures SomebodyStale(mid, k, e)
  {
    var q :| q in sys.procs && Stale(sys.db, sys.procs[q], k, e);
    assert q != p;
    StaleStands(sys.db, mid.db, sys.procs[q], k, e);
    assert mid.procs[q] == sys.procs[q];
    hide Stale;
  }

  lemma NamedIsSound(cfg: Config, sys: Sys, j: Id, scope: ScopeId, e: Id)
    requires SysInv(cfg, sys) && e in sys.db.episodes && Names(sys.db, j, scope, e)
    ensures NamesIt(sys.db, j, e) && !IsDone(sys.db, j)
    ensures NobodyStale(sys, j, e) ==> Sound(cfg, sys, j, e)
  {}

  /** A covered episode catches up if and only if some job that names it has nobody stale on
      it. The condition is about where the processes stand: it can be read off before the
      encodings are dropped, for dropping them moves no process. */
  lemma CatchesUpExactlyWhen(cfg: Config, sys: Sys, scope: ScopeId, e: Id)
    requires SysInv(cfg, sys) && e in sys.db.episodes && !Encoded(cfg, sys.db, e)
    ensures CatchesUp(cfg, sys, scope, e) <==> exists j :: Names(sys.db, j, scope, e) && NobodyStale(sys, j, e)
  {
    hide SysInv, Stale, Act, Encoded, Sound, NamesIt;
    if j :| Names(sys.db, j, scope, e) && NobodyStale(sys, j, e) {
      NamedIsSound(cfg, sys, j, scope, e);
      SoundCatchesUp(cfg, sys, scope, j, e);
    } else {
      var todo := set j | j in sys.db.jobs && Names(sys.db, j, scope, e);
      forall j | j in todo ensures SomebodyStale(sys, j, e) { assert !NobodyStale(sys, j, e); }
      var actions := FinishAll(cfg, sys, todo, e);
      assert AllDone(cfg, sys, actions, scope, e);
    }
  }

  lemma SoundCatchesUp(cfg: Config, sys: Sys, scope: ScopeId, j: Id, e: Id)
    requires SysInv(cfg, sys) && Names(sys.db, j, scope, e) && NamesIt(sys.db, j, e) && Sound(cfg, sys, j, e)
    ensures CatchesUp(cfg, sys, scope, e)
  {
    forall actions | NoDrop(actions) && AllDone(cfg, sys, actions, scope, e)
      ensures e in Acts(cfg, sys, actions).db.episodes ==> Encoded(cfg, Acts(cfg, sys, actions).db, e)
    {
      SoundOnceDone(cfg, sys, actions, j, e);
    }
  }

  // ---- After a backfill -----------------------------------------------------------

  /** An outstanding encode job of the scope. */
  predicate Owing(db: Db, j: Id, scope: ScopeId) {
    j in db.jobs && db.jobs[j].Outstanding() && db.jobs[j].kind == Encode && db.jobs[j].scope == scope
  }

  /** Every episode of the scope still to be encoded has a job nobody is stale on. */
  ghost predicate NobodyInTheWay(cfg: Config, sys: Sys, scope: ScopeId) {
    forall e :: S.Lacks(sys.db, S.EncodeFor(cfg.model), scope, 0, e) ==>
      exists j :: Names(sys.db, j, scope, e) && NobodyStale(sys, j, e)
  }

  /** After a backfill has covered a scope, whatever clients and workers then do short of
      dropping encodings: once every encode job of the scope then outstanding has been done,
      purged or erased since or not, the encodings of the scope are exactly what the embedder
      makes of the log as it stood, less what was erased. */
  lemma AfterBackfill(cfg: Config, sys: Sys, scope: ScopeId, actions: seq<Action>)
    requires SysInv(cfg, sys) && NobodyInTheWay(cfg, sys, scope) && NoDrop(actions)
    requires forall j :: Owing(sys.db, j, scope) ==> EverDone(cfg, sys, actions, j)
    ensures var done := Acts(cfg, sys, actions).db;
      forall e :: e < sys.db.minted && e in done.episodes && done.episodes[e].scope == scope ==>
        (e, cfg.model) in done.encodings
        && done.encodings[(e, cfg.model)].vector == cfg.embed(done.episodes[e].body.content)
  {
    var done := Acts(cfg, sys, actions).db;
    EncodingsAreProjection(cfg, sys, actions);
    EncodingsHold(cfg, Acts(cfg, sys, actions));
    hide SysInv, Act, NobodyStale;
    forall e: Id | e < sys.db.minted && e in done.episodes && done.episodes[e].scope == scope ensures Encoded(cfg, done, e) {
      SurvivorWasThere(cfg, sys, actions, e);
      if Encoded(cfg, sys.db, e) {
        StaysEncoded(cfg, sys, actions, e);
      } else {
        CatchUpOne(cfg, sys, scope, actions, e);
      }
    }
  }

  lemma EncodingsHold(cfg: Config, sys: Sys)
    requires SysInv(cfg, sys)
    ensures EncodingsTrue(cfg, sys.db)
  {}

  lemma CatchUpOne(cfg: Config, sys: Sys, scope: ScopeId, actions: seq<Action>, e: Id)
    requires SysInv(cfg, sys) && NobodyInTheWay(cfg, sys, scope) && NoDrop(actions)
    requires e in sys.db.episodes && sys.db.episodes[e].scope == scope && !Encoded(cfg, sys.db, e)
    requires forall j :: Names(sys.db, j, scope, e) ==> EverDone(cfg, sys, actions, j)
    ensures e in Acts(cfg, sys, actions).db.episodes ==> Encoded(cfg, Acts(cfg, sys, actions).db, e)
  {
    assert S.Lacks(sys.db, S.EncodeFor(cfg.model), scope, 0, e);
    var j :| Names(sys.db, j, scope, e) && NobodyStale(sys, j, e);
    NamedIsSound(cfg, sys, j, scope, e);
    SoundOnceDone(cfg, sys, actions, j, e);
  }

  /** A backfill's coverage clears the way wherever nobody is stale at all. */
  lemma CoverageClearsTheWay(cfg: Config, sys: Sys, scope: ScopeId)
    requires Covered(sys.db, S.EncodeFor(cfg.model), scope, 0) && forall j, e :: NobodyStale(sys, j, e)
    ensures NobodyInTheWay(cfg, sys, scope)
  {
    forall e | S.Lacks(sys.db, S.EncodeFor(cfg.model), scope, 0, e)
      ensures exists j :: Names(sys.db, j, scope, e) && NobodyStale(sys, j, e)
    {
      assert HasJob(sys.db, Encode, scope, e);
      var j :| j in sys.db.jobs && sys.db.jobs[j].Outstanding() && sys.db.jobs[j].kind == Encode
               && sys.db.jobs[j].scope == scope && e in sys.db.jobs[j].episodes;
      assert Names(sys.db, j, scope, e);
    }
  }

  /** Nobody is, where no process has written or is reporting. */
  lemma QuietIsNotStale(sys: Sys)
    requires forall p :: p in sys.procs ==>
      sys.procs[p].phase != Reporting(true) && (sys.procs[p].phase.Writing? ==> sys.procs[p].phase.written == 0)
    ensures forall j, e :: NobodyStale(sys, j, e)
  {}

  /** Dropping the encodings moves no process, so who will be stale can be seen before. */
  lemma DropMovesNobody(cfg: Config, sys: Sys, j: Id, e: Id)
    ensures NobodyStale(Act(cfg, sys, Client(OpDropEncodings)), j, e) <==> NobodyStale(sys, j, e)
  {
    forall p | p in sys.procs
      ensures Stale(Act(cfg, sys, Client(OpDropEncodings)).db, sys.procs[p], j, e) <==> Stale(sys.db, sys.procs[p], j, e)
    {
      StaleStands(sys.db, Act(cfg, sys, Client(OpDropEncodings)).db, sys.procs[p], j, e);
    }
    hide Stale;
  }

  /** Nobody in the way is exactly what it takes for every episode of the scope to catch up. */
  lemma ClearExactlyWhen(cfg: Config, sys: Sys, scope: ScopeId)
    requires SysInv(cfg, sys)
    ensures NobodyInTheWay(cfg, sys, scope) <==>
      forall e :: S.Lacks(sys.db, S.EncodeFor(cfg.model), scope, 0, e) ==> CatchesUp(cfg, sys, scope, e)
  {
    hide SysInv, NobodyStale, CatchesUp;
    forall e | S.Lacks(sys.db, S.EncodeFor(cfg.model), scope, 0, e)
      ensures CatchesUp(cfg, sys, scope, e) <==> exists j :: Names(sys.db, j, scope, e) && NobodyStale(sys, j, e)
    {
      CatchesUpExactlyWhen(cfg, sys, scope, e);
    }
  }

  // ---- A run where it fails -------------------------------------------------------

  function OneJob(scope: ScopeId): Job { FreshJob(Encode, scope, [0], None, 0, 0) }

  function ClaimBy(w: WorkerId): LeaseRequest { LeaseRequest({Encode}, w, 1, 1, 0) }

  /** One episode is recorded with its encode job, leased, read and embedded. */
  function UntilEmbedded(scope: ScopeId, body: Body, w: WorkerId): seq<Action> {
    [Client(OpAppend(AppendCommand([NewEpisode(scope, body, 0)], [JobSpec(Encode, None, 0)]))),
     Start(0, w), LeaseBatch(0, ClaimBy(w), {}, [1]), ReadNext(0), ReadNext(0), EmbedAll(0, true)]
  }

  /** It is written; the encodings are dropped; a backfill enqueues the episode again, which
      collapses onto the job still held. */
  function UntilBackfilled(scope: ScopeId): seq<Action> {
    [WriteNext(0, 0), WriteNext(0, 0), Client(OpDropEncodings), Client(OpEnqueue(NewJob(Encode, scope, [0], None, 0), 0))]
  }

  function Recorded(scope: ScopeId, body: Body): Db {
    Db(map[scope := 1], map[0 := Episode(0, scope, 1, body, 0)], map[], map[], map[], map[1 := OneJob(scope)], 2)
  }

  function LeasedOut(scope: ScopeId, body: Body, w: WorkerId): Db {
    Recorded(scope, body).(jobs := map[1 := Leased(OneJob(scope), ClaimBy(w))])
  }

  function Working(scope: ScopeId, body: Body, w: WorkerId, phase: Phase): Sys {
    Sys(LeasedOut(scope, body, w), map[0 := Proc(w, [(1, Leased(OneJob(scope), ClaimBy(w)))], phase)])
  }

  lemma RunRecords(cfg: Config, scope: ScopeId, body: Body)
    ensures var cmd := AppendCommand([NewEpisode(scope, body, 0)], [JobSpec(Encode, None, 0)]);
      Act(cfg, Sys(EMPTY, map[]), Client(OpAppend(cmd))) == Sys(Recorded(scope, body), map[])
  {
    var cmd := AppendCommand([NewEpisode(scope, body, 0)], [JobSpec(Encode, None, 0)]);
    assert MintedIds(0, 1) == [0];
    assert NewRows(0, 0, cmd.episodes) == map[0 := Episode(0, scope, 1, body, 0)];
    assert cmd.jobs[..0] == [] && WithBatchJobs(map[], 1, scope, [0], [], 0) == map[];
    assert WithBatchJobs(map[], 1, scope, [0], cmd.jobs, 0) == map[1 := OneJob(scope)];
    assert Next(EMPTY, OpAppend(cmd)) == Recorded(scope, body);
  }

  lemma RunLeases(cfg: Config, scope: ScopeId, body: Body, w: WorkerId)
    ensures DoLease(Sys(Recorded(scope, body), map[0 := Proc(w, [], Ready)]), 0, ClaimBy(w), {}, [1]) == Working(scope, body, w, Ready)
  {
    var (db, order) := (Recorded(scope, body), [1 as Id]);
    OnlyCandidate(db.jobs, ClaimBy(w), 1);
    LeaseRow(db, ClaimBy(w), {}, 1);
    assert (set j | j in order) == {1};
    hide Claimed;
    var after := Lease(db, ClaimBy(w), {});
    assert after.jobs == map[1 := Leased(OneJob(scope), ClaimBy(w))];
    assert seq(1, i requires 0 <= i < 1 => (order[i], if order[i] in after.jobs then after.jobs[order[i]] else FreshJob(Encode, "", [], None, 0, 0)))
      == [(1, Leased(OneJob(scope), ClaimBy(w)))];
  }

  lemma RunReads(cfg: Config, scope: ScopeId, body: Body, w: WorkerId)
    ensures var e := Episode(0, scope, 1, body, 0);
      && DoRead(Working(scope, body, w, Ready), 0) == Working(scope, body, w, Reading([]))
      && DoRead(Working(scope, body, w, Reading([])), 0) == Working(scope, body, w, Reading([e]))
      && DoEmbed(Working(scope, body, w, Reading([e])), 0, true) == Working(scope, body, w, Writing([e], 0))
  {
    assert [] + [Episode(0, scope, 1, body, 0)] == [Episode(0, scope, 1, body, 0)];
  }

  /** A list of actions, one after the other. */
  lemma ActsFirst(cfg: Config, sys: Sys, a: Action, rest: seq<Action>)
    ensures Acts(cfg, sys, [a] + rest) == Acts(cfg, Act(cfg, sys, a), rest)
  {
    ActsJoin(cfg, sys, [a], rest);
    ActsOne(cfg, sys, a);
  }

  lemma RunEmbeds(cfg: Config, scope: ScopeId, body: Body, w: WorkerId)
    ensures Acts(cfg, Sys(EMPTY, map[]), UntilEmbedded(scope, body, w)) == Working(scope, body, w, Writing([Episode(0, scope, 1, body, 0)], 0))
  {
    var xs := UntilEmbedded(scope, body, w);
    var e := Episode(0, scope, 1, body, 0);
    RunRecords(cfg, scope, body);
    RunLeases(cfg, scope, body, w);
    RunReads(cfg, scope, body, w);
    var s0 := Sys(EMPTY, map[]);
    var s1 := Sys(Recorded(scope, body), map[]);
    var s2 := s1.(procs := map[0 := Proc(w, [], Ready)]);
    assert Act(cfg, s0, xs[0]) == s1 && Act(cfg, s1, xs[1]) == s2;
    assert Act(cfg, s2, xs[2]) == Working(scope, body, w, Ready);
    assert Act(cfg, Working(scope, body, w, Ready), xs[3]) == Working(scope, body, w, Reading([]));
    assert Act(cfg, Working(scope, body, w, Reading([])), xs[4]) == Working(scope, body, w, Reading([e]));
    assert Act(cfg, Working(scope, body, w, Reading([e])), xs[5]) == Working(scope, body, w, Writing([e], 0));
    assert xs == [xs[0]] + ([xs[1]] + ([xs[2]] + ([xs[3]] + ([xs[4]] + [xs[5]]))));
    hide Act, Working, Recorded;
    ActsFirst(cfg, s0, xs[0], [xs[1]] + ([xs[2]] + ([xs[3]] + ([xs[4]] + [xs[5]]))));
    ActsFirst(cfg, s1, xs[1], [xs[2]] + ([xs[3]] + ([xs[4]] + [xs[5]])));
    ActsFirst(cfg, s2, xs[2], [xs[3]] + ([xs[4]] + [xs[5]]));
    ActsFirst(cfg, Working(scope, body, w, Ready), xs[3], [xs[4]] + [xs[5]]);
    ActsFirst(cfg, Working(scope, body, w, Reading([])), xs[4], [xs[5]]);
    ActsOne(cfg, Working(scope, body, w, Reading([e])), xs[5]);
  }

  /** Written, ready to report, and dropped. */
  lemma RunDrops(cfg: Config, scope: ScopeId, body: Body, w: WorkerId)
    ensures var e := Episode(0, scope, 1, body, 0);
      var xs := UntilBackfilled(scope);
      var start := Working(scope, body, w, Writing([e], 0));
      var written := Act(cfg, start, xs[0]);
      && Act(cfg, Act(cfg, written, xs[1]), xs[2]) == Working(scope, body, w, Reporting(true))
  {
    var e := Episode(0, scope, 1, body, 0);
    var start := Working(scope, body, w, Writing([e], 0));
    WrittenAfter(cfg, start, 0, 0);
    var written := DoWrite(cfg, start, 0, 0);
    assert written.procs == map[0 := start.procs[0].(phase := Writing([e], 1))];
    assert written.db == start.db.(encodings := written.db.encodings);
    WrittenAfter(cfg, written, 0, 0);
    var ready := DoWrite(cfg, written, 0, 0);
    assert ready.procs == map[0 := start.procs[0].(phase := Reporting(true))];
    assert ready.db == written.db;
  }

  /** The backfill's job is the one under way: nothing is added but a number. */
  lemma RunCollapses(scope: ScopeId, body: Body, w: WorkerId)
    ensures Next(LeasedOut(scope, body, w), OpEnqueue(NewJob(Encode, scope, [0], None, 0), 0)) == LeasedOut(scope, body, w).(minted := 3)
  {
    assert LeasedOut(scope, body, w).jobs[1].SameWork(Encode, scope, [0]);
  }

  function Covering(scope: ScopeId, body: Body, w: WorkerId): Sys {
    Working(scope, body, w, Reporting(true)).(db := LeasedOut(scope, body, w).(minted := 3))
  }

  /** From an empty store: record an episode, lease its job, write it, drop the encodings, and
      enqueue what is pending again. Everything pending is now covered, by the job that is
      under way. Its report is accepted, every job that was outstanding is done, and the
      episode has no encoding. */
  lemma StaleRun(cfg: Config, scope: ScopeId, body: Body, w: WorkerId)
    ensures var covered := Acts(cfg, Sys(EMPTY, map[]), UntilEmbedded(scope, body, w) + UntilBackfilled(scope));
      var done := Act(cfg, covered, Report(0, 1));
      && SysInv(cfg, covered) && Covered(covered.db, S.EncodeFor(cfg.model), scope, 0)
      && !Encoded(cfg, covered.db, 0) && !NobodyInTheWay(cfg, covered, scope)
      && (forall j :: Owing(covered.db, j, scope) ==> IsDone(done.db, j))
      && 0 in done.db.episodes && done.db.episodes[0].scope == scope && !Encoded(cfg, done.db, 0)
  {
    StaleRunReaches(cfg, scope, body, w);
    FromNothing(cfg);
    EncodingsAreProjection(cfg, Sys(EMPTY, map[]), UntilEmbedded(scope, body, w) + UntilBackfilled(scope));
    hide Acts, SysInv;
    StaleRunEnds(cfg, scope, body, w);
  }

  lemma StaleRunReaches(cfg: Config, scope: ScopeId, body: Body, w: WorkerId)
    ensures Acts(cfg, Sys(EMPTY, map[]), UntilEmbedded(scope, body, w) + UntilBackfilled(scope)) == Covering(scope, body, w)
  {
    var (ys, e) := (UntilBackfilled(scope), Episode(0, scope, 1, body, 0));
    RunEmbeds(cfg, scope, body, w);
    RunDrops(cfg, scope, body, w);
    RunCollapses(scope, body, w);
    ActsJoin(cfg, Sys(EMPTY, map[]), UntilEmbedded(scope, body, w), ys);
    var start := Working(scope, body, w, Writing([e], 0));
    var s1 := Act(cfg, start, ys[0]);
    var s2 := Act(cfg, s1, ys[1]);
    assert Act(cfg, Working(scope, body, w, Reporting(true)), ys[3]) == Covering(scope, body, w);
    assert ys == [ys[0]] + ([ys[1]] + ([ys[2]] + [ys[3]]));
    hide Act, Working, Covering, LeasedOut, Next;
    ActsFirst(cfg, start, ys[0], [ys[1]] + ([ys[2]] + [ys[3]]));
    ActsFirst(cfg, s1, ys[1], [ys[2]] + [ys[3]]);
    ActsFirst(cfg, s2, ys[2], [ys[3]]);
    ActsOne(cfg, Working(scope, body, w, Reporting(true)), ys[3]);
  }

  lemma StaleRunEnds(cfg: Config, scope: ScopeId, body: Body, w: WorkerId)
    ensures var covered := Covering(scope, body, w);
      var done := Act(cfg, covered, Report(0, 1));
      && Covered(covered.db, S.EncodeFor(cfg.model), scope, 0)
      && !Encoded(cfg, covered.db, 0) && !NobodyInTheWay(cfg, covered, scope)
      && (forall j :: Owing(covered.db, j, scope) ==> IsDone(done.db, j))
      && 0 in done.db.episodes && done.db.episodes[0].scope == scope && !Encoded(cfg, done.db, 0)
  {
    var covered := Covering(scope, body, w);
    var job := covered.db.jobs[1];
    assert job.episodes == [0] && 0 in job.episodes && job.HeldBy(w);
    assert HasJob(covered.db, Encode, scope, 0);
    assert Stale(covered.db, covered.procs[0], 1, 0);
    assert S.Lacks(covered.db, S.EncodeFor(cfg.model), scope, 0, 0);
    var done := DoReport(covered, 0, 1);
    assert IsDone(done.db, 1);
  }
}
