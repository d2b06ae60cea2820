/** The consolidation loop as a protocol: any number of worker processes that lease,
    read, embed, write and report in separate steps, interleaved with each other and
    with every other operation on the store, and stopping at any point. */
module Workers {
  import opened Model
  import opened Tables
  import opened Invariants
  import opened Histories
  import opened QueueHistories

  // ---- Backoff --------------------------------------------------------------

  const RETRY_BACKOFF := 10      // seconds
  const MAX_RETRY_BACKOFF := 600

  function Pow2(n: nat): (p: nat)
    ensures p > 0
  {
    if n == 0 then 1 else 2 * Pow2(n - 1)
  }

  /** Doubling from the first wait, capped. */
  function BackoffFor(attempt: int): int {
    var wait := RETRY_BACKOFF * Pow2(if attempt < 1 then 0 else attempt - 1);
    if wait < MAX_RETRY_BACKOFF then wait else MAX_RETRY_BACKOFF
  }

  lemma {:induction false} Pow2Monotone(m: nat, n: nat)
    requires m <= n
    ensures Pow2(m) <= Pow2(n)
  {
    if m < n { Pow2Monotone(m, n - 1); }
  }

  method RetryBackoff(attempt: int) returns (wait: int)
    ensures wait == BackoffFor(attempt)
  {
    var n := if attempt < 1 then 1 else attempt;
    wait := RETRY_BACKOFF;
    for i := 0 to n - 1
      invariant wait == RETRY_BACKOFF * Pow2(i) < MAX_RETRY_BACKOFF
    {
      wait := wait * 2;
      if wait >= MAX_RETRY_BACKOFF {
        Pow2Monotone(i + 1, n - 1);
        return MAX_RETRY_BACKOFF;
      }
    }
  }

  /** A later attempt never waits less than an earlier one. */
  lemma BackoffNeverShrinks(a: int, b: int)
    requires a <= b
    ensures 10 <= BackoffFor(a) <= BackoffFor(b) <= 600
  {
    Pow2Monotone(if a < 1 then 0 else a - 1, if b < 1 then 0 else b - 1);
  }

  /** The first wait is ten seconds, and each after it twice the one before, up to ten minutes. */
  lemma BackoffDoubles(attempt: int)
    ensures attempt <= 1 ==> BackoffFor(attempt) == 10
    ensures attempt >= 1 ==> BackoffFor(attempt + 1) == if 2 * BackoffFor(attempt) < 600 then 2 * BackoffFor(attempt) else 600
  {
    if attempt >= 1 { assert Pow2(attempt) == 2 * Pow2(attempt - 1); }
  }

  // ---- Processes ------------------------------------------------------------

  /** What the workers were configured with: one vector space and its deterministic embedder. */
  datatype Config = Config(model: ModelId, embed: string -> Vector)

  /** Where a process is in the job at the head of its batch. */
  datatype Phase =
    | Ready
    | Reading(read: seq<Episode>)                    // a prefix of the job's episodes, as read
    | Writing(read: seq<Episode>, written: nat)      // embedded; the first `written` are stored
    | Reporting(ok: bool)

  /** A worker process: two of them may carry the same worker id. The jobs are the copies
      the lease handed out. */
  datatype Proc = Proc(worker: WorkerId, batch: seq<(Id, Job)>, phase: Phase)

  datatype Sys = Sys(db: Db, procs: map<nat, Proc>)

  datatype Action =
    | Client(op: Op)                                 // any caller, or a worker of another kind
    | Start(p: nat, worker: WorkerId)
    | LeaseBatch(p: nat, req: LeaseRequest, locked: set<Id>, order: seq<Id>)
    | ReadNext(p: nat)
    | EmbedAll(p: nat, works: bool)
    | WriteNext(p: nat, at: Instant)
    | Applied(p: nat, extraction: ExtractCommand)
    | ExtractFailed(p: nat)
    | Report(p: nat, at: Instant)
    | Stop(p: nat)                                   // crash, or shutdown between two steps

  /** Encodings of this model are written, and encode jobs finished, by worker processes alone. */
  predicate ClientMay(cfg: Config, db: Db, op: Op) {
    match op
    case OpPutEncoding(_, m, _, _) => m != cfg.model
    case OpSucceed(id, _, _) => id in db.jobs ==> db.jobs[id].kind == Extract
    case _ => true
  }

  predicate Busy(sys: Sys, p: nat) { p in sys.procs && sys.procs[p].batch != [] }

  function Head(proc: Proc): Job
    requires proc.batch != []
  {
    proc.batch[0].1
  }

  function WithPhase(sys: Sys, p: nat, phase: Phase): Sys
    requires p in sys.procs
  {
    sys.(procs := sys.procs[p := sys.procs[p].(phase := phase)])
  }

  function DoLease(sys: Sys, p: nat, req: LeaseRequest, locked: set<Id>, order: seq<Id>): Sys {
    if p in sys.procs && sys.procs[p].batch == [] && req.worker == sys.procs[p].worker
       && (set j | j in order) == Claimed(sys.db.jobs, req, locked)
    then
      var db := Lease(sys.db, req, locked);
      var batch := seq(|order|, i requires 0 <= i < |order| =>
        (order[i], if order[i] in db.jobs then db.jobs[order[i]] else FreshJob(Encode, "", [], None, 0, 0)));
      Sys(db, sys.procs[p := sys.procs[p].(batch := batch, phase := Ready)])
    else sys
  }

  function DoRead(sys: Sys, p: nat): Sys {
    if !Busy(sys, p) || Head(sys.procs[p]).kind != Encode then sys
    else
      var job, phase := Head(sys.procs[p]), sys.procs[p].phase;
      match phase
      case Ready => WithPhase(sys, p, Reading([]))
      case Reading(read) =>
        if |read| >= |job.episodes| then sys
        else
          var e := job.episodes[|read|];
          if e in sys.db.episodes && sys.db.episodes[e].scope == job.scope
          then WithPhase(sys, p, Reading(read + [sys.db.episodes[e]]))
          else WithPhase(sys, p, Reporting(false))
      case _ => sys
  }

  function DoEmbed(sys: Sys, p: nat, works: bool): Sys {
    if Busy(sys, p) && sys.procs[p].phase.Reading? && |sys.procs[p].phase.read| == |Head(sys.procs[p]).episodes|
    then WithPhase(sys, p, if works then Writing(sys.procs[p].phase.read, 0) else Reporting(false))
    else sys
  }

  function DoWrite(cfg: Config, sys: Sys, p: nat, at: Instant): Sys {
    if !Busy(sys, p) || !sys.procs[p].phase.Writing? then sys
    else
      var read, w := sys.procs[p].phase.read, sys.procs[p].phase.written;
      if w >= |read| then WithPhase(sys, p, Reporting(true))
      else
        var op := OpPutEncoding(read[w].id, cfg.model, cfg.embed(read[w].body.content), at);
        var sys' := sys.(db := Next(sys.db, op));
        if read[w].id in sys.db.episodes then WithPhase(sys', p, Writing(read, w + 1)) else WithPhase(sys', p, Reporting(false))
  }

  function DoApply(sys: Sys, p: nat, cmd: ExtractCommand): Sys {
    if Busy(sys, p) && Head(sys.procs[p]).kind == Extract && sys.procs[p].phase.Ready?
    then WithPhase(sys.(db := Next(sys.db, OpApplyExtraction(cmd))), p, Reporting(ApplyExtraction(sys.db, cmd).Ok?))
    else sys
  }

  function ReportOp(proc: Proc, at: Instant): Op
    requires proc.batch != [] && proc.phase.Reporting?
  {
    if proc.phase.ok then OpSucceed(proc.batch[0].0, proc.worker, at)
    else OpFail(proc.batch[0].0, proc.worker, at, at + BackoffFor(Head(proc).attempts))
  }

  /** Whether or not the queue accepts the report, the process moves on to its next job. */
  function DoReport(sys: Sys, p: nat, at: Instant): Sys {
    if Busy(sys, p) && sys.procs[p].phase.Reporting?
    then Sys(Next(sys.db, ReportOp(sys.procs[p], at)),
             sys.procs[p := sys.procs[p].(batch := sys.procs[p].batch[1..], phase := Ready)])
    else sys
  }

  function Act(cfg: Config, sys: Sys, a: Action): Sys {
    match a
    case Client(op) => if ClientMay(cfg, sys.db, op) then sys.(db := Next(sys.db, op)) else sys
    case Start(p, w) => if p in sys.procs then sys else sys.(procs := sys.procs[p := Proc(w, [], Ready)])
    case LeaseBatch(p, req, locked, order) => DoLease(sys, p, req, locked, order)
    case ReadNext(p) => DoRead(sys, p)
    case EmbedAll(p, works) => DoEmbed(sys, p, works)
    case WriteNext(p, at) => DoWrite(cfg, sys, p, at)
    case Applied(p, cmd) => DoApply(sys, p, cmd)
    case ExtractFailed(p) =>
      if Busy(sys, p) && Head(sys.procs[p]).kind == Extract && sys.procs[p].phase.Ready?
      then WithPhase(sys, p, Reporting(false)) else sys
    case Report(p, at) => DoReport(sys, p, at)
    case Stop(p) => sys.(procs := sys.procs - {p})
  }

  function Acts(cfg: Config, sys: Sys, actions: seq<Action>): Sys
    decreases |actions|
  {
    if actions == [] then sys else Acts(cfg, Act(cfg, sys, actions[0]), actions[1..])
  }

  // ---- What every process may rely on ----------------------------------------

  /** An episode as it was read is still what L0 says, or it was erased. */
  predicate ReadOk(db: Db, e: Episode) {
    e.id < db.minted && (e.id in db.episodes ==> db.episodes[e.id] == e)
  }

  predicate ReadsPrefix(job: Job, read: seq<Episode>) {
    |read| <= |job.episodes| && forall i :: 0 <= i < |read| ==> read[i].id == job.episodes[i]
  }

  ghost predicate CopyOk(db: Db, j: Id, job: Job) {
    j < db.minted && (j in db.jobs ==> db.jobs[j].SameWork(job.kind, job.scope, job.episodes))
  }

  ghost predicate PhaseOk(db: Db, proc: Proc) {
    match proc.phase
    case Ready => true
    case Reading(read) =>
      proc.batch != [] && Head(proc).kind == Encode && ReadsPrefix(Head(proc), read)
      && forall i :: 0 <= i < |read| ==> ReadOk(db, read[i])
    case Writing(read, written) =>
      proc.batch != [] && Head(proc).kind == Encode && ReadsPrefix(Head(proc), read)
      && |read| == |Head(proc).episodes| && written <= |read|
      && forall i :: 0 <= i < |read| ==> ReadOk(db, read[i])
    case Reporting(ok) => proc.batch != []
  }

  ghost predicate ProcOk(db: Db, proc: Proc) {
    PhaseOk(db, proc) && forall i :: 0 <= i < |proc.batch| ==> CopyOk(db, proc.batch[i].0, proc.batch[i].1)
  }

  /** Every stored vector of the model is what the embedder makes of its episode. */
  ghost predicate EncodingsTrue(cfg: Config, db: Db) {
    forall e :: (e, cfg.model) in db.encodings && e in db.episodes ==>
      db.encodings[(e, cfg.model)].vector == cfg.embed(db.episodes[e].body.content)
  }

  ghost predicate SysInv(cfg: Config, sys: Sys) {
    Inv(sys.db) && EncodingsTrue(cfg, sys.db) && forall p :: p in sys.procs ==> ProcOk(sys.db, sys.procs[p])
  }

  /** Encodings this op could have written under the model are true if the op's own is. */
  lemma TruthStep(cfg: Config, db: Db, op: Op)
    requires LogInv(db) && EncodingsTrue(cfg, db)
    requires ProjectionInv(db)
    requires op.OpPutEncoding? && op.model == cfg.model && op.episode in db.episodes ==>
      op.vector == cfg.embed(db.episodes[op.episode].body.content)
    ensures EncodingsTrue(cfg, Next(db, op))
  {
    forall e | (e, cfg.model) in Next(db, op).encodings && e in Next(db, op).episodes
      ensures Next(db, op).encodings[(e, cfg.model)].vector == cfg.embed(Next(db, op).episodes[e].body.content)
    {
      EncodingRow(db, op, e, cfg.model);
    }
  }

  /** Where an encoding row of a state came from. */
  lemma EncodingRow(db: Db, op: Op, e: Id, m: ModelId)
    requires LogInv(db) && ProjectionInv(db) && (e, m) in Next(db, op).encodings && e in Next(db, op).episodes
    ensures e in db.episodes && Next(db, op).episodes[e] == db.episodes[e]
    ensures (op.OpPutEncoding? && op.episode == e && op.model == m && Next(db, op).encodings[(e, m)].vector == op.vector)
         || ((e, m) in db.encodings && Next(db, op).encodings[(e, m)] == db.encodings[(e, m)])
  {
    OpTouches(db, op);
    EpisodeOfEncoding(db, op, e, m);
    hide Next, Append;
  }

  lemma EpisodeOfEncoding(db: Db, op: Op, e: Id, m: ModelId)
    requires LogInv(db) && ProjectionInv(db) && (e, m) in Next(db, op).encodings && e in Next(db, op).episodes
    ensures e < db.minted && e in db.episodes && Next(db, op).episodes[e] == db.episodes[e]
  {
    OpTouches(db, op);
    hide Next, Append;
    if (e, m) in db.encodings { EncodedExists(db, e, m); }
    EpisodeStep(db, op, if e < db.minted then e else 0);
  }

  lemma EncodedExists(db: Db, e: Id, m: ModelId)
    requires ProjectionInv(db) && (e, m) in db.encodings
    ensures e in db.episodes
  {
    assert OfEpisode(db, e, db.encodings[(e, m)].scope, db.encodings[(e, m)].ingestedAt);
  }

  lemma WorkNeverChanges(db: Db, op: Op, j: Id)
    requires j < db.minted && j in Next(db, op).jobs
    ensures j in db.jobs && Next(db, op).jobs[j].SameWork(db.jobs[j].kind, db.jobs[j].scope, db.jobs[j].episodes)
  {
    RowStep(db, op, j);
  }

  lemma ProcStands(db: Db, op: Op, proc: Proc)
    requires LogInv(db) && ProcOk(db, proc)
    ensures ProcOk(Next(db, op), proc)
  {
    hide Next;
    LogStep(db, op);
    forall i | 0 <= i < |proc.batch| ensures CopyOk(Next(db, op), proc.batch[i].0, proc.batch[i].1) {
      assert CopyOk(db, proc.batch[i].0, proc.batch[i].1);
      if proc.batch[i].0 in Next(db, op).jobs { WorkNeverChanges(db, op, proc.batch[i].0); }
    }
    if proc.phase.Reading? || proc.phase.Writing? {
      forall i | 0 <= i < |proc.phase.read| ensures ReadOk(Next(db, op), proc.phase.read[i]) {
        assert ReadOk(db, proc.phase.read[i]);
        EpisodeStep(db, op, proc.phase.read[i].id);
      }
    }
  }

  /** One operation on the tables, whoever performs it, keeps the invariant. */
  lemma DbStepKeeps(cfg: Config, sys: Sys, op: Op)
    requires SysInv(cfg, sys)
    requires op.OpPutEncoding? && op.model == cfg.model && op.episode in sys.db.episodes ==>
      op.vector == cfg.embed(sys.db.episodes[op.episode].body.content)
    ensures SysInv(cfg, sys.(db := Next(sys.db, op)))
  {
    hide Next;
    StepKeepsInv(sys.db, op);
    TruthStep(cfg, sys.db, op);
    forall p | p in sys.procs ensures ProcOk(Next(sys.db, op), sys.procs[p]) { ProcStands(sys.db, op, sys.procs[p]); }
  }

  lemma ProcChangeKeeps(cfg: Config, sys: Sys, p: nat, proc: Proc)
    requires SysInv(cfg, sys) && ProcOk(sys.db, proc)
    ensures SysInv(cfg, sys.(procs := sys.procs[p := proc]))
  {}

  lemma LeaseKeeps(cfg: Config, sys: Sys, p: nat, req: LeaseRequest, locked: set<Id>, order: seq<Id>)
    requires SysInv(cfg, sys)
    ensures SysInv(cfg, DoLease(sys, p, req, locked, order))
  {
    var sys' := DoLease(sys, p, req, locked, order);
    if p in sys.procs && sys.procs[p].batch == [] && req.worker == sys.procs[p].worker
       && (set j | j in order) == Claimed(sys.db.jobs, req, locked)
    {
      var proc := sys'.procs[p];
      DbStepKeeps(cfg, sys, OpLease(req, locked));
      CopiesOk(cfg, sys, req, locked, order);
      hide SysInv, CopyOk, Lease, Claimed;
      ProcChangeKeeps(cfg, sys.(db := sys'.db), p, proc);
    }
  }

  lemma CopiesOk(cfg: Config, sys: Sys, req: LeaseRequest, locked: set<Id>, order: seq<Id>)
    requires SysInv(cfg, sys) && (set j | j in order) == Claimed(sys.db.jobs, req, locked)
    ensures forall i :: 0 <= i < |order| ==> order[i] in Lease(sys.db, req, locked).jobs
    ensures forall i :: 0 <= i < |order| ==>
      CopyOk(Lease(sys.db, req, locked), order[i], Lease(sys.db, req, locked).jobs[order[i]])
  {
    forall i | 0 <= i < |order|
      ensures order[i] in Lease(sys.db, req, locked).jobs
      ensures CopyOk(Lease(sys.db, req, locked), order[i], Lease(sys.db, req, locked).jobs[order[i]])
    {
      assert order[i] in (set j | j in order);
      LeaseHolds(sys.db, req, locked, order[i]);
    }
  }

  lemma ReadKeeps(cfg: Config, sys: Sys, p: nat)
    requires SysInv(cfg, sys)
    ensures SysInv(cfg, DoRead(sys, p))
  {
    if Busy(sys, p) {
      assert ProcOk(sys.db, sys.procs[p]);
      var proc := DoRead(sys, p).procs[p];
      assert ProcOk(sys.db, proc);
      ProcChangeKeeps(cfg, sys, p, proc);
      assert DoRead(sys, p) == sys.(procs := sys.procs[p := proc]) || DoRead(sys, p) == sys;
    }
  }

  lemma WriteKeeps(cfg: Config, sys: Sys, p: nat, at: Instant)
    requires SysInv(cfg, sys)
    ensures SysInv(cfg, DoWrite(cfg, sys, p, at))
  {
    if Busy(sys, p) && sys.procs[p].phase.Writing? {
      var proc := sys.procs[p];
      assert ProcOk(sys.db, proc);
      var read, w := proc.phase.read, proc.phase.written;
      if w >= |read| {
        ProcChangeKeeps(cfg, sys, p, proc.(phase := Reporting(true)));
      } else {
        assert ReadOk(sys.db, read[w]);
        var op := OpPutEncoding(read[w].id, cfg.model, cfg.embed(read[w].body.content), at);
        DbStepKeeps(cfg, sys, op);
        var mid := sys.(db := Next(sys.db, op));
        assert ProcOk(mid.db, proc);
        var phase := if read[w].id in sys.db.episodes then Writing(read, w + 1) else Reporting(false);
        ProcChangeKeeps(cfg, mid, p, proc.(phase := phase));
      }
    }
  }

  lemma ReportKeeps(cfg: Config, sys: Sys, p: nat, at: Instant)
    requires SysInv(cfg, sys)
    ensures SysInv(cfg, DoReport(sys, p, at))
  {
    if Busy(sys, p) && sys.procs[p].phase.Reporting? {
      var proc := sys.procs[p];
      var op := ReportOp(proc, at);
      DbStepKeeps(cfg, sys, op);
      var mid := sys.(db := Next(sys.db, op));
      var proc' := proc.(batch := proc.batch[1..], phase := Ready);
      assert ProcOk(mid.db, proc);
      assert forall i :: 0 <= i < |proc'.batch| ==> proc'.batch[i] == proc.batch[i + 1];
      ProcChangeKeeps(cfg, mid, p, proc');
    }
  }

  lemma OtherKeeps(cfg: Config, sys: Sys, a: Action)
    requires SysInv(cfg, sys) && (a.Start? || a.EmbedAll? || a.ExtractFailed? || a.Stop?)
    ensures SysInv(cfg, Act(cfg, sys, a))
  {
    hide Inv, EncodingsTrue, CopyOk;
    if !a.Start? && a.p in sys.procs { assert ProcOk(sys.db, sys.procs[a.p]); }
  }

  lemma ApplyKeeps(cfg: Config, sys: Sys, p: nat, cmd: ExtractCommand)
    requires SysInv(cfg, sys)
    ensures SysInv(cfg, DoApply(sys, p, cmd))
  {
    if Busy(sys, p) && Head(sys.procs[p]).kind == Extract && sys.procs[p].phase.Ready? {
      hide Inv, EncodingsTrue, CopyOk, Next, ApplyExtraction;
      DbStepKeeps(cfg, sys, OpApplyExtraction(cmd));
      var mid := sys.(db := Next(sys.db, OpApplyExtraction(cmd)));
      assert ProcOk(mid.db, sys.procs[p]);
      ProcChangeKeeps(cfg, mid, p, sys.procs[p].(phase := Reporting(ApplyExtraction(sys.db, cmd).Ok?)));
    }
  }

  lemma ActKeeps(cfg: Config, sys: Sys, a: Action)
    requires SysInv(cfg, sys)
    ensures SysInv(cfg, Act(cfg, sys, a))
  {
    hide SysInv, Next, DoLease, DoRead, DoEmbed, DoWrite, DoApply, DoReport;
    match a
    case Client(op) => if ClientMay(cfg, sys.db, op) { DbStepKeeps(cfg, sys, op); }
    case LeaseBatch(p, req, locked, order) => LeaseKeeps(cfg, sys, p, req, locked, order);
    case ReadNext(p) => ReadKeeps(cfg, sys, p);
    case WriteNext(p, at) => WriteKeeps(cfg, sys, p, at);
    case Applied(p, cmd) => ApplyKeeps(cfg, sys, p, cmd);
    case Report(p, at) => ReportKeeps(cfg, sys, p, at);
    case _ => OtherKeeps(cfg, sys, a);
  }

  /** The vectors are a projection of the log: whatever is appended, leased, failed,
      reclaimed, retried, erased or dropped, and wherever workers stop, every stored
      encoding is the embedding of its episode's content. */
  lemma {:induction false} EncodingsAreProjection(cfg: Config, sys: Sys, actions: seq<Action>)
    requires SysInv(cfg, sys)
    ensures SysInv(cfg, Acts(cfg, sys, actions))
    decreases |actions|
  {
    if actions != [] {
      hide SysInv, Act;
      ActKeeps(cfg, sys, actions[0]);
      EncodingsAreProjection(cfg, Act(cfg, sys, actions[0]), actions[1..]);
    }
  }

  lemma FromNothing(cfg: Config)
    ensures SysInv(cfg, Sys(EMPTY, map[]))
  {}

  // ---- What an action does to the tables ---------------------------------------

  predicate Drops(a: Action) { a.Client? && a.op.OpDropEncodings? }

  /** The one table operation an action performs, if it performs any. */
  function DbOp(cfg: Config, sys: Sys, a: Action): Option<Op> {
    match a
    case Client(op) => if ClientMay(cfg, sys.db, op) then Some(op) else None
    case LeaseBatch(p, req, locked, order) =>
      if p in sys.procs && sys.procs[p].batch == [] && req.worker == sys.procs[p].worker
         && (set j | j in order) == Claimed(sys.db.jobs, req, locked)
      then Some(OpLease(req, locked)) else None
    case WriteNext(p, at) =>
      if Busy(sys, p) && sys.procs[p].phase.Writing? && sys.procs[p].phase.written < |sys.procs[p].phase.read|
      then var e := sys.procs[p].phase.read[sys.procs[p].phase.written];
        Some(OpPutEncoding(e.id, cfg.model, cfg.embed(e.body.content), at))
      else None
    case Applied(p, cmd) =>
      if Busy(sys, p) && Head(sys.procs[p]).kind == Extract && sys.procs[p].phase.Ready?
      then Some(OpApplyExtraction(cmd)) else None
    case Report(p, at) =>
      if Busy(sys, p) && sys.procs[p].phase.Reporting? then Some(ReportOp(sys.procs[p], at)) else None
    case _ => None
  }

  function DbAfter(db: Db, op: Option<Op>): Db { if op.Some? then Next(db, op.value) else db }

  lemma ActDb(cfg: Config, sys: Sys, a: Action)
    ensures Act(cfg, sys, a).db == DbAfter(sys.db, DbOp(cfg, sys, a))
  {
    hide Next, ClientMay, Claimed;
    match a
    case LeaseBatch(p, req, locked, order) => LeaseIsNext(sys.db, req, locked);
    case ReadNext(p) => assert DoRead(sys, p).db == sys.db;
    case _ =>
  }

  lemma LeaseIsNext(db: Db, req: LeaseRequest, locked: set<Id>)
    ensures Next(db, OpLease(req, locked)) == Lease(db, req, locked)
  {}

  /** Only dropping encodings takes one from an episode that stands. */
  lemma EncodingPersists(db: Db, op: Op, e: Id, m: ModelId)
    requires ProjectionInv(db) && !op.OpDropEncodings? && (e, m) in db.encodings && e in Next(db, op).episodes
    ensures (e, m) in Next(db, op).encodings
  {
    assert OfEpisode(db, e, db.encodings[(e, m)].scope, db.encodings[(e, m)].ingestedAt);
    OpTouches(db, op);
    hide Next;
  }

  lemma DoneByReport(db: Db, op: Op, j: Id)
    requires j < db.minted && j in Next(db, op).jobs && Next(db, op).jobs[j].state.Done?
    ensures j in db.jobs && (db.jobs[j].state.Done? || (op.OpSucceed? && op.id == j))
  {
    RowStep(db, op, j);
  }
}
