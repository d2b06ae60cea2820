/** A worker process left to itself comes to what the sequential loop comes to: the steps of the
    protocol, run one after another for one job, leave the tables that reading, embedding,
    writing and reporting in one go leave. */
module Alone {
  import opened Model
  import opened Tables
  import opened Invariants
  import opened Workers
  import D = Drain

  function Reads(p: nat, n: nat): seq<Action> { seq(n, _ => ReadNext(p)) }

  function Writes(p: nat, n: nat, at: Instant): seq<Action> { seq(n, _ => WriteNext(p, at)) }

  /** Everything one process does for a job of n episodes. */
  function Steps(p: nat, n: nat, works: bool, at: Instant): seq<Action> {
    Reads(p, n + 1) + [EmbedAll(p, works)] + Writes(p, n + 1, at) + [Report(p, at)]
  }

  lemma {:induction false} ActsThen(cfg: Config, sys: Sys, xs: seq<Action>, ys: seq<Action>)
    ensures Acts(cfg, sys, xs + ys) == Acts(cfg, Acts(cfg, sys, xs), ys)
    decreases |xs|
  {
    hide Act;
    if xs == [] {
      assert xs + ys == ys;
    } else {
      assert (xs + ys)[1..] == xs[1..] + ys;
      ActsThen(cfg, Act(cfg, sys, xs[0]), xs[1..], ys);
    }
  }

  /** An episode of the job can be read. */
  predicate Readable(db: Db, job: Job, i: nat)
    requires i < |job.episodes|
  {
    job.episodes[i] in db.episodes && db.episodes[job.episodes[i]].scope == job.scope
  }

  /** What reading leaves: the first n of the job's episodes. */
  ghost predicate HasRead(db: Db, job: Job, read: seq<Episode>) {
    |read| <= |job.episodes| && forall i :: 0 <= i < |read| ==> Readable(db, job, i) && read[i] == db.episodes[job.episodes[i]]
  }

  ghost predicate AtJob(sys: Sys, p: nat, j: Id, job: Job) {
    p in sys.procs && sys.procs[p].batch != [] && sys.procs[p].batch[0] == (j, job) && job.kind == Encode
  }

  /** Reading on to the end, from wherever it got to. */
  lemma {:induction false} ReadsOn(cfg: Config, sys: Sys, p: nat, j: Id, job: Job, n: nat)
    requires AtJob(sys, p, j, job) && sys.procs[p].phase.Reading? && HasRead(sys.db, job, sys.procs[p].phase.read)
    requires n == |job.episodes| - |sys.procs[p].phase.read|
    ensures var sys' := Acts(cfg, sys, Reads(p, n));
      && p in sys'.procs && sys' == WithPhase(sys, p, sys'.procs[p].phase)
      && if D.Encodable(sys.db, job, true)
         then sys'.procs[p].phase.Reading? && HasRead(sys.db, job, sys'.procs[p].phase.read) && |sys'.procs[p].phase.read| == |job.episodes|
         else sys'.procs[p].phase == Reporting(false)
    decreases n
  {
    var read := sys.procs[p].phase.read;
    if n > 0 {
      assert Reads(p, n)[0] == ReadNext(p) && Reads(p, n)[1..] == Reads(p, n - 1);
      var next := Act(cfg, sys, ReadNext(p));
      if Readable(sys.db, job, |read|) {
        ReadsOn(cfg, next, p, j, job, n - 1);
      } else {
        Idles(cfg, next, p, Reads(p, n - 1));
      }
    }
  }

  predicate Works(a: Action, p: nat) { (a.ReadNext? || a.EmbedAll? || a.WriteNext?) && a.p == p }

  /** A process that is to report neither reads, embeds nor writes. */
  lemma {:induction false} Idles(cfg: Config, sys: Sys, p: nat, actions: seq<Action>)
    requires p in sys.procs && sys.procs[p].phase.Reporting? && forall i :: 0 <= i < |actions| ==> Works(actions[i], p)
    ensures Acts(cfg, sys, actions) == sys
    decreases |actions|
  {
    if actions != [] {
      assert Works(actions[0], p);
      assert Act(cfg, sys, actions[0]) == sys by { hide Next; }
      Idles(cfg, sys, p, actions[1..]);
    }
    hide Act;
  }

  /** The first w episodes of the job are encoded, truly, and no row changed but encodings of the job. */
  ghost predicate WrittenTo(cfg: Config, start: Db, db: Db, job: Job, w: nat)
    requires w <= |job.episodes|
  {
    && Inv(db) && EncodingsTrue(cfg, db)
    && D.OnlyEncodes(cfg, start, db, job.episodes) && D.Encoded(cfg, db, job.episodes[..w])
  }

  /** The process holds the whole job in its hands and has written the first w vectors. */
  ghost predicate WritingFrom(sys: Sys, p: nat, j: Id, job: Job, w: nat) {
    && AtJob(sys, p, j, job) && sys.procs[p].phase.Writing? && HasRead(sys.db, job, sys.procs[p].phase.read)
    && |sys.procs[p].phase.read| == |job.episodes| && sys.procs[p].phase.written == w <= |job.episodes|
  }

  /** Writing on to the end: the job's encodings and no other row, and then it is to be reported done. */
  lemma {:induction false} WritesOn(cfg: Config, start: Db, sys: Sys, p: nat, j: Id, job: Job, w: nat, n: nat, at: Instant)
    requires WritingFrom(sys, p, j, job, w) && n == |job.episodes| - w && WrittenTo(cfg, start, sys.db, job, w)
    ensures var sys' := Acts(cfg, sys, Writes(p, n + 1, at));
      sys' == WithPhase(sys, p, Reporting(true)).(db := sys'.db) && WrittenTo(cfg, start, sys'.db, job, |job.episodes|)
    decreases n
  {
    hide WrittenTo, HasRead, Act;
    assert Writes(p, n + 1, at)[0] == WriteNext(p, at) && Writes(p, n + 1, at)[1..] == Writes(p, n, at);
    if n == 0 {
      AllWritten(cfg, sys, p, j, job, at);
      assert Writes(p, n, at) == [];
    } else {
      WritesOne(cfg, start, sys, p, j, job, w, at);
      WritesOn(cfg, start, Act(cfg, sys, WriteNext(p, at)), p, j, job, w + 1, n - 1, at);
    }
  }

  lemma AllWritten(cfg: Config, sys: Sys, p: nat, j: Id, job: Job, at: Instant)
    requires WritingFrom(sys, p, j, job, |job.episodes|)
    ensures Act(cfg, sys, WriteNext(p, at)) == WithPhase(sys, p, Reporting(true))
  {
    hide Next;
  }

  lemma WritesOne(cfg: Config, start: Db, sys: Sys, p: nat, j: Id, job: Job, w: nat, at: Instant)
    requires WritingFrom(sys, p, j, job, w) && w < |job.episodes| && WrittenTo(cfg, start, sys.db, job, w)
    ensures var sys' := Act(cfg, sys, WriteNext(p, at));
      && sys' == WithPhase(sys, p, Writing(sys.procs[p].phase.read, w + 1)).(db := sys'.db)
      && WritingFrom(sys', p, j, job, w + 1) && WrittenTo(cfg, start, sys'.db, job, w + 1)
  {
    var read, e := sys.procs[p].phase.read, job.episodes[w];
    assert Readable(sys.db, job, w) && read[w] == sys.db.episodes[e];
    IdOf(sys.db, e);
    D.PutKeeps(cfg, sys.db, e, at);
    D.PutRow(cfg, sys.db, e, cfg.embed(read[w].body.content), at);
    hide Next, PutEncoding, Inv, EncodingsTrue, D.Encoded;
    var db' := Next(sys.db, OpPutEncoding(e, cfg.model, cfg.embed(read[w].body.content), at));
    D.EncodesCompose(cfg, start, sys.db, db', job.episodes, w);
    StillRead(sys.db, db', job, read);
    hide D.OnlyEncodes;
  }

  lemma StillRead(db: Db, db': Db, job: Job, read: seq<Episode>)
    requires HasRead(db, job, read) && db'.episodes == db.episodes
    ensures HasRead(db', job, read)
  {
    forall i | 0 <= i < |read| ensures Readable(db', job, i) { assert Readable(db, job, i); }
  }

  lemma IdOf(db: Db, e: Id)
    requires Inv(db) && e in db.episodes
    ensures db.episodes[e].id == e
  {}

  /** Everything has been read and embedded, or it has failed, and nothing is written yet. */
  lemma UntilEmbedded(cfg: Config, sys: Sys, p: nat, j: Id, job: Job, works: bool)
    requires AtJob(sys, p, j, job) && sys.procs[p].phase.Ready?
    ensures var b := Acts(cfg, sys, Reads(p, |job.episodes| + 1) + [EmbedAll(p, works)]);
      && p in b.procs && b == WithPhase(sys, p, b.procs[p].phase)
      && if D.Encodable(sys.db, job, works) then WritingFrom(b, p, j, job, 0) else b.procs[p].phase == Reporting(false)
  {
    var n := |job.episodes|;
    var first := WithPhase(sys, p, Reading([]));
    assert Reads(p, n + 1)[0] == ReadNext(p) && Reads(p, n + 1)[1..] == Reads(p, n);
    assert Act(cfg, sys, ReadNext(p)) == first by { hide Next; }
    ReadsOn(cfg, first, p, j, job, n);
    var a := Acts(cfg, sys, Reads(p, n + 1));
    ActsThen(cfg, sys, Reads(p, n + 1), [EmbedAll(p, works)]);
    EmbedsOne(cfg, a, p, j, job, works);
    hide HasRead, Act;
  }

  lemma EmbedsOne(cfg: Config, sys: Sys, p: nat, j: Id, job: Job, works: bool)
    requires AtJob(sys, p, j, job)
    requires if D.Encodable(sys.db, job, true)
      then sys.procs[p].phase.Reading? && HasRead(sys.db, job, sys.procs[p].phase.read) && |sys.procs[p].phase.read| == |job.episodes|
      else sys.procs[p].phase == Reporting(false)
    ensures var b := Acts(cfg, sys, [EmbedAll(p, works)]);
      && p in b.procs && b == WithPhase(sys, p, b.procs[p].phase)
      && if D.Encodable(sys.db, job, works) then WritingFrom(b, p, j, job, 0) else b.procs[p].phase == Reporting(false)
  {
    assert [EmbedAll(p, works)][1..] == [];
    hide Next, HasRead;
  }

  /** Then everything has been written, or nothing was. */
  lemma UntilWritten(cfg: Config, sys: Sys, p: nat, j: Id, job: Job, works: bool, at: Instant)
    requires Inv(sys.db) && EncodingsTrue(cfg, sys.db) && AtJob(sys, p, j, job) && sys.procs[p].phase.Ready?
    ensures var n := |job.episodes|;
      var c := Acts(cfg, sys, Reads(p, n + 1) + [EmbedAll(p, works)] + Writes(p, n + 1, at));
      && c == WithPhase(sys, p, Reporting(D.Encodable(sys.db, job, works))).(db := c.db)
      && if D.Encodable(sys.db, job, works) then WrittenTo(cfg, sys.db, c.db, job, n) else c.db == sys.db
  {
    var n := |job.episodes|;
    hide HasRead, Act, Inv, EncodingsTrue;
    UntilEmbedded(cfg, sys, p, j, job, works);
    var b := Acts(cfg, sys, Reads(p, n + 1) + [EmbedAll(p, works)]);
    ActsThen(cfg, sys, Reads(p, n + 1) + [EmbedAll(p, works)], Writes(p, n + 1, at));
    if D.Encodable(sys.db, job, works) {
      NothingWritten(cfg, sys.db, job);
      WritesOn(cfg, sys.db, b, p, j, job, 0, n, at);
    } else {
      Idles(cfg, b, p, Writes(p, n + 1, at));
    }
    hide D.Encodable, WrittenTo, Acts;
  }

  lemma NothingWritten(cfg: Config, db: Db, job: Job)
    requires Inv(db) && EncodingsTrue(cfg, db)
    ensures WrittenTo(cfg, db, db, job, 0)
  {
    D.EncodesNothing(cfg, db, job.episodes);
  }

  lemma ReportsOne(cfg: Config, start: Db, sys: Sys, p: nat, j: Id, job: Job, good: bool, at: Instant)
    requires AtJob(sys, p, j, job) && sys.procs[p].phase == Reporting(good)
    requires j in sys.db.jobs && sys.db.jobs[j] == job && job.HeldBy(sys.procs[p].worker)
    ensures var sys' := Acts(cfg, sys, [Report(p, at)]);
      && sys'.procs == sys.procs[p := sys.procs[p].(batch := sys.procs[p].batch[1..], phase := Ready)]
      && sys'.db == sys.db.(jobs := sys.db.jobs[j := D.Outcome(job, good, at)])
  {
    assert [Report(p, at)][1..] == [];
  }

  /** A process about to begin a job it holds, and nobody else moving: after the steps of one job
      the tables are what the sequential loop leaves, the job done exactly if all its episodes
      could be read and embedded, and the process is ready for its next job. */
  lemma RunsAlone(cfg: Config, sys: Sys, p: nat, j: Id, job: Job, works: bool, at: Instant)
    requires Inv(sys.db) && EncodingsTrue(cfg, sys.db) && AtJob(sys, p, j, job) && sys.procs[p].phase.Ready?
    requires j in sys.db.jobs && sys.db.jobs[j] == job && job.HeldBy(sys.procs[p].worker)
    ensures var (good, sys') := (D.Encodable(sys.db, job, works), Acts(cfg, sys, Steps(p, |job.episodes|, works, at)));
      && sys'.procs == sys.procs[p := sys.procs[p].(batch := sys.procs[p].batch[1..])]
      && sys'.db.jobs == sys.db.jobs[j := D.Outcome(job, good, at)]
      && D.OnlyEncodes(cfg, sys.db.(jobs := sys'.db.jobs), sys'.db, job.episodes)
      && (if good then D.Encoded(cfg, sys'.db, job.episodes) else sys'.db.encodings == sys.db.encodings)
      && EncodingsTrue(cfg, sys'.db) && Inv(sys'.db)
  {
    var n, good := |job.episodes|, D.Encodable(sys.db, job, works);
    var before := Reads(p, n + 1) + [EmbedAll(p, works)] + Writes(p, n + 1, at);
    hide Inv, Act, D.Encodable, Reads, Writes;
    UntilWritten(cfg, sys, p, j, job, works, at);
    var c := Acts(cfg, sys, before);
    ActsThen(cfg, sys, before, [Report(p, at)]);
    JobsAsTheyWere(cfg, sys.db, c.db, job, good);
    ReportsOne(cfg, sys.db, c, p, j, job, good, at);
    SoDone(cfg, sys.db, c.db, Acts(cfg, c, [Report(p, at)]).db, job, good);
    ActsKeepInv(cfg, sys, before + [Report(p, at)]);
    hide Acts, D.OnlyEncodes, D.Outcome, D.Encoded, EncodingsTrue, WrittenTo;
  }

  lemma JobsAsTheyWere(cfg: Config, start: Db, db: Db, job: Job, good: bool)
    requires if good then WrittenTo(cfg, start, db, job, |job.episodes|) else db == start
    ensures db.jobs == start.jobs
  {}

  lemma SoDone(cfg: Config, start: Db, db: Db, db': Db, job: Job, good: bool)
    requires if good then WrittenTo(cfg, start, db, job, |job.episodes|) else db == start
    requires db' == db.(jobs := db'.jobs) && EncodingsTrue(cfg, start)
    ensures D.OnlyEncodes(cfg, start.(jobs := db'.jobs), db', job.episodes)
    ensures EncodingsTrue(cfg, db') && if good then D.Encoded(cfg, db', job.episodes) else db'.encodings == start.encodings
  {
    assert job.episodes[..|job.episodes|] == job.episodes;
  }

  lemma {:induction false} ActsKeepInv(cfg: Config, sys: Sys, actions: seq<Action>)
    requires Inv(sys.db)
    ensures Inv(Acts(cfg, sys, actions).db)
    decreases |actions|
  {
    hide Act, Next, Inv;
    if actions != [] {
      ActDb(cfg, sys, actions[0]);
      if DbOp(cfg, sys, actions[0]).Some? { StepKeepsInv(sys.db, DbOp(cfg, sys, actions[0]).value); }
      ActsKeepInv(cfg, Act(cfg, sys, actions[0]), actions[1..]);
    }
  }

  /** A process with nothing left to do takes over what a claim in its name gives it, each job as
      it then stands and held by its worker; any other claim is not its business. */
  lemma LeasesAlone(cfg: Config, sys: Sys, p: nat, req: LeaseRequest, locked: set<Id>, order: seq<Id>)
    requires p in sys.procs
    ensures var (proc, sys') := (sys.procs[p], Act(cfg, sys, LeaseBatch(p, req, locked, order)));
      if proc.batch == [] && req.worker == proc.worker && (set j | j in order) == Claimed(sys.db.jobs, req, locked) then
        && sys'.db == Lease(sys.db, req, locked) && p in sys'.procs && sys'.procs == sys.procs[p := Proc(proc.worker, sys'.procs[p].batch, Ready)]
        && |sys'.procs[p].batch| == |order|
        && forall i :: 0 <= i < |order| ==>
             && order[i] in sys'.db.jobs && sys'.procs[p].batch[i] == (order[i], sys'.db.jobs[order[i]])
             && sys'.db.jobs[order[i]].HeldBy(proc.worker)
      else sys' == sys
  {
    var proc, sys' := sys.procs[p], Act(cfg, sys, LeaseBatch(p, req, locked, order));
    if proc.batch == [] && req.worker == proc.worker && (set j | j in order) == Claimed(sys.db.jobs, req, locked) {
      forall i | 0 <= i < |order| ensures order[i] in sys'.db.jobs && sys'.db.jobs[order[i]].HeldBy(proc.worker) {
        assert order[i] in (set j | j in order);
      }
    }
  }

  /** An extract job ends done exactly if its extraction was accepted, and writes what that wrote. */
  lemma ExtractsAlone(cfg: Config, sys: Sys, p: nat, j: Id, job: Job, cmd: ExtractCommand, at: Instant)
    requires p in sys.procs && sys.procs[p].batch != [] && sys.procs[p].batch[0] == (j, job) && job.kind == Extract && sys.procs[p].phase.Ready?
    requires j in sys.db.jobs && sys.db.jobs[j] == job && job.HeldBy(sys.procs[p].worker)
    ensures var (r, sys') := (ApplyExtraction(sys.db, cmd), Acts(cfg, sys, [Applied(p, cmd), Report(p, at)]));
      && sys'.procs == sys.procs[p := sys.procs[p].(batch := sys.procs[p].batch[1..])]
      && sys'.db == Kept(sys.db, r).(jobs := sys.db.jobs[j := D.Outcome(job, r.Ok?, at)])
  {
    var r := ApplyExtraction(sys.db, cmd);
    var mid := Next(sys.db, OpApplyExtraction(cmd));
    ExtractionTouches(sys.db, cmd);
    assert mid == Kept(sys.db, r);
    hide ApplyExtraction;
    var done := WithPhase(sys.(db := mid), p, Reporting(r.Ok?));
    assert Act(cfg, sys, Applied(p, cmd)) == done;
    ActsTwo(cfg, sys, Applied(p, cmd), Report(p, at));
  }

  lemma ActsTwo(cfg: Config, sys: Sys, a: Action, b: Action)
    ensures Acts(cfg, sys, [a, b]) == Act(cfg, Act(cfg, sys, a), b)
  {
    hide Act;
    assert [a, b][1..] == [b] && [b][1..] == [];
    assert Acts(cfg, Act(cfg, sys, a), [b]) == Act(cfg, Act(cfg, sys, a), b);
  }

  // ---- A whole batch ------------------------------------------------------------

  function BatchSteps(p: nat, batch: seq<(Id, Job)>, works: Id -> bool, at: Instant): seq<Action> {
    if batch == [] then []
    else Steps(p, |batch[0].1.episodes|, works(batch[0].0), at) + BatchSteps(p, batch[1..], works, at)
  }

  /** The jobs a process has in hand: encode jobs it holds, each once. */
  ghost predicate InHand(sys: Sys, p: nat, batch: seq<(Id, Job)>) {
    && p in sys.procs && sys.procs[p].batch == batch && sys.procs[p].phase.Ready?
    && (forall i :: 0 <= i < |batch| ==> batch[i].0 in sys.db.jobs && sys.db.jobs[batch[i].0] == batch[i].1)
    && (forall i :: 0 <= i < |batch| ==> batch[i].1.kind == Encode && batch[i].1.HeldBy(sys.procs[p].worker))
    && (forall i, j :: 0 <= i < j < |batch| ==> batch[i].0 != batch[j].0)
  }

  /** What doing a batch leaves: each job as its outcome says, with its encodings written if it was
      done, and every other job as it was. */
  ghost predicate BatchDone(cfg: Config, start: Db, db: Db, batch: seq<(Id, Job)>, works: Id -> bool, at: Instant) {
    && db.episodes == start.episodes && db.jobs.Keys == start.jobs.Keys && (forall k :: k in start.encodings ==> k in db.encodings)
    && (forall i :: 0 <= i < |batch| ==> D.Drained(cfg, start, db, batch[i].0, batch[i].1, works(batch[i].0), at))
    && (forall j :: j in start.jobs && (forall i :: 0 <= i < |batch| ==> batch[i].0 != j) ==> db.jobs[j] == start.jobs[j])
  }

  /** So a process left alone with its batch does all of it as the loop over a batch does. */
  lemma {:induction false} DrainsAlone(cfg: Config, sys: Sys, p: nat, batch: seq<(Id, Job)>, works: Id -> bool, at: Instant)
    requires Inv(sys.db) && EncodingsTrue(cfg, sys.db) && InHand(sys, p, batch)
    ensures var sys' := Acts(cfg, sys, BatchSteps(p, batch, works, at));
      && sys'.procs == sys.procs[p := sys.procs[p].(batch := [])]
      && BatchDone(cfg, sys.db, sys'.db, batch, works, at) && EncodingsTrue(cfg, sys'.db)
    decreases |batch|
  {
    hide Inv, EncodingsTrue, Act, BatchDone, Steps;
    if batch == [] {
      NothingInHand(cfg, sys.db, works, at);
    } else {
      var (j, job, rest) := (batch[0].0, batch[0].1, batch[1..]);
      var steps := Steps(p, |job.episodes|, works(j), at);
      RunsAlone(cfg, sys, p, j, job, works(j), at);
      var mid := Acts(cfg, sys, steps);
      ActsThen(cfg, sys, steps, BatchSteps(p, rest, works, at));
      RestInHand(cfg, sys, mid, p, batch, works, at);
      DrainsAlone(cfg, mid, p, rest, works, at);
      OneThenTheRest(cfg, sys.db, mid.db, Acts(cfg, mid, BatchSteps(p, rest, works, at)).db, batch, works, at);
    }
  }

  lemma NothingInHand(cfg: Config, db: Db, works: Id -> bool, at: Instant)
    ensures BatchDone(cfg, db, db, [], works, at)
  {}

  /** The tables after the first job of a batch. */
  ghost predicate FirstDone(cfg: Config, start: Db, db: Db, batch: seq<(Id, Job)>, works: Id -> bool, at: Instant)
    requires batch != []
  {
    var (j, job) := (batch[0].0, batch[0].1);
    var good := D.Encodable(start, job, works(j));
    && db.jobs == start.jobs[j := D.Outcome(job, good, at)] && D.OnlyEncodes(cfg, start.(jobs := db.jobs), db, job.episodes)
    && (good ==> D.Encoded(cfg, db, job.episodes))
  }

  lemma RestInHand(cfg: Config, sys: Sys, mid: Sys, p: nat, batch: seq<(Id, Job)>, works: Id -> bool, at: Instant)
    requires InHand(sys, p, batch) && batch != [] && FirstDone(cfg, sys.db, mid.db, batch, works, at)
    requires mid.procs == sys.procs[p := sys.procs[p].(batch := batch[1..])]
    ensures InHand(mid, p, batch[1..])
  {
    forall i | 0 <= i < |batch[1..]| ensures batch[1..][i].0 in mid.db.jobs && mid.db.jobs[batch[1..][i].0] == batch[1..][i].1 {
      assert batch[1..][i] == batch[i + 1] && batch[0].0 != batch[i + 1].0;
    }
    hide D.Outcome, D.OnlyEncodes, D.Encoded, D.Encodable;
  }

  lemma OneThenTheRest(cfg: Config, start: Db, mid: Db, db: Db, batch: seq<(Id, Job)>, works: Id -> bool, at: Instant)
    requires batch != [] && batch[0].0 in start.jobs && (forall i, j :: 0 <= i < j < |batch| ==> batch[i].0 != batch[j].0)
    requires FirstDone(cfg, start, mid, batch, works, at) && BatchDone(cfg, mid, db, batch[1..], works, at)
    ensures BatchDone(cfg, start, db, batch, works, at)
  {
    forall job, w ensures D.Encodable(mid, job, w) == D.Encodable(start, job, w) {}
    assert forall i :: 0 <= i < |batch[1..]| ==> batch[1..][i].0 != batch[0].0;
    forall i | 0 <= i < |batch| ensures D.Drained(cfg, start, db, batch[i].0, batch[i].1, works(batch[i].0), at) {
      if i > 0 { assert D.Drained(cfg, mid, db, batch[1..][i - 1].0, batch[1..][i - 1].1, works(batch[1..][i - 1].0), at); }
    }
    forall j | j in start.jobs && (forall i :: 0 <= i < |batch| ==> batch[i].0 != j) ensures db.jobs[j] == start.jobs[j] {
      assert forall i :: 0 <= i < |batch[1..]| ==> batch[1..][i].0 != j;
    }
    hide D.Outcome, D.Encodable;
  }
}
