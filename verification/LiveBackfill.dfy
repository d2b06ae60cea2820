/** The backfill walk on a live system: anything may happen between its statements. */
module LiveBackfill {
  import opened Model
  import T = Tables
  import opened Invariants
  import H = Histories
  import opened S = Store
  import opened B = Backfill

  /** The tables, and one kind's walk through one scope: the page it read, where that ends and
      how much of it is enqueued. */
  datatype Live = Live(db: T.Db, after: nat, ids: seq<Id>, upto: nat, sent: nat, over: bool)

  datatype Step =
    | Else(op: T.Op)                                            // anybody's, the other kinds of this walk included
    | Read(limit: nat, ids: seq<Id>)
    | Send(batch: nat, now: Instant, runAfter: Option<Instant>)
    | Move                                                      // the cursor, to the end of the page
    | Resume(after: nat)                                        // a later call, from the least cursor of any kind

  /** Reads see the tables as they stand; a page is read once the one before it is enqueued; an
      enqueue that fails, or a cursor whose episode is gone, ends the call. */
  ghost predicate Can(l: Live, t: Target, scope: ScopeId, step: Step) {
    match step
    case Else(_) => true
    case Read(limit, ids) => !l.over && l.ids == [] && limit > 0 && FirstPending(l.db, t, scope, l.after, limit, ids)
    case Send(batch, now, runAfter) => batch > 0 && l.sent < |l.ids| && scope in l.db.scopes
    case Move => l.ids != [] && l.sent == |l.ids| && l.ids[|l.ids| - 1] in l.db.episodes
    case Resume(after) => l.ids == [] && after <= l.after
  }

  function End(l: Live, batch: nat): nat { if l.sent + batch < |l.ids| then l.sent + batch else |l.ids| }

  function Batch(l: Live, t: Target, scope: ScopeId, batch: nat, runAfter: Option<Instant>): NewJob
    requires l.sent <= |l.ids|
  {
    NewJob(t.Kind(), scope, l.ids[l.sent..End(l, batch)], runAfter, 0)
  }

  function After(l: Live, t: Target, scope: ScopeId, step: Step): Live {
    match step
    case Else(op) => l.(db := T.Next(l.db, op))
    case Read(_, ids) =>
      if ids == [] then l.(over := true)
      else l.(ids := ids, sent := 0, upto := if ids[|ids| - 1] in l.db.episodes then l.db.episodes[ids[|ids| - 1]].seqNo else 0)
    case Send(batch, now, runAfter) =>
      if l.sent > |l.ids| then l
      else l.(db := T.Next(l.db, T.OpEnqueue(Batch(l, t, scope, batch, runAfter), now)), sent := End(l, batch))
    case Move => l.(after := l.upto, ids := [], sent := 0)
    case Resume(after) => l.(after := after)
  }

  ghost predicate Walks(l: Live, t: Target, scope: ScopeId, steps: seq<Step>)
    decreases |steps|
  {
    steps == [] || (Can(l, t, scope, steps[0]) && Walks(After(l, t, scope, steps[0]), t, scope, steps[1..]))
  }

  function Walked(l: Live, t: Target, scope: ScopeId, steps: seq<Step>): Live
    decreases |steps|
  {
    if steps == [] then l else Walked(After(l, t, scope, steps[0]), t, scope, steps[1..])
  }

  /** Nothing to do for this episode here: projected, or an outstanding job names it. */
  ghost predicate Met(db: T.Db, t: Target, scope: ScopeId, e: Id) {
    !Lacks(db, t, scope, 0, e) || HasJob(db, t.Kind(), scope, e)
  }

  ghost predicate EverMet(l: Live, t: Target, scope: ScopeId, steps: seq<Step>, e: Id)
    decreases |steps|
  {
    Met(l.db, t, scope, e) || (steps != [] && EverMet(After(l, t, scope, steps[0]), t, scope, steps[1..], e))
  }

  /** What the walk has behind it. */
  predicate Behind(l: Live, e: Id, seqNo: nat) {
    || l.over || seqNo <= l.after
    || (exists i :: 0 <= i < l.sent && i < |l.ids| && l.ids[i] == e)
    || (l.ids != [] && e !in l.ids && seqNo <= l.upto)
  }

  ghost predicate LiveOk(l: Live, scope: ScopeId, e: Id, seqNo: nat) {
    Inv(l.db) && l.sent <= |l.ids| && seqNo > 0 && e < l.db.minted && (e in l.db.episodes ==> l.db.episodes[e].scope == scope && l.db.episodes[e].seqNo == seqNo)
  }

  lemma ElseKeeps(l: Live, t: Target, scope: ScopeId, op: T.Op, e: Id, seqNo: nat)
    requires LiveOk(l, scope, e, seqNo)
    ensures LiveOk(l.(db := T.Next(l.db, op)), scope, e, seqNo)
  {
    StepKeepsInv(l.db, op);
    H.EpisodeStep(l.db, op, e);
    hide T.Next, LogInv, ProjectionInv, QueueInv;
  }

  lemma StepKeepsOk(l: Live, t: Target, scope: ScopeId, step: Step, e: Id, seqNo: nat)
    requires LiveOk(l, scope, e, seqNo) && Can(l, t, scope, step)
    ensures LiveOk(After(l, t, scope, step), scope, e, seqNo)
    ensures e in After(l, t, scope, step).db.episodes ==> e in l.db.episodes
  {
    match step
    case Else(op) =>
      ElseKeeps(l, t, scope, op, e, seqNo);
      H.EpisodeStep(l.db, op, e);
    case Send(batch, now, runAfter) =>
      var op := T.OpEnqueue(Batch(l, t, scope, batch, runAfter), now);
      ElseKeeps(l, t, scope, op, e, seqNo);
      H.EpisodeStep(l.db, op, e);
    case _ =>
  }

  lemma EnqueueNames(db: T.Db, job: NewJob, now: Instant, e: Id)
    requires T.Enqueue(db, job, now).Ok? && e in job.episodes
    ensures HasJob(T.Enqueue(db, job, now).value, job.kind, job.scope, e)
  {
    var db' := T.Enqueue(db, job, now).value;
    if T.InFlight(db.jobs, job.kind, job.scope, job.episodes) {
      var j :| j in db.jobs && db.jobs[j].Outstanding() && db.jobs[j].SameWork(job.kind, job.scope, job.episodes);
      assert e in db'.jobs[j].episodes;
    } else {
      assert e in db'.jobs[db.minted].episodes;
    }
  }

  /** A batch enqueued adds no job but one of at most the batch asked for of the page, to run when asked. */
  lemma SendsAsAsked(l: Live, t: Target, scope: ScopeId, batch: nat, now: Instant, runAfter: Option<Instant>)
    requires Can(l, t, scope, Send(batch, now, runAfter))
    ensures PageAsked(l.db, After(l, t, scope, Send(batch, now, runAfter)).db, if t.EncodeFor? then Encode else Extract, l.ids, now, runAfter, batch)
  {
    var job := Batch(l, t, scope, batch, runAfter);
    AsksNothing(l.db, job.kind, l.ids, now, runAfter, batch);
    AsksOne(l.db, l.db, job, now, l.ids, batch, l.sent, End(l, batch));
    hide PageAsked;
  }

  /** A batch enqueued names its episodes in an outstanding job. */
  lemma SentIsMet(l: Live, t: Target, scope: ScopeId, batch: nat, now: Instant, runAfter: Option<Instant>, i: nat)
    requires Can(l, t, scope, Send(batch, now, runAfter)) && l.sent <= i < End(l, batch)
    ensures HasJob(After(l, t, scope, Send(batch, now, runAfter)).db, t.Kind(), scope, l.ids[i])
  {
    var job := Batch(l, t, scope, batch, runAfter);
    assert job.episodes[i - l.sent] == l.ids[i];
    EnqueueNames(l.db, job, now, l.ids[i]);
    hide HasJob;
  }

  /** One step puts behind the walk only what is met by then. */
  lemma StepMeets(l: Live, t: Target, scope: ScopeId, step: Step, e: Id, seqNo: nat)
    requires LiveOk(l, scope, e, seqNo) && Can(l, t, scope, step) && e in l.db.episodes && !Behind(l, e, seqNo)
    ensures Met(l.db, t, scope, e) || Met(After(l, t, scope, step).db, t, scope, e) || !Behind(After(l, t, scope, step), e, seqNo)
  {
    match step
    case Send(batch, now, runAfter) =>
      if Behind(After(l, t, scope, step), e, seqNo) {
        var i :| 0 <= i < End(l, batch) && l.ids[i] == e;
        SentIsMet(l, t, scope, batch, now, runAfter, i);
      }
    case Read(limit, ids) =>
      if Lacks(l.db, t, scope, 0, e) { assert Lacks(l.db, t, scope, l.after, e); }
    case Else(op) =>
    case Move =>
    case Resume(_) =>
  }

  /** A walk that reaches its end, whatever anybody does meanwhile, met every episode that was
      there when it began and still is: at some moment it was projected, or an outstanding job
      named it. */
  lemma {:induction false} EveryEpisodeMet(l: Live, t: Target, scope: ScopeId, steps: seq<Step>, e: Id, seqNo: nat)
    requires LiveOk(l, scope, e, seqNo) && Walks(l, t, scope, steps) && !Behind(l, e, seqNo)
    requires Walked(l, t, scope, steps).over && e in Walked(l, t, scope, steps).db.episodes
    ensures EverMet(l, t, scope, steps, e)
    decreases |steps|
  {
    assert steps != [];
    var l' := After(l, t, scope, steps[0]);
    StepKeepsOk(l, t, scope, steps[0], e, seqNo);
    StillThere(l', t, scope, steps[1..], e, seqNo);
    StepMeets(l, t, scope, steps[0], e, seqNo);
    if !Behind(l', e, seqNo) { EveryEpisodeMet(l', t, scope, steps[1..], e, seqNo); }
  }

  lemma {:induction false} StillThere(l: Live, t: Target, scope: ScopeId, steps: seq<Step>, e: Id, seqNo: nat)
    requires LiveOk(l, scope, e, seqNo) && Walks(l, t, scope, steps) && e in Walked(l, t, scope, steps).db.episodes
    ensures e in l.db.episodes
    decreases |steps|
  {
    if steps != [] {
      StepKeepsOk(l, t, scope, steps[0], e, seqNo);
      StillThere(After(l, t, scope, steps[0]), t, scope, steps[1..], e, seqNo);
    }
  }

  /** So from the cursor a walk starts at, on any reachable store. */
  lemma LiveWalkMeetsAll(db: T.Db, after: nat, t: Target, scope: ScopeId, steps: seq<Step>, e: Id)
    requires Inv(db) && e in db.episodes && db.episodes[e].scope == scope && db.episodes[e].seqNo > after
    requires Walks(Live(db, after, [], 0, 0, false), t, scope, steps)
    requires Walked(Live(db, after, [], 0, 0, false), t, scope, steps).over
    requires e in Walked(Live(db, after, [], 0, 0, false), t, scope, steps).db.episodes
    ensures EverMet(Live(db, after, [], 0, 0, false), t, scope, steps, e)
  {
    EveryEpisodeMet(Live(db, after, [], 0, 0, false), t, scope, steps, e, db.episodes[e].seqNo);
  }

  // ---- The end can be reached -------------------------------------------------

  lemma EarliestLacking(db: T.Db, t: Target, scope: ScopeId, after: nat) returns (e: Id)
    requires LogInv(db) && !NoneLeft(db, t, scope, after)
    ensures FirstPending(db, t, scope, after, 1, [e]) && e in db.episodes && scope in db.scopes
  {
    var lacking := Lacking(db, t, scope, after);
    var some :| Lacks(db, t, scope, after, some);
    assert some in lacking;
    EarliestExists(db.episodes, lacking);
    e :| Earliest(db.episodes, lacking, e);
    forall f | Lacks(db, t, scope, after, f) && f != e ensures db.episodes[e].seqNo < db.episodes[f].seqNo { assert f in lacking; }
  }

  /** One episode read, enqueued and passed. */
  lemma PassesOne(l: Live, t: Target, scope: ScopeId, batch: nat, now: Instant, runAfter: Option<Instant>) returns (steps: seq<Step>)
    requires Inv(l.db) && l.ids == [] && !l.over && batch > 0 && !NoneLeft(l.db, t, scope, l.after)
    ensures Walks(l, t, scope, steps)
    ensures var l' := Walked(l, t, scope, steps);
      Inv(l'.db) && l'.ids == [] && !l'.over && Pend(l'.db, t, scope, l'.after) < Pend(l.db, t, scope, l.after)
  {
    var e := EarliestLacking(l.db, t, scope, l.after);
    var (read, send) := (Read(1, [e]), Send(batch, now, runAfter));
    var a := After(l, t, scope, read);
    var b := After(a, t, scope, send);
    steps := [read, send, Move];
    var job := Batch(a, t, scope, batch, runAfter);
    assert job.episodes == [e];
    EnqueueOnlyAdds(l.db, job, now);
    PageTakes(l.db, t, scope, l.after, 1, [e], l.db.episodes[e].seqNo);
    PendStands(l.db, b.db, {scope}, t, scope, l.db.episodes[e].seqNo);
    ThreeSteps(l, t, scope, read, send, Move);
    hide Inv, FirstPending, Pend, NoneLeft, OnlyAdds, T.Enqueue, Walks, Walked;
  }

  lemma ThreeSteps(l: Live, t: Target, scope: ScopeId, a: Step, b: Step, c: Step)
    requires Can(l, t, scope, a) && Can(After(l, t, scope, a), t, scope, b)
    requires Can(After(After(l, t, scope, a), t, scope, b), t, scope, c)
    ensures Walks(l, t, scope, [a, b, c])
    ensures Walked(l, t, scope, [a, b, c]) == After(After(After(l, t, scope, a), t, scope, b), t, scope, c)
  {
    hide After, Can;
    assert [a, b, c][1..] == [b, c] && [b, c][1..] == [c] && [c][1..] == [];
    var l' := After(After(l, t, scope, a), t, scope, b);
    assert Walks(l', t, scope, [c]) && Walked(l', t, scope, [c]) == After(l', t, scope, c);
    assert Walks(After(l, t, scope, a), t, scope, [b, c]) && Walked(After(l, t, scope, a), t, scope, [b, c]) == After(l', t, scope, c);
  }

  lemma {:induction false} StepsJoin(l: Live, t: Target, scope: ScopeId, xs: seq<Step>, ys: seq<Step>)
    requires Walks(l, t, scope, xs) && Walks(Walked(l, t, scope, xs), t, scope, ys)
    ensures Walks(l, t, scope, xs + ys) && Walked(l, t, scope, xs + ys) == Walked(Walked(l, t, scope, xs), t, scope, ys)
    decreases |xs|
  {
    hide After, Can;
    if xs == [] {
      assert xs + ys == ys;
    } else {
      assert (xs + ys)[1..] == xs[1..] + ys;
      StepsJoin(After(l, t, scope, xs[0]), t, scope, xs[1..], ys);
    }
  }

  /** Undisturbed, a walk does reach its end, with any batch and run time. */
  lemma {:induction false} WalkCanEnd(l: Live, t: Target, scope: ScopeId, batch: nat, now: Instant, runAfter: Option<Instant>) returns (steps: seq<Step>)
    requires Inv(l.db) && l.ids == [] && !l.over && batch > 0
    ensures Walks(l, t, scope, steps) && Walked(l, t, scope, steps).over
    decreases Pend(l.db, t, scope, l.after)
  {
    if NoneLeft(l.db, t, scope, l.after) {
      steps := [Read(1, [])];
      assert steps[1..] == [];
      assert FirstPending(l.db, t, scope, l.after, 1, []);
    } else {
      var first := PassesOne(l, t, scope, batch, now, runAfter);
      var rest := WalkCanEnd(Walked(l, t, scope, first), t, scope, batch, now, runAfter);
      StepsJoin(l, t, scope, first, rest);
      steps := first + rest;
    }
    hide Inv, After, Can, Pend;
  }
}
