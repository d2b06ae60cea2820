/** What a projection may be dropped for: a backfill run on the live system, and the workers
    draining what it enqueues, bring the encodings back. */
module Restoring {
  import opened Model
  import opened Tables
  import opened Invariants
  import opened Histories
  import opened Backfill
  import opened Workers
  import opened Staleness
  import L = LiveBackfill
  import S = Store

  /** Everybody, and one walk of the encode kind through one scope. */
  datatype Whole = Whole(sys: Sys, walk: L.Live)

  datatype Move = Acted(a: Action) | Walk(step: L.Step)

  function T(cfg: Config): S.Target { S.EncodeFor(cfg.model) }

  /** What a move does to the tables, as an action: a walk only enqueues. */
  function AsActions(cfg: Config, at: Whole, scope: ScopeId, m: Move): seq<Action> {
    match m
    case Acted(a) => [a]
    case Walk(Send(batch, now, runAfter)) =>
      if at.walk.sent > |at.walk.ids| then []
      else [Client(OpEnqueue(L.Batch(at.walk, T(cfg), scope, batch, runAfter), now))]
    case Walk(_) => []
  }

  function Made(cfg: Config, at: Whole, scope: ScopeId, m: Move): Whole {
    var sys := Acts(cfg, at.sys, AsActions(cfg, at, scope, m));
    match m
    case Acted(_) => Whole(sys, at.walk.(db := sys.db))
    case Walk(step) => Whole(sys, L.After(at.walk, T(cfg), scope, step))
  }

  /** The walk sees the tables as they stand. */
  ghost predicate Can(cfg: Config, at: Whole, scope: ScopeId, m: Move) {
    at.walk.db == at.sys.db && match m case Acted(_) => true case Walk(step) => !step.Else? && L.Can(at.walk, T(cfg), scope, step)
  }

  ghost predicate Goes(cfg: Config, at: Whole, scope: ScopeId, ms: seq<Move>)
    decreases |ms|
  {
    ms == [] || (Can(cfg, at, scope, ms[0]) && Goes(cfg, Made(cfg, at, scope, ms[0]), scope, ms[1..]))
  }

  function Gone(cfg: Config, at: Whole, scope: ScopeId, ms: seq<Move>): Whole
    decreases |ms|
  {
    if ms == [] then at else Gone(cfg, Made(cfg, at, scope, ms[0]), scope, ms[1..])
  }

  function AllActions(cfg: Config, at: Whole, scope: ScopeId, ms: seq<Move>): seq<Action>
    decreases |ms|
  {
    if ms == [] then [] else AsActions(cfg, at, scope, ms[0]) + AllActions(cfg, Made(cfg, at, scope, ms[0]), scope, ms[1..])
  }

  lemma {:induction false} GoneActs(cfg: Config, at: Whole, scope: ScopeId, ms: seq<Move>)
    ensures Gone(cfg, at, scope, ms).sys == Acts(cfg, at.sys, AllActions(cfg, at, scope, ms))
    decreases |ms|
  {
    if ms != [] {
      var next := Made(cfg, at, scope, ms[0]);
      GoneActs(cfg, next, scope, ms[1..]);
      ActsJoin(cfg, at.sys, AsActions(cfg, at, scope, ms[0]), AllActions(cfg, next, scope, ms[1..]));
      hide AsActions, Acts;
    }
  }

  /** Every encode job that named the episode while outstanding was done at some later time. */
  ghost predicate NamedDone(cfg: Config, at: Whole, scope: ScopeId, ms: seq<Move>, e: Id)
    decreases |ms|
  {
    && (forall j :: Names(at.sys.db, j, scope, e) ==> EverDone(cfg, at.sys, AllActions(cfg, at, scope, ms), j))
    && (ms != [] ==> NamedDone(cfg, Made(cfg, at, scope, ms[0]), scope, ms[1..], e))
  }

  /** Nobody believes to have written an encoding that is not there. */
  ghost predicate Clean(cfg: Config, sys: Sys, e: Id) { Encoded(cfg, sys.db, e) || forall j :: NobodyStale(sys, j, e) }

  lemma CleanStep(cfg: Config, sys: Sys, a: Action, e: Id)
    requires SysInv(cfg, sys) && e in sys.db.episodes && e in Act(cfg, sys, a).db.episodes && Clean(cfg, sys, e) && !Drops(a)
    ensures Clean(cfg, Act(cfg, sys, a), e)
  {
    var after := Act(cfg, sys, a);
    EncodedStep(cfg, sys, a, e);
    if !Encoded(cfg, after.db, e) {
      forall j, p | p in after.procs ensures !Stale(after.db, after.procs[p], j, e) {
        assert NobodyStale(sys, j, e);
        if Stale(after.db, after.procs[p], j, e) { StaleBefore(cfg, sys, a, p, j, e); }
      }
    }
    hide Act, SysInv, Stale, WritesAt, Encoded, DbOp;
  }

  /** What holds at each moment of the walk. */
  ghost predicate Good(cfg: Config, at: Whole, scope: ScopeId, e: Id, seqNo: nat) {
    SysInv(cfg, at.sys) && at.walk.db == at.sys.db && e in at.sys.db.episodes && Clean(cfg, at.sys, e) && L.LiveOk(at.walk, scope, e, seqNo)
  }

  lemma WalkIsEnqueue(cfg: Config, at: Whole, scope: ScopeId, step: L.Step)
    requires Can(cfg, at, scope, Walk(step))
    ensures Made(cfg, at, scope, Walk(step)).walk.db == Made(cfg, at, scope, Walk(step)).sys.db
    ensures step.Send? ==>
      AsActions(cfg, at, scope, Walk(step)) == [Client(OpEnqueue(L.Batch(at.walk, T(cfg), scope, step.batch, step.runAfter), step.now))]
    ensures !step.Send? ==> AsActions(cfg, at, scope, Walk(step)) == [] && Made(cfg, at, scope, Walk(step)).sys == at.sys
  {
    if step.Send? {
      ActsOne(cfg, at.sys, Client(OpEnqueue(L.Batch(at.walk, T(cfg), scope, step.batch, step.runAfter), step.now)));
    }
    hide Next, Acts;
  }

  lemma ActedKeeps(cfg: Config, at: Whole, scope: ScopeId, a: Action, e: Id, seqNo: nat)
    requires Good(cfg, at, scope, e, seqNo) && !Drops(a) && e in Act(cfg, at.sys, a).db.episodes
    ensures Good(cfg, Whole(Act(cfg, at.sys, a), at.walk.(db := Act(cfg, at.sys, a).db)), scope, e, seqNo)
  {
    ActKeeps(cfg, at.sys, a);
    CleanStep(cfg, at.sys, a, e);
    ActDb(cfg, at.sys, a);
    hide Act, SysInv, Clean, DbOp, Next;
    var op := DbOp(cfg, at.sys, a);
    if op.Some? { L.ElseKeeps(at.walk, T(cfg), scope, op.value, e, seqNo); }
  }

  /** One move keeps it, while the episode stands. */
  lemma MoveKeeps(cfg: Config, at: Whole, scope: ScopeId, m: Move, e: Id, seqNo: nat)
    requires Good(cfg, at, scope, e, seqNo) && Can(cfg, at, scope, m) && NoDrop(AsActions(cfg, at, scope, m))
    requires e in Made(cfg, at, scope, m).sys.db.episodes
    ensures Good(cfg, Made(cfg, at, scope, m), scope, e, seqNo)
  {
    match m
    case Acted(a) =>
      ActsOne(cfg, at.sys, a);
      assert [a][0] == a;
      ActedKeeps(cfg, at, scope, a, e, seqNo);
      hide Act, Acts, Good;
    case Walk(step) =>
      WalkIsEnqueue(cfg, at, scope, step);
      L.StepKeepsOk(at.walk, T(cfg), scope, step, e, seqNo);
      if step.Send? {
        var a := Client(OpEnqueue(L.Batch(at.walk, T(cfg), scope, step.batch, step.runAfter), step.now));
        ActsOne(cfg, at.sys, a);
        ActKeeps(cfg, at.sys, a);
        CleanStep(cfg, at.sys, a, e);
      }
      hide Act, Acts, SysInv, Clean, L.LiveOk, L.After, AsActions;
  }

  /** A moment at which the walk has met the episode is enough. */
  lemma MetIsEnough(cfg: Config, at: Whole, scope: ScopeId, ms: seq<Move>, e: Id, seqNo: nat)
    requires Good(cfg, at, scope, e, seqNo) && L.Met(at.sys.db, T(cfg), scope, e)
    requires NoDrop(AllActions(cfg, at, scope, ms)) && NamedDone(cfg, at, scope, ms, e)
    ensures e in Gone(cfg, at, scope, ms).sys.db.episodes ==> Encoded(cfg, Gone(cfg, at, scope, ms).sys.db, e)
  {
    var actions := AllActions(cfg, at, scope, ms);
    GoneActs(cfg, at, scope, ms);
    if Encoded(cfg, at.sys.db, e) {
      StaysEncoded(cfg, at.sys, actions, e);
    } else {
      var j := NamedBy(cfg, at.sys, scope, e, seqNo);
      NamedIsSound(cfg, at.sys, j, scope, e);
      SoundOnceDone(cfg, at.sys, actions, j, e);
    }
    hide Gone, AllActions, Acts;
  }

  lemma NamedBy(cfg: Config, sys: Sys, scope: ScopeId, e: Id, seqNo: nat) returns (j: Id)
    requires e in sys.db.episodes && sys.db.episodes[e].scope == scope && sys.db.episodes[e].seqNo == seqNo > 0
    requires !Encoded(cfg, sys.db, e) && L.Met(sys.db, T(cfg), scope, e)
    ensures Names(sys.db, j, scope, e)
  {
    assert S.Lacks(sys.db, T(cfg), scope, 0, e);
    j :| j in sys.db.jobs && sys.db.jobs[j].Outstanding() && sys.db.jobs[j].kind == Encode
         && sys.db.jobs[j].scope == scope && e in sys.db.jobs[j].episodes;
  }

  lemma StoodAll(cfg: Config, at: Whole, scope: ScopeId, ms: seq<Move>, e: Id)
    requires SysInv(cfg, at.sys) && e < at.sys.db.minted && e in Gone(cfg, at, scope, ms).sys.db.episodes
    ensures e in at.sys.db.episodes
  {
    GoneActs(cfg, at, scope, ms);
    SurvivorWasThere(cfg, at.sys, AllActions(cfg, at, scope, ms), e);
  }

  /** One move puts behind the walk only what is met by then. */
  lemma MoveMeets(cfg: Config, at: Whole, scope: ScopeId, m: Move, e: Id, seqNo: nat)
    requires Good(cfg, at, scope, e, seqNo) && Can(cfg, at, scope, m) && !L.Behind(at.walk, e, seqNo)
    ensures var next := Made(cfg, at, scope, m);
      L.Met(at.sys.db, T(cfg), scope, e) || L.Met(next.walk.db, T(cfg), scope, e) || !L.Behind(next.walk, e, seqNo)
  {
    match m
    case Acted(_) =>
    case Walk(step) => L.StepMeets(at.walk, T(cfg), scope, step, e, seqNo);
  }

  lemma {:induction false} WalkedThenDone(cfg: Config, at: Whole, scope: ScopeId, ms: seq<Move>, e: Id, seqNo: nat)
    requires Good(cfg, at, scope, e, seqNo) && Goes(cfg, at, scope, ms) && !L.Behind(at.walk, e, seqNo)
    requires NoDrop(AllActions(cfg, at, scope, ms)) && NamedDone(cfg, at, scope, ms, e)
    requires Gone(cfg, at, scope, ms).walk.over && e in Gone(cfg, at, scope, ms).sys.db.episodes
    ensures Encoded(cfg, Gone(cfg, at, scope, ms).sys.db, e)
    decreases |ms|
  {
    assert ms != [];
    var (m, rest) := (ms[0], ms[1..]);
    var next := Made(cfg, at, scope, m);
    DropsSplit(AsActions(cfg, at, scope, m), AllActions(cfg, next, scope, rest));
    if L.Met(at.sys.db, T(cfg), scope, e) {
      MetIsEnough(cfg, at, scope, ms, e, seqNo);
    } else {
      StandsNext(cfg, at, scope, m, rest, e, seqNo);
      MoveKeeps(cfg, at, scope, m, e, seqNo);
      MoveMeets(cfg, at, scope, m, e, seqNo);
      hide Good, L.Met, L.Behind, Made, AsActions, Can;
      if L.Met(next.sys.db, T(cfg), scope, e) {
        MetIsEnough(cfg, next, scope, rest, e, seqNo);
      } else {
        assert next.walk.db == next.sys.db by { GoodDb(cfg, next, scope, e, seqNo); }
        WalkedThenDone(cfg, next, scope, rest, e, seqNo);
      }
    }
  }

  lemma GoodDb(cfg: Config, at: Whole, scope: ScopeId, e: Id, seqNo: nat)
    requires Good(cfg, at, scope, e, seqNo)
    ensures at.walk.db == at.sys.db
  {}

  lemma DropsSplit(xs: seq<Action>, ys: seq<Action>)
    requires NoDrop(xs + ys)
    ensures NoDrop(xs) && NoDrop(ys)
  {
    assert forall i :: 0 <= i < |xs| ==> (xs + ys)[i] == xs[i];
    assert forall i :: 0 <= i < |ys| ==> (xs + ys)[|xs| + i] == ys[i];
  }

  lemma StandsNext(cfg: Config, at: Whole, scope: ScopeId, m: Move, rest: seq<Move>, e: Id, seqNo: nat)
    requires Good(cfg, at, scope, e, seqNo) && e in Gone(cfg, Made(cfg, at, scope, m), scope, rest).sys.db.episodes
    ensures e in Made(cfg, at, scope, m).sys.db.episodes
  {
    var next := Made(cfg, at, scope, m);
    MintedOn(cfg, at.sys, AsActions(cfg, at, scope, m));
    StoodAll(cfg, next, scope, rest, e);
    hide AsActions, Acts, Gone;
  }

  lemma {:induction false} MintedOn(cfg: Config, sys: Sys, actions: seq<Action>)
    requires SysInv(cfg, sys)
    ensures SysInv(cfg, Acts(cfg, sys, actions)) && sys.db.minted <= Acts(cfg, sys, actions).db.minted
    decreases |actions|
  {
    if actions != [] {
      ActKeeps(cfg, sys, actions[0]);
      ActDb(cfg, sys, actions[0]);
      MintedGrows(cfg, sys, actions[0]);
      MintedOn(cfg, Act(cfg, sys, actions[0]), actions[1..]);
    }
    hide SysInv, Act;
  }

  lemma MintedGrows(cfg: Config, sys: Sys, a: Action)
    requires SysInv(cfg, sys)
    ensures sys.db.minted <= Act(cfg, sys, a).db.minted
  {
    ActDb(cfg, sys, a);
    var op := DbOp(cfg, sys, a);
    if op.Some? { StepKeepsInv(sys.db, op.value); }
    hide Act, DbOp, Next;
  }

  /** A backfill walk that reaches its end while clients and workers go on restores the
      encodings: every episode that was there when it began and still is has the vector the
      embedder makes of it, once every encode job that named it meanwhile has been done, if
      nothing was dropped since and nobody was stale on it then. */
  lemma LiveBackfillRestores(cfg: Config, sys: Sys, scope: ScopeId, ms: seq<Move>, e: Id)
    requires SysInv(cfg, sys) && e in sys.db.episodes && sys.db.episodes[e].scope == scope && forall j :: NobodyStale(sys, j, e)
    requires var at := Whole(sys, L.Live(sys.db, 0, [], 0, 0, false));
      && Goes(cfg, at, scope, ms) && NoDrop(AllActions(cfg, at, scope, ms)) && NamedDone(cfg, at, scope, ms, e)
      && Gone(cfg, at, scope, ms).walk.over && e in Gone(cfg, at, scope, ms).sys.db.episodes
    ensures var end := Gone(cfg, Whole(sys, L.Live(sys.db, 0, [], 0, 0, false)), scope, ms).sys.db;
      (e, cfg.model) in end.encodings && end.encodings[(e, cfg.model)].vector == cfg.embed(end.episodes[e].body.content)
  {
    var at := Whole(sys, L.Live(sys.db, 0, [], 0, 0, false));
    WalkedThenDone(cfg, at, scope, ms, e, sys.db.episodes[e].seqNo);
    GoneActs(cfg, at, scope, ms);
    MintedOn(cfg, sys, AllActions(cfg, at, scope, ms));
    EncodingsHold(cfg, Gone(cfg, at, scope, ms).sys);
    hide Gone, AllActions, Acts, Goes, NamedDone, SysInv;
  }
}
