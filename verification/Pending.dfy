/** What there is to do, read off the tables: which episodes are listed as unread or not encoded,
    for how long, and what a backfill that has come to its end leaves in the queue. */
module Pending {
  import opened Model
  import opened Tables
  import opened Invariants
  import opened Histories
  import opened Births
  import S = Store
  import W = Backfill

  /** Episodes of a scope past a place in its log that an extractor has not read. */
  ghost predicate Unread(db: Db, x: ExtractorId, scope: ScopeId, after: nat, e: Id) {
    e in db.episodes && db.episodes[e].scope == scope && db.episodes[e].seqNo > after && (e, x) !in db.markers
  }

  /** Or that have no vector of a model. */
  ghost predicate NotEncoded(db: Db, m: ModelId, scope: ScopeId, after: nat, e: Id) {
    e in db.episodes && db.episodes[e].scope == scope && db.episodes[e].seqNo > after && (e, m) !in db.encodings
  }

  /** A job of this kind names the episode, and waits or is under way. */
  ghost predicate Owed(db: Db, kind: JobKind, scope: ScopeId, e: Id) {
    exists j, i :: j in db.jobs && 0 <= i < |db.jobs[j].episodes| && db.jobs[j].episodes[i] == e
      && db.jobs[j].kind == kind && db.jobs[j].scope == scope && (db.jobs[j].state == JobState.Pending || db.jobs[j].state == Running)
  }

  lemma HasJobMeans(db: Db, kind: JobKind, scope: ScopeId, e: Id)
    ensures W.HasJob(db, kind, scope, e) <==> Owed(db, kind, scope, e)
  {}

  /** A scope is covered exactly when every episode past the start that an extractor asked for has
      not read is named by an outstanding extract job, and every one a model asked for has not
      encoded by an outstanding encode job. */
  lemma CoveredMeans(db: Db, targets: seq<S.Target>, scope: ScopeId, lo: nat)
    ensures W.ScopeCovered(db, targets, scope, lo) <==>
      && (forall x, e :: S.ExtractFor(x) in targets && Unread(db, x, scope, lo, e) ==> Owed(db, Extract, scope, e))
      && (forall m, e :: S.EncodeFor(m) in targets && NotEncoded(db, m, scope, lo, e) ==> Owed(db, Encode, scope, e))
  {
    forall k, e ensures W.HasJob(db, k, scope, e) <==> Owed(db, k, scope, e) { HasJobMeans(db, k, scope, e); }
    hide Owed, W.HasJob;
    if W.ScopeCovered(db, targets, scope, lo) {
      forall t, e | t in targets && S.Lacks(db, t, scope, lo, e) ensures W.HasJob(db, t.Kind(), scope, e) {
        var i :| 0 <= i < |targets| && targets[i] == t;
        assert W.Covered(db, targets[i], scope, lo);
      }
    }
    forall x, e ensures Unread(db, x, scope, lo, e) <==> S.Lacks(db, S.ExtractFor(x), scope, lo, e) {}
    forall m, e ensures NotEncoded(db, m, scope, lo, e) <==> S.Lacks(db, S.EncodeFor(m), scope, lo, e) {}
    hide Unread, NotEncoded, S.Lacks;
  }

  /** After a run the episode stands past this place of the scope's log, its extractor had not read
      it before the run, and no extraction by it that named the episode has committed since. */
  ghost predicate StillUnread(db: Db, ops: seq<Op>, x: ExtractorId, scope: ScopeId, after: nat, e: Id) {
    && e in Run(db, ops).episodes && Run(db, ops).episodes[e].scope == scope && Run(db, ops).episodes[e].seqNo > after
    && (e, x) !in db.markers && !ReadIn(db, ops, e, x)
  }

  /** A page of what an extractor has to read lists an episode exactly for as long as that is so,
      unless the page is full of ones before it. */
  lemma ListedUntilRead(db: Db, ops: seq<Op>, x: ExtractorId, scope: ScopeId, after: nat, limit: nat, ids: seq<Id>, e: Id)
    requires Inv(db) && S.FirstPending(Run(db, ops), S.ExtractFor(x), scope, after, limit, ids)
    ensures e in ids ==> StillUnread(db, ops, x, scope, after, e)
    ensures StillUnread(db, ops, x, scope, after, e) && e !in ids ==>
      && |ids| == limit
      && forall i :: 0 <= i < limit ==>
           StillUnread(db, ops, x, scope, after, ids[i]) && Run(db, ops).episodes[ids[i]].seqNo < Run(db, ops).episodes[e].seqNo
  {
    var now := Run(db, ops);
    if e in now.episodes { MarkedIffRead(db, ops, e, x); }
    forall i | 0 <= i < |ids| ensures StillUnread(db, ops, x, scope, after, ids[i]) {
      assert S.Lacks(now, S.ExtractFor(x), scope, after, ids[i]);
      MarkedIffRead(db, ops, ids[i], x);
    }
    hide Inv, Run, ReadIn;
  }

  /** Once an extraction has committed, none of its episodes is listed for its extractor again. */
  lemma ReadIsNeverPending(db: Db, cmd: ExtractCommand, db': Db, ops: seq<Op>, scope: ScopeId, after: nat, limit: nat, ids: seq<Id>)
    requires Inv(db) && ApplyExtraction(db, cmd) == Ok(db')
    requires S.FirstPending(Run(db', ops), S.ExtractFor(cmd.extractor), scope, after, limit, ids)
    ensures forall e :: e in ids ==> e !in cmd.episodes
  {
    CommittedIsMarked(db, cmd, db');
    CommittedKeepsInv(db, cmd, db');
    forall e | e in ids && e in cmd.episodes ensures false { ListedUntilRead(db', ops, cmd.extractor, scope, after, limit, ids, e); }
    hide Inv, Run, ApplyExtraction, S.FirstPending;
  }
}
