/** The temporal algebra of facts: windows, batch deduplication, retraction as
    closing a window, and the key that keeps the windows of one claim apart. */
module FactAlgebra {
  import opened Model
  import opened Tables

  // ---- Windows --------------------------------------------------------------

  /** `Overlaps` compares end points; on valid windows it means sharing an instant. */
  lemma OverlapsIffShared(v: Validity, w: Validity)
    requires v.Valid() && w.Valid()
    ensures v.Overlaps(w) <==> exists t :: v.Contains(t) && w.Contains(t)
  {
    if v.Overlaps(w) {
      var t := if v.from < w.from then w.from else v.from;
      assert v.Contains(t) && w.Contains(t);
    }
  }

  /** What the temporal key and the window CHECKs promise of the facts table. */
  ghost predicate Windows(facts: map<Id, Fact>) {
    && (forall x :: x in facts ==> facts[x].valid.Valid())
    && (forall x, y :: x in facts && y in facts && x != y && SameKey(facts[x], facts[y])
          ==> !facts[x].valid.Overlaps(facts[y].valid))
  }

  /** So at most one row answers for a claim at any instant. */
  lemma OneAnswerPerInstant(facts: map<Id, Fact>, x: Id, y: Id, t: Instant)
    requires Windows(facts) && x in facts && y in facts && SameKey(facts[x], facts[y])
    requires facts[x].valid.Contains(t) && facts[y].valid.Contains(t)
    ensures x == y
  {
    OverlapsIffShared(facts[x].valid, facts[y].valid);
  }

  // ---- Deduplication --------------------------------------------------------

  predicate Contradict(a: Assertion, b: Assertion) {
    a.triple == b.triple && a.valid != b.valid && a.valid.Overlaps(b.valid)
  }

  ghost predicate SelfContradicting(batch: seq<Assertion>) {
    exists a, b :: a in batch && b in batch && Contradict(a, b)
  }

  ghost predicate PairwiseApart(kept: seq<Assertion>) {
    forall i, j :: 0 <= i < j < |kept| && kept[i].triple == kept[j].triple ==> !kept[i].valid.Overlaps(kept[j].valid)
  }

  lemma ListedGrows(kept: seq<Assertion>, kept': seq<Assertion>, a: Assertion)
    requires Listed(kept, a) && kept <= kept'
    ensures Listed(kept', a)
  {
    var k :| 0 <= k < |kept| && kept[k].triple == a.triple && kept[k].valid == a.valid;
    assert kept'[k] == kept[k];
  }

  /** What survives: only claims of the batch, one for every claim of it, and no two overlapping. */
  lemma {:induction false} DedupeKeeps(batch: seq<Assertion>)
    requires Dedupe(batch).Ok?
    ensures var kept := Dedupe(batch).value;
      && |kept| <= |batch|
      && PairwiseApart(kept)
      && (forall a :: a in kept ==> a in batch)
      && (forall a :: a in batch ==> Listed(kept, a))
  {
    if batch != [] {
      var n := |batch| - 1;
      DedupeKeeps(batch[..n]);
      assert batch == batch[..n] + [batch[n]];
      KeepsOneMore(batch[..n], Dedupe(batch[..n]).value, batch[n]);
    }
  }

  /** One assertion more is dropped as a repeat, or kept apart from the rest. */
  lemma KeepsOneMore(batch: seq<Assertion>, kept: seq<Assertion>, last: Assertion)
    requires |kept| <= |batch| && PairwiseApart(kept) && (forall a :: a in kept ==> a in batch) && (forall a :: a in batch ==> Listed(kept, a))
    requires Listed(kept, last) || !Clashes(kept, last)
    ensures var after := if Listed(kept, last) then kept else kept + [last];
      && |after| <= |batch| + 1 && PairwiseApart(after)
      && (forall a :: a in after ==> a in batch + [last]) && (forall a :: a in batch + [last] ==> Listed(after, a))
  {
    var after := if Listed(kept, last) then kept else kept + [last];
    forall a | a in batch + [last] ensures Listed(after, a) {
      if a in batch {
        ListedGrows(kept, after, a);
      } else if after != kept {
        assert after[|kept|] == last;
      }
    }
  }

  lemma {:induction false} DedupeRefusalHasCause(batch: seq<Assertion>)
    requires Dedupe(batch).Err?
    ensures Dedupe(batch).error == FactConflict && SelfContradicting(batch)
  {
    var n := |batch| - 1;
    var last := batch[n];
    assert batch == batch[..n] + [last];
    if Dedupe(batch[..n]).Err? {
      DedupeRefusalHasCause(batch[..n]);
      var a, b :| a in batch[..n] && b in batch[..n] && Contradict(a, b);
      assert a in batch && b in batch;
    } else {
      DedupeKeeps(batch[..n]);
      var kept := Dedupe(batch[..n]).value;
      var k :| 0 <= k < |kept| && kept[k].triple == last.triple && kept[k].valid.Overlaps(last.valid);
      assert kept[k] in batch && Contradict(kept[k], last);
    }
  }

  /** A batch is refused exactly when it contradicts itself. */
  lemma DedupeRejectsContradictions(batch: seq<Assertion>)
    ensures Dedupe(batch).Err? <==> SelfContradicting(batch)
  {
    if Dedupe(batch).Err? {
      DedupeRefusalHasCause(batch);
    } else if SelfContradicting(batch) {
      DedupeKeeps(batch);
      var a, b :| a in batch && b in batch && Contradict(a, b);
      ListedApart(Dedupe(batch).value, a, b);
    }
  }

  lemma ListedApart(kept: seq<Assertion>, a: Assertion, b: Assertion)
    requires PairwiseApart(kept) && Listed(kept, a) && Listed(kept, b)
    ensures !Contradict(a, b)
  {
    var k :| 0 <= k < |kept| && kept[k].triple == a.triple && kept[k].valid == a.valid;
    var l :| 0 <= l < |kept| && kept[l].triple == b.triple && kept[l].valid == b.valid;
  }

  /** In the terms a caller would use: two unequal windows of one triple share an instant. */
  lemma DedupeRejectsSharedInstants(batch: seq<Assertion>)
    requires forall a :: a in batch ==> a.valid.Valid()
    ensures Dedupe(batch).Err? <==>
      exists a, b, t :: a in batch && b in batch && a.triple == b.triple && a.valid != b.valid
        && a.valid.Contains(t) && b.valid.Contains(t)
  {
    DedupeRejectsContradictions(batch);
    forall a, b | a in batch && b in batch
      ensures a.valid.Overlaps(b.valid) <==> exists t :: a.valid.Contains(t) && b.valid.Contains(t)
    {
      OverlapsIffShared(a.valid, b.valid);
    }
  }

  /** Whatever order the model listed its claims in. */
  lemma DedupeOrderFree(a: seq<Assertion>, b: seq<Assertion>)
    requires multiset(a) == multiset(b)
    ensures Dedupe(a).Ok? <==> Dedupe(b).Ok?
  {
    DedupeRejectsContradictions(a);
    DedupeRejectsContradictions(b);
    SameMembers(a, b);
  }

  // ---- Retraction -----------------------------------------------------------

  /** `to'` is the minimum of `to` and every instant in `cuts`; an open end is later than all. */
  ghost predicate IsEarliest(to': Option<Instant>, to: Option<Instant>, cuts: set<Instant>) {
    && (to'.None? <==> to.None? && cuts == {})
    && (to'.Some? ==>
          && (to' == to || to'.value in cuts)
          && (to.Some? ==> to'.value <= to.value)
          && (forall c :: c in cuts ==> to'.value <= c))
  }

  lemma EarliestComposes(a: Option<Instant>, b: Option<Instant>, c: Option<Instant>, xs: set<Instant>, ys: set<Instant>)
    requires IsEarliest(b, a, xs) && IsEarliest(c, b, ys)
    ensures IsEarliest(c, a, xs + ys)
  {
    if xs + ys != {} { assert xs != {} || ys != {}; }
  }

  /** The instants a list of retractions names for one fact. */
  function CutsFor(rs: seq<Retraction>, id: Id): set<Instant> {
    set r | r in rs && r.fact == id :: r.at
  }

  predicate Retractable(facts: map<Id, Fact>, scope: ScopeId, r: Retraction) {
    r.fact in facts && facts[r.fact].scope == scope && facts[r.fact].valid.from < r.at
  }

  /** A row changed only by moving its end. */
  predicate OnlyCut(f: Fact, f': Fact, at: Instant) {
    f' == if f'.valid == f.valid then f else Closed(f, f'.valid.to.GetOr(0), at)
  }

  /** What a list of retractions does to one row. */
  ghost predicate CutRow(f: Fact, f': Fact, cuts: set<Instant>, at: Instant) {
    OnlyCut(f, f', at) && f'.valid.from == f.valid.from && IsEarliest(f'.valid.to, f.valid.to, cuts)
  }

  lemma CutRowUnique(f: Fact, g: Fact, h: Fact, cuts: set<Instant>, at: Instant)
    requires CutRow(f, g, cuts, at) && CutRow(f, h, cuts, at)
    ensures g == h
  {
    assert g.valid.to == h.valid.to;
  }

  lemma CutRowStep(f: Fact, g: Fact, cuts: set<Instant>, r: Instant, at: Instant)
    requires CutRow(f, g, cuts, at) && g.valid.from < r
    ensures CutRow(f, if g.valid.IsOpen() || g.valid.to.value > r then Closed(g, r, at) else g, cuts + {r}, at)
  {
    var h := if g.valid.IsOpen() || g.valid.to.value > r then Closed(g, r, at) else g;
    assert IsEarliest(h.valid.to, g.valid.to, {r});
    EarliestComposes(f.valid.to, g.valid.to, h.valid.to, cuts, {r});
  }

  /** A list of retractions is accepted exactly when each names a fact of the scope
      strictly after its start. */
  lemma {:induction false} RetractAllAccepts(facts: map<Id, Fact>, scope: ScopeId, rs: seq<Retraction>, at: Instant)
    ensures RetractAll(facts, scope, rs, at).Ok? <==> forall r :: r in rs ==> Retractable(facts, scope, r)
    ensures RetractAll(facts, scope, rs, at).Ok? ==> SameButEnds(facts, RetractAll(facts, scope, rs, at).value)
  {
    if rs != [] {
      var n := |rs| - 1;
      RetractAllAccepts(facts, scope, rs[..n], at);
      assert rs == rs[..n] + [rs[n]];
      if RetractAll(facts, scope, rs[..n], at).Ok? {
        var mid := RetractAll(facts, scope, rs[..n], at).value;
        assert Retractable(mid, scope, rs[n]) <==> Retractable(facts, scope, rs[n]);
      }
    }
  }

  ghost predicate SameButEnds(facts: map<Id, Fact>, facts': map<Id, Fact>) {
    && facts'.Keys == facts.Keys
    && forall id :: id in facts ==> facts'[id].scope == facts[id].scope && facts'[id].valid.from == facts[id].valid.from
  }

  /** And then every row ends at its earliest cut, and changes in nothing else. */
  lemma {:induction false} RetractAllCuts(facts: map<Id, Fact>, scope: ScopeId, rs: seq<Retraction>, at: Instant, id: Id)
    requires RetractAll(facts, scope, rs, at).Ok? && id in facts
    ensures id in RetractAll(facts, scope, rs, at).value
    ensures CutRow(facts[id], RetractAll(facts, scope, rs, at).value[id], CutsFor(rs, id), at)
  {
    if rs != [] {
      var n := |rs| - 1;
      RetractAllCuts(facts, scope, rs[..n], at, id);
      assert rs == rs[..n] + [rs[n]];
      var mid := RetractAll(facts, scope, rs[..n], at).value;
      if rs[n].fact == id {
        assert CutsFor(rs, id) == CutsFor(rs[..n], id) + {rs[n].at};
        CutRowStep(facts[id], mid[id], CutsFor(rs[..n], id), rs[n].at, at);
      } else {
        assert CutsFor(rs, id) == CutsFor(rs[..n], id);
      }
    }
  }

  /** Retractions commute: any order of the same list is accepted or refused alike,
      and leaves the same table. */
  lemma RetractionsCommute(facts: map<Id, Fact>, scope: ScopeId, rs: seq<Retraction>, rs': seq<Retraction>, at: Instant)
    requires multiset(rs) == multiset(rs')
    ensures var (r, r') := (RetractAll(facts, scope, rs, at), RetractAll(facts, scope, rs', at));
      (r.Ok? <==> r'.Ok?) && (r.Ok? ==> r == r')
  {
    RetractAllAccepts(facts, scope, rs, at);
    RetractAllAccepts(facts, scope, rs', at);
    SameMembers(rs, rs');
    var (r, r') := (RetractAll(facts, scope, rs, at), RetractAll(facts, scope, rs', at));
    if r.Ok? && r'.Ok? {
      forall id | id in facts ensures r.value[id] == r'.value[id] {
        RetractAllCuts(facts, scope, rs, at, id);
        RetractAllCuts(facts, scope, rs', at, id);
        assert CutsFor(rs, id) == CutsFor(rs', id);
        CutRowUnique(facts[id], r.value[id], r'.value[id], CutsFor(rs, id), at);
      }
      assert r.value == r'.value;
    }
  }

  lemma SameMembers<T>(a: seq<T>, b: seq<T>)
    requires multiset(a) == multiset(b)
    ensures forall x :: x in a <==> x in b
  {
    forall x ensures x in a <==> x in b {
      assert x in a <==> x in multiset(a);
      assert x in b <==> x in multiset(b);
    }
  }

  /** A retraction naming exactly the instant a fact began is refused: the bound is strict. */
  lemma RetractionAtStartRefused(facts: map<Id, Fact>, scope: ScopeId, rs: seq<Retraction>, at: Instant, i: nat)
    requires i < |rs| && rs[i].fact in facts && rs[i].at == facts[rs[i].fact].valid.from
    ensures RetractAll(facts, scope, rs, at).Err?
  {
    RetractAllAccepts(facts, scope, rs, at);
    assert rs[i] in rs && !Retractable(facts, scope, rs[i]);
  }

  // ---- Applying a batch -----------------------------------------------------

  lemma CuttingKeepsWindows(facts: map<Id, Fact>, scope: ScopeId, rs: seq<Retraction>, at: Instant)
    requires Windows(facts) && RetractAll(facts, scope, rs, at).Ok?
    ensures Windows(RetractAll(facts, scope, rs, at).value)
  {
    RetractAllAccepts(facts, scope, rs, at);
    var cut := RetractAll(facts, scope, rs, at).value;
    forall x | x in cut ensures cut[x].valid.Valid() && CutRow(facts[x], cut[x], CutsFor(rs, x), at) {
      RetractAllCuts(facts, scope, rs, at, x);
      if cut[x].valid != facts[x].valid {
        var r :| r in rs && r.fact == x && r.at == cut[x].valid.to.value;
        assert Retractable(facts, scope, r);
      }
    }
  }

  lemma {:induction false} InsertEffect(facts: map<Id, Fact>, first: Id, rows: seq<Assertion>, cmd: ExtractCommand)
    requires InsertFacts(facts, first, rows, cmd).Ok?
    requires forall id :: id in facts ==> id < first
    ensures var r := InsertFacts(facts, first, rows, cmd).value;
      && (forall id :: id in r <==> id in facts || first <= id < first + |rows|)
      && (forall id :: id in facts ==> r[id] == facts[id])
      && (forall i :: 0 <= i < |rows| ==> r[first + i] == NewFact(rows[i], cmd))
  {
    if rows != [] {
      var n := |rows| - 1;
      InsertEffect(facts, first, rows[..n], cmd);
      assert forall i :: 0 <= i < n ==> rows[..n][i] == rows[i];
    }
  }

  lemma {:induction false} InsertKeepsWindows(facts: map<Id, Fact>, first: Id, rows: seq<Assertion>, cmd: ExtractCommand)
    requires Windows(facts) && InsertFacts(facts, first, rows, cmd).Ok?
    requires forall i :: 0 <= i < |rows| ==> rows[i].valid.Valid()
    ensures Windows(InsertFacts(facts, first, rows, cmd).value)
  {
    if rows != [] {
      var n := |rows| - 1;
      InsertKeepsWindows(facts, first, rows[..n], cmd);
      var done := InsertFacts(facts, first, rows[..n], cmd).value;
      assert !Collides(done, NewFact(rows[n], cmd));
    }
  }

  lemma {:induction false} InsertedAreInBatch(facts: map<Id, Fact>, all: seq<Assertion>, batch: seq<Assertion>, cmd: ExtractCommand)
    ensures |ToInsert(facts, all, batch, cmd)| <= |batch|
    ensures forall a :: a in ToInsert(facts, all, batch, cmd) <==> a in batch && !TripleRefreshed(facts, all, cmd, a.triple)
  {
    if batch != [] {
      InsertedAreInBatch(facts, all, batch[..|batch| - 1], cmd);
      assert batch == batch[..|batch| - 1] + [batch[|batch| - 1]];
    }
  }

  lemma ConcludedKeepsWindows(facts: map<Id, Fact>, first: Id, cmd: ExtractCommand, batch: seq<Assertion>)
    requires Windows(facts) && Concluded(facts, first, cmd, batch).Ok?
    requires forall a :: a in batch ==> a.valid.Valid()
    ensures Windows(Concluded(facts, first, cmd, batch).value)
  {
    CuttingKeepsWindows(facts, cmd.scope, cmd.retracts, cmd.at);
    var cut := RetractAll(facts, cmd.scope, cmd.retracts, cmd.at).value;
    var rows := ToInsert(cut, batch, batch, cmd);
    InsertedAreInBatch(cut, batch, batch, cmd);
    forall i | 0 <= i < |rows| ensures rows[i].valid.Valid() { assert rows[i] in rows; }
    InsertKeepsWindows(RefreshAll(cut, batch, cmd), first, rows, cmd);
  }

  /** A deduplicated batch never collides with itself: an assertion is refused
      only for a window the table already believed. */
  lemma {:induction false} ConflictIsWithStored(facts: map<Id, Fact>, first: Id, rows: seq<Assertion>, cmd: ExtractCommand)
    requires PairwiseApart(rows) && (forall id :: id in facts ==> id < first)
    ensures InsertFacts(facts, first, rows, cmd).Ok? <==>
      forall i :: 0 <= i < |rows| ==> !Collides(facts, NewFact(rows[i], cmd))
  {
    if rows != [] {
      var n := |rows| - 1;
      assert forall i :: 0 <= i < n ==> rows[..n][i] == rows[i];
      ConflictIsWithStored(facts, first, rows[..n], cmd);
      if InsertFacts(facts, first, rows[..n], cmd).Ok? {
        InsertEffect(facts, first, rows[..n], cmd);
        var done := InsertFacts(facts, first, rows[..n], cmd).value;
        var f := NewFact(rows[n], cmd);
        forall id | id in done && id !in facts ensures !(SameKey(done[id], f) && done[id].valid.Overlaps(f.valid)) {
          var i := id - first;
          assert done[first + i] == NewFact(rows[..n][i], cmd);
          assert rows[..n][i] == rows[i];
        }
        if Collides(facts, f) {
          var id :| id in facts && SameKey(facts[id], f) && facts[id].valid.Overlaps(f.valid);
          assert id in done && done[id] == facts[id];
        }
        assert Collides(done, f) <==> Collides(facts, f);
      } else {
        var i :| 0 <= i < n && Collides(facts, NewFact(rows[..n][i], cmd));
        assert Collides(facts, NewFact(rows[i], cmd));
      }
    }
  }

  /** Restating one stored window of a triple keeps every other window the batch asserts for
      that triple out of the table: an insert is suppressed by triple, not by window. */
  lemma RestatedTripleInsertsNothing(facts: map<Id, Fact>, first: Id, cmd: ExtractCommand, batch: seq<Assertion>, f: Id, a: Assertion)
    requires RetractAll(facts, cmd.scope, cmd.retracts, cmd.at).Ok? && Concluded(facts, first, cmd, batch).Ok?
    requires forall id :: id in facts ==> id < first
    requires var cut := RetractAll(facts, cmd.scope, cmd.retracts, cmd.at).value;
      f in cut && a in batch && Restates(a, cut[f], cmd)
    ensures var after := Concluded(facts, first, cmd, batch).value;
      forall id :: id in after && id !in facts ==> after[id].triple != a.triple
  {
    var cut := RetractAll(facts, cmd.scope, cmd.retracts, cmd.at).value;
    var rows := ToInsert(cut, batch, batch, cmd);
    RetractAllAccepts(facts, cmd.scope, cmd.retracts, cmd.at);
    InsertedAreInBatch(cut, batch, batch, cmd);
    InsertEffect(RefreshAll(cut, batch, cmd), first, rows, cmd);
    assert TripleRefreshed(cut, batch, cmd, a.triple);
    var after := Concluded(facts, first, cmd, batch).value;
    forall id | id in after && id !in facts ensures after[id].triple != a.triple {
      assert after[first + (id - first)] == NewFact(rows[id - first], cmd);
      assert rows[id - first] in rows;
    }
  }
}
