/** Short runs from an empty store, with what stands after them: the first steps of the runs
    that show where a property fails. */
module Beginnings {
  import opened Model
  import opened Tables

  // ---- Recording ------------------------------------------------------------

  function Only(scope: ScopeId, body: Body): AppendCommand { AppendCommand([NewEpisode(scope, body, 0)], []) }

  /** What one append of one episode does. */
  lemma AppendsOne(db: Db, scope: ScopeId, body: Body)
    ensures Next(db, OpAppend(Only(scope, body))) == db.(
      scopes := db.scopes[scope := LastSeq(db, scope) + 1],
      episodes := db.episodes[db.minted := Episode(db.minted, scope, LastSeq(db, scope) + 1, body, 0)],
      minted := db.minted + 1)
  {
    var row := Episode(db.minted, scope, LastSeq(db, scope) + 1, body, 0);
    assert NewRows(db.minted, LastSeq(db, scope), Only(scope, body).episodes) == map[db.minted := row];
    assert db.episodes + map[db.minted := row] == db.episodes[db.minted := row];
    hide NewRows;
  }

  /** Two episodes of one scope, as one append records them. */
  function Two(scope: ScopeId, body: Body): AppendCommand { AppendCommand([NewEpisode(scope, body, 0), NewEpisode(scope, body, 0)], []) }

  function TwoEpisodes(scope: ScopeId, body: Body): Db {
    Db(map[scope := 2], map[0 := Episode(0, scope, 1, body, 0), 1 := Episode(1, scope, 2, body, 0)], map[], map[], map[], map[], 2)
  }

  lemma TwoRecorded(scope: ScopeId, body: Body)
    ensures Next(EMPTY, OpAppend(Two(scope, body))) == TwoEpisodes(scope, body)
  {
    var news := [NewEpisode(scope, body, 0), NewEpisode(scope, body, 0)];
    assert NewRows(0, 0, news) == map[0 := Episode(0, scope, 1, body, 0), 1 := Episode(1, scope, 2, body, 0)];
  }

  // ---- Running --------------------------------------------------------------

  lemma RunOne(db: Db, op: Op)
    ensures Run(db, [op]) == Next(db, op)
  {
    hide Next;
    assert [op][1..] == [];
  }

  lemma RunTwo(db: Db, a: Op, b: Op)
    ensures Run(db, [a, b]) == Next(Next(db, a), b)
  {
    hide Next;
    assert [a, b][1..] == [b];
    RunOne(Next(db, a), b);
  }

  lemma RunThree(db: Db, a: Op, b: Op, c: Op)
    ensures Run(db, [a, b, c]) == Next(Next(Next(db, a), b), c)
  {
    hide Next;
    assert [a, b, c][1..] == [b, c];
    RunTwo(Next(db, a), b, c);
  }

  // ---- Concluding -----------------------------------------------------------

  lemma DedupeOne(a: Assertion)
    ensures Dedupe([a]) == Ok([a])
  {
    var batch, none := [a], [];
    assert batch[..|batch| - 1] == none;
    assert Dedupe(none) == Ok(none) && none + [a] == batch;
  }

  /** Into an empty table one assertion goes as it is. */
  lemma OneConcluded(first: Id, cmd: ExtractCommand, a: Assertion)
    requires cmd.retracts == []
    ensures Concluded(map[], first, cmd, [a]) == Ok(map[first := NewFact(a, cmd)])
  {
    var none: map<Id, Fact> := map[];
    assert RefreshAll(none, [a], cmd) == none;
    OneToInsert(none, cmd, a);
    OneInserted(none, first, cmd, a);
    assert none[first := NewFact(a, cmd)] == map[first := NewFact(a, cmd)];
    hide RefreshAll, ToInsert, InsertFacts, NewFact;
  }

  lemma OneToInsert(facts: map<Id, Fact>, cmd: ExtractCommand, a: Assertion)
    requires facts == map[]
    ensures ToInsert(facts, [a], [a], cmd) == [a]
  {
    assert [a][..0] == [];
    assert ToInsert(facts, [a], [a][..0], cmd) == [];
  }

  lemma OneInserted(facts: map<Id, Fact>, first: Id, cmd: ExtractCommand, a: Assertion)
    requires facts == map[]
    ensures InsertFacts(facts, first, [a], cmd) == Ok(facts[first := NewFact(a, cmd)])
  {
    assert [a][..0] == [];
    assert InsertFacts(facts, first, [a][..0], cmd) == Ok(facts);
    hide NewFact;
  }
}
