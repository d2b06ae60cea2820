/** Reciprocal rank fusion: how the rankings of independent channels combine into one. */
module Fusion {
  import opened Model

  const DEFAULT_FUSION_K := 60.0
  const DEFAULT_LEXICAL_WEIGHT := 0.25

  datatype Channel = Semantic | Lexical | Facts | Other(name: string) {
    predicate Valid() { !Other? }
  }

  /** A rank is a 1-based position. */
  type Rank = r: int | r >= 1 witness 1

  datatype Candidate = Candidate(episode: Episode, rank: Rank, score: real)

  /** What one requested channel contributed, in a slot of its own. */
  datatype Slot = Slot(channel: Channel, candidates: seq<Candidate>, failed: bool)

  datatype Hit = Hit(rank: Rank, score: real)

  datatype Recalled = Recalled(episode: Episode, score: real, hits: map<Channel, Hit>)

  // ---- Options --------------------------------------------------------------

  datatype Options = Options(k: real, weights: map<Channel, real>) {
    function Weight(c: Channel): real { if c in weights then weights[c] else 1.0 }
  }

  /** Options with the defaults applied. */
  type Resolved = o: Options | o.k > 0.0 && forall c :: c in o.weights ==> o.weights[c] >= 0.0
    witness Options(DEFAULT_FUSION_K, map[])

  /** A zero K means the default; an unnamed channel weighs one, except the lexical one. */
  method Resolve(o: Options) returns (r: Result<Resolved>)
    ensures r.Ok? <==> o.k >= 0.0 && forall c :: c in o.weights ==> !c.Other? && o.weights[c] >= 0.0
    ensures r.Ok? ==> r.value.k == if o.k == 0.0 then 60.0 else o.k
    ensures r.Ok? ==> forall c :: r.value.Weight(c) == if c in o.weights then o.weights[c] else if c == Lexical then 0.25 else 1.0
    ensures r.Err? ==> r.error == InvalidConfig || (r.error == InvalidChannel && exists c :: c in o.weights && c.Other?)
  {
    var k := o.k;
    if k < 0.0 {
      return Err(InvalidConfig);
    } else if k == 0.0 {
      k := DEFAULT_FUSION_K;
    }
    var left := o.weights.Keys;
    while left != {}
      invariant left <= o.weights.Keys
      invariant forall c :: c in o.weights && c !in left ==> c.Valid() && o.weights[c] >= 0.0
      decreases left
    {
      var c :| c in left;
      if !c.Valid() { return Err(InvalidChannel); }
      if o.weights[c] < 0.0 { return Err(InvalidConfig); }
      left := left - {c};
    }
    var weights := o.weights;
    if Lexical !in weights {
      weights := weights[Lexical := DEFAULT_LEXICAL_WEIGHT];
    }
    return Ok(Options(k, weights));
  }

  // ---- What fusion means ----------------------------------------------------

  /** The first place a ranking names an episode; later mentions do not count. */
  function FirstHit(cands: seq<Candidate>, id: Id): (r: Option<Candidate>)
    ensures r.Some? ==> r.value in cands && r.value.episode.id == id
    ensures r.None? ==> forall c :: c in cands ==> c.episode.id != id
  {
    if cands == [] then None
    else
      var before := FirstHit(cands[..|cands| - 1], id);
      if before.Some? then before
      else if cands[|cands| - 1].episode.id == id then Some(cands[|cands| - 1])
      else None
  }

  /** In a ranking listed best first, that is its best rank. */
  lemma {:induction false} FirstIsBest(cands: seq<Candidate>, id: Id, c: Candidate)
    requires forall i, j :: 0 <= i < j < |cands| ==> cands[i].rank <= cands[j].rank
    requires c in cands && c.episode.id == id
    ensures FirstHit(cands, id).Some? && FirstHit(cands, id).value.rank <= c.rank
  {
    var n := |cands| - 1;
    assert cands == cands[..n] + [cands[n]];
    if FirstHit(cands[..n], id).Some? {
      var d := FirstHit(cands[..n], id).value;
      FirstIsBest(cands[..n], id, d);
      if c in cands[..n] { FirstIsBest(cands[..n], id, c); }
      assert d in cands[..n];
    }
  }

  /** A channel that failed contributes nothing, whatever it had found. */
  predicate Scores(s: Slot, id: Id) { !s.failed && FirstHit(s.candidates, id).Some? }

  predicate Found(slots: seq<Slot>, id: Id) { exists s :: s in slots && Scores(s, id) }

  function Share(weight: real, k: real, rank: Rank): real
    requires k > 0.0
  {
    weight / (k + rank as real)
  }

  function Contribution(s: Slot, o: Resolved, id: Id): real {
    if Scores(s, id) then Share(o.Weight(s.channel), o.k, FirstHit(s.candidates, id).value.rank) else 0.0
  }

  function ScoreOf(slots: seq<Slot>, o: Resolved, id: Id): real {
    if slots == [] then 0.0 else ScoreOf(slots[..|slots| - 1], o, id) + Contribution(slots[|slots| - 1], o, id)
  }

  /** How many channels found it. */
  function FoundBy(slots: seq<Slot>, id: Id): nat {
    if slots == [] then 0 else FoundBy(slots[..|slots| - 1], id) + if Scores(slots[|slots| - 1], id) then 1 else 0
  }

  ghost predicate HitsAre(slots: seq<Slot>, id: Id, hits: map<Channel, Hit>) {
    && (forall c :: c in hits ==> exists s :: s in slots && s.channel == c && Scores(s, id))
    && (forall s :: s in slots && Scores(s, id) ==>
          s.channel in hits && hits[s.channel] == Hit(FirstHit(s.candidates, id).value.rank, FirstHit(s.candidates, id).value.score))
  }

  ghost predicate Candidacy(slots: seq<Slot>, e: Episode) {
    exists s, c :: s in slots && c in s.candidates && c.episode == e
  }

  ghost predicate IsEntry(slots: seq<Slot>, o: Resolved, r: Recalled) {
    && r.score == ScoreOf(slots, o, r.episode.id)
    && HitsAre(slots, r.episode.id, r.hits)
    && Candidacy(slots, r.episode)
  }

  /** Higher score first; among equals, the newer episode. */
  predicate Precedes(a: Recalled, b: Recalled) {
    a.score > b.score || (a.score == b.score && a.episode.id > b.episode.id)
  }

  ghost predicate StrictlyOrdered(rows: seq<Recalled>) {
    forall i, j :: 0 <= i < j < |rows| ==> Precedes(rows[i], rows[j])
  }

  ghost predicate Listed(rows: seq<Recalled>, id: Id) { exists r :: r in rows && r.episode.id == id }

  /** One row for everything found, each scored over the channels that found it. */
  ghost predicate Covers(slots: seq<Slot>, o: Resolved, rows: seq<Recalled>) {
    && (forall r :: r in rows ==> Found(slots, r.episode.id) && IsEntry(slots, o, r))
    && (forall id :: Found(slots, id) ==> Listed(rows, id))
  }

  /** Each found episode once, strictly best first. */
  ghost predicate IsFusion(slots: seq<Slot>, o: Resolved, fused: seq<Recalled>) {
    Covers(slots, o, fused) && StrictlyOrdered(fused)
  }

  predicate DistinctChannels(slots: seq<Slot>) {
    forall i, j :: 0 <= i < j < |slots| ==> slots[i].channel != slots[j].channel
  }

  // ---- Sorting --------------------------------------------------------------

  function Insert(sorted: seq<Recalled>, r: Recalled): seq<Recalled> {
    if sorted == [] then [r]
    else if Precedes(r, sorted[|sorted| - 1]) then Insert(sorted[..|sorted| - 1], r) + [sorted[|sorted| - 1]]
    else sorted + [r]
  }

  function Sorted(rows: seq<Recalled>): seq<Recalled> {
    if rows == [] then [] else Insert(Sorted(rows[..|rows| - 1]), rows[|rows| - 1])
  }

  predicate DistinctIds(rows: seq<Recalled>) {
    forall i, j :: 0 <= i < j < |rows| ==> rows[i].episode.id != rows[j].episode.id
  }

  lemma {:induction false} InsertOrders(sorted: seq<Recalled>, r: Recalled)
    requires StrictlyOrdered(sorted) && forall x :: x in sorted ==> x.episode.id != r.episode.id
    ensures StrictlyOrdered(Insert(sorted, r))
    ensures forall x :: x in Insert(sorted, r) <==> x in sorted || x == r
  {
    if sorted != [] {
      var n := |sorted| - 1;
      assert sorted == sorted[..n] + [sorted[n]];
      if Precedes(r, sorted[n]) {
        InsertOrders(sorted[..n], r);
        var head := Insert(sorted[..n], r);
        forall i | 0 <= i < |head| ensures Precedes(head[i], sorted[n]) { assert head[i] in head; }
      } else {
        assert forall i :: 0 <= i < n ==> Precedes(sorted[i], sorted[n]);
      }
    }
  }

  lemma {:induction false} SortOrders(rows: seq<Recalled>)
    requires DistinctIds(rows)
    ensures StrictlyOrdered(Sorted(rows)) && forall x :: x in Sorted(rows) <==> x in rows
  {
    if rows != [] {
      var n := |rows| - 1;
      assert rows == rows[..n] + [rows[n]];
      SortOrders(rows[..n]);
      InsertOrders(Sorted(rows[..n]), rows[n]);
    }
  }

  // ---- The fusion loop ------------------------------------------------------

  /** The accumulator after some slots: one entry for each id found, listed once in `order`. */
  ghost predicate Tally(slots: seq<Slot>, o: Resolved, order: seq<Id>, byId: map<Id, Recalled>) {
    && (forall id :: id in byId <==> Found(slots, id))
    && (forall id :: id in byId ==> byId[id].episode.id == id && IsEntry(slots, o, byId[id]))
    && (forall id :: id in order <==> id in byId)
    && (forall i, j :: 0 <= i < j < |order| ==> order[i] != order[j])
  }

  method Fuse(slots: seq<Slot>, o: Resolved) returns (fused: seq<Recalled>)
    requires DistinctChannels(slots)
    ensures IsFusion(slots, o, fused)
  {
    hide Tally, Covers, StrictlyOrdered, DistinctIds, Sorted;
    var order, byId := Accumulate(slots, o);
    TallyLists(slots, o, order, byId);
    var rows: seq<Recalled> := [];
    for i := 0 to |order|
      invariant |rows| == i && forall k :: 0 <= k < i ==> rows[k] == byId[order[k]]
    {
      rows := rows + [byId[order[i]]];
    }
    TallyCovers(slots, o, order, byId, rows);
    SortOrders(rows);
    fused := Sorted(rows);
    SameRowsCover(slots, o, rows, fused);
  }

  method Accumulate(slots: seq<Slot>, o: Resolved) returns (order: seq<Id>, byId: map<Id, Recalled>)
    requires DistinctChannels(slots)
    ensures Tally(slots, o, order, byId)
  {
    order, byId := [], map[];
    assert Tally(slots[..0], o, order, byId);
    hide Tally;
    for i := 0 to |slots|
      invariant Tally(slots[..i], o, order, byId)
    {
      assert slots[..i + 1] == slots[..i] + [slots[i]];
      NothingYet(slots[..i], slots[i], o, order, byId);
      if slots[i].failed { continue; }
      order, byId := Add(slots[..i], slots[i], o, order, byId);
    }
    assert slots[..|slots|] == slots;
  }

  /** One channel's candidates, each id at its first mention only. */
  method Add(done: seq<Slot>, slot: Slot, o: Resolved, order: seq<Id>, byId: map<Id, Recalled>)
    returns (order': seq<Id>, byId': map<Id, Recalled>)
    requires DistinctChannels(done + [slot]) && !slot.failed
    requires Tally(done + [slot.(candidates := [])], o, order, byId)
    ensures Tally(done + [slot], o, order', byId')
  {
    hide Tally;
    order', byId' := order, byId;
    var weight := o.Weight(slot.channel);
    var seen: set<Id> := {};
    for c := 0 to |slot.candidates|
      invariant Tally(done + [Upto(slot, c)], o, order', byId')
      invariant forall id :: id in seen <==> FirstHit(slot.candidates[..c], id).Some?
    {
      var cand := slot.candidates[c];
      var id := cand.episode.id;
      assert slot.candidates[..c + 1] == slot.candidates[..c] + [cand];
      assert slot.candidates[..c + 1][..c] == slot.candidates[..c];
      if id in seen {
        RepeatAddsNothing(done, slot, c, o, order', byId');
        continue;
      }
      seen := seen + {id};
      ghost var order0, byId0 := order', byId';
      if id !in byId' {
        byId' := byId'[id := Recalled(cand.episode, 0.0, map[])];
        order' := order' + [id];
      }
      var acc := byId'[id];
      byId' := byId'[id := acc.(score := acc.score + weight / (o.k + cand.rank as real),
                                hits := acc.hits[slot.channel := Hit(cand.rank, cand.score)])];
      FirstMention(done, slot, c, o, order0, byId0, order', byId');
    }
    assert slot.candidates[..|slot.candidates|] == slot.candidates;
  }

  /** The slot as far as its first `c` candidates. */
  function Upto(slot: Slot, c: nat): Slot
    requires c <= |slot.candidates|
  {
    slot.(candidates := slot.candidates[..c])
  }

  lemma NothingYet(done: seq<Slot>, slot: Slot, o: Resolved, order: seq<Id>, byId: map<Id, Recalled>)
    requires Tally(done, o, order, byId)
    ensures Tally(done + [slot.(candidates := [])], o, order, byId)
    ensures slot.failed ==> Tally(done + [slot], o, order, byId)
  {
    SilentSlot(done, slot.(candidates := []), o, order, byId);
    if slot.failed { SilentSlot(done, slot, o, order, byId); }
  }

  lemma SilentSlot(done: seq<Slot>, slot: Slot, o: Resolved, order: seq<Id>, byId: map<Id, Recalled>)
    requires Tally(done, o, order, byId) && forall id :: !Scores(slot, id)
    ensures Tally(done + [slot], o, order, byId)
  {
    var slots := done + [slot];
    assert slots[..|done|] == done;
    forall id ensures Found(slots, id) <==> Found(done, id) {
      if Found(done, id) { var s :| s in done && Scores(s, id); assert s in slots; }
    }
    forall id | id in byId ensures IsEntry(slots, o, byId[id]) {
      assert ScoreOf(slots, o, id) == ScoreOf(done, o, id);
      EntryHitsStand(done, slot, id, byId[id].hits);
      var s, c :| s in done && c in s.candidates && c.episode == byId[id].episode;
      assert s in slots;
    }
  }

  lemma EntryHitsStand(done: seq<Slot>, slot: Slot, id: Id, hits: map<Channel, Hit>)
    requires HitsAre(done, id, hits) && !Scores(slot, id)
    ensures HitsAre(done + [slot], id, hits)
  {
    forall c | c in hits ensures exists s :: s in done + [slot] && s.channel == c && Scores(s, id) {
      var s :| s in done && s.channel == c && Scores(s, id);
      assert s in done + [slot];
    }
  }

  /** What the slot's next candidate changes: only its own id, and that only at its first mention. */
  lemma NextMention(slot: Slot, c: nat, id: Id)
    requires c < |slot.candidates|
    ensures FirstHit(slot.candidates[..c + 1], id) ==
      if FirstHit(slot.candidates[..c], id).None? && slot.candidates[c].episode.id == id then Some(slot.candidates[c])
      else FirstHit(slot.candidates[..c], id)
  {
    assert slot.candidates[..c + 1][..c] == slot.candidates[..c];
  }

  /** Entries depend on the last slot only through its first hit for their id. */
  lemma EntryAgrees(done: seq<Slot>, s: Slot, s': Slot, o: Resolved, r: Recalled)
    requires IsEntry(done + [s], o, r) && s'.channel == s.channel && s'.failed == s.failed && s.candidates <= s'.candidates
    requires FirstHit(s.candidates, r.episode.id) == FirstHit(s'.candidates, r.episode.id)
    ensures IsEntry(done + [s'], o, r)
  {
    assert (done + [s])[..|done|] == done && (done + [s'])[..|done|] == done;
    HitsAgree(done, s, s', r.episode.id, r.hits);
    CandidacyGrows(done, s, s', r.episode);
    hide HitsAre, Candidacy, FirstHit, Share;
  }

  lemma HitsAgree(done: seq<Slot>, s: Slot, s': Slot, id: Id, hits: map<Channel, Hit>)
    requires HitsAre(done + [s], id, hits) && s'.channel == s.channel && s'.failed == s.failed
    requires FirstHit(s.candidates, id) == FirstHit(s'.candidates, id)
    ensures HitsAre(done + [s'], id, hits)
  {
    hide FirstHit;
    forall ch | ch in hits ensures exists x :: x in done + [s'] && x.channel == ch && Scores(x, id) {
      var x :| x in done + [s] && x.channel == ch && Scores(x, id);
      if x in done { assert x in done + [s']; } else { assert s' in done + [s'] && Scores(s', id); }
    }
    forall x | x in done + [s'] && Scores(x, id)
      ensures x.channel in hits && hits[x.channel] == Hit(FirstHit(x.candidates, id).value.rank, FirstHit(x.candidates, id).value.score)
    {
      if x in done { assert x in done + [s]; } else { assert s in done + [s] && Scores(s, id); }
    }
  }

  lemma CandidacyGrows(done: seq<Slot>, s: Slot, s': Slot, e: Episode)
    requires Candidacy(done + [s], e) && s.candidates <= s'.candidates
    ensures Candidacy(done + [s'], e)
  {
    var x, c :| x in done + [s] && c in x.candidates && c.episode == e;
    if x in done { assert x in done + [s']; } else { assert s' in done + [s'] && c in s'.candidates; }
  }

  lemma FoundAgrees(done: seq<Slot>, s: Slot, s': Slot, id: Id)
    requires Scores(s, id) <==> Scores(s', id)
    ensures Found(done + [s], id) <==> Found(done + [s'], id)
  {
    FoundEither(done, s, id);
    FoundEither(done, s', id);
  }

  lemma FoundEither(done: seq<Slot>, s: Slot, id: Id)
    ensures Found(done + [s], id) <==> Found(done, id) || Scores(s, id)
  {
    if Found(done, id) { var x :| x in done && Scores(x, id); assert x in done + [s]; }
    if Scores(s, id) { assert s in done + [s]; }
  }

  lemma RepeatAddsNothing(done: seq<Slot>, slot: Slot, c: nat, o: Resolved, order: seq<Id>, byId: map<Id, Recalled>)
    requires c < |slot.candidates| && Tally(done + [Upto(slot, c)], o, order, byId)
    requires FirstHit(slot.candidates[..c], slot.candidates[c].episode.id).Some?
    ensures Tally(done + [Upto(slot, c + 1)], o, order, byId)
  {
    hide IsEntry, ScoreOf, FirstHit, Found;
    forall id ensures Found(done + [Upto(slot, c + 1)], id) <==> Found(done + [Upto(slot, c)], id) {
      NextMention(slot, c, id);
      FoundAgrees(done, Upto(slot, c), Upto(slot, c + 1), id);
    }
    forall id | id in byId ensures IsEntry(done + [Upto(slot, c + 1)], o, byId[id]) {
      NextMention(slot, c, id);
      EntryAgrees(done, Upto(slot, c), Upto(slot, c + 1), o, byId[id]);
    }
  }

  /** The entry a first mention makes of the one before, or of nothing. */
  lemma MentionEntry(done: seq<Slot>, slot: Slot, c: nat, o: Resolved, prior: Option<Recalled>, r: Recalled)
    requires DistinctChannels(done + [slot]) && !slot.failed && c < |slot.candidates|
    requires FirstHit(slot.candidates[..c], slot.candidates[c].episode.id).None?
    requires var id := slot.candidates[c].episode.id;
      if prior.Some? then prior.value.episode.id == id && IsEntry(done + [Upto(slot, c)], o, prior.value)
      else !Found(done + [Upto(slot, c)], id)
    requires var cand := slot.candidates[c];
      var was := prior.GetOr(Recalled(cand.episode, 0.0, map[]));
      r == was.(score := was.score + Share(o.Weight(slot.channel), o.k, cand.rank),
                hits := was.hits[slot.channel := Hit(cand.rank, cand.score)])
    ensures IsEntry(done + [Upto(slot, c + 1)], o, r)
  {
    var id, s, s' := slot.candidates[c].episode.id, Upto(slot, c), Upto(slot, c + 1);
    var was := prior.GetOr(Recalled(slot.candidates[c].episode, 0.0, map[]));
    assert s'.candidates == s.candidates + [slot.candidates[c]];
    if prior.None? {
      FoundEither(done, s, id);
      NothingFound(done + [s], o, id);
      assert Candidacy(done + [s'], r.episode) by { assert s' in done + [s'] && slot.candidates[c] in s'.candidates; }
      assert HitsAre(done + [s], id, was.hits);
    } else {
      CandidacyGrows(done, s, s', r.episode);
    }
    hide HitsAre, Candidacy, FirstHit, Share;
    MentionScore(done, slot, c, o);
    MentionHits(done, slot, c, was.hits, r.hits);
  }

  lemma MentionScore(done: seq<Slot>, slot: Slot, c: nat, o: Resolved)
    requires !slot.failed && c < |slot.candidates|
    requires FirstHit(slot.candidates[..c], slot.candidates[c].episode.id).None?
    ensures var (cand, id) := (slot.candidates[c], slot.candidates[c].episode.id);
      ScoreOf(done + [Upto(slot, c + 1)], o, id) ==
      ScoreOf(done + [Upto(slot, c)], o, id) + Share(o.Weight(slot.channel), o.k, cand.rank)
  {
    hide FirstHit, Share;
    NextMention(slot, c, slot.candidates[c].episode.id);
    assert (done + [Upto(slot, c)])[..|done|] == done && (done + [Upto(slot, c + 1)])[..|done|] == done;
  }

  lemma MentionHits(done: seq<Slot>, slot: Slot, c: nat, hits: map<Channel, Hit>, hits': map<Channel, Hit>)
    requires DistinctChannels(done + [slot]) && !slot.failed && c < |slot.candidates|
    requires FirstHit(slot.candidates[..c], slot.candidates[c].episode.id).None?
    requires HitsAre(done + [Upto(slot, c)], slot.candidates[c].episode.id, hits)
    requires hits' == hits[slot.channel := Hit(slot.candidates[c].rank, slot.candidates[c].score)]
    ensures HitsAre(done + [Upto(slot, c + 1)], slot.candidates[c].episode.id, hits')
  {
    var id, s, s' := slot.candidates[c].episode.id, Upto(slot, c), Upto(slot, c + 1);
    NextMention(slot, c, id);
    assert Scores(s', id) && s'.channel == slot.channel;
    hide FirstHit, Scores, Upto;
    forall ch | ch in hits' ensures exists x :: x in done + [s'] && x.channel == ch && Scores(x, id) {
      if ch == slot.channel {
        assert s' in done + [s'];
      } else {
        var x :| x in done + [s] && x.channel == ch && Scores(x, id);
        assert x in done + [s'];
      }
    }
    forall x | x in done + [s'] && Scores(x, id)
      ensures x.channel in hits' && hits'[x.channel] == Hit(FirstHit(x.candidates, id).value.rank, FirstHit(x.candidates, id).value.score)
    {
      if x in done {
        var i :| 0 <= i < |done| && done[i] == x;
        assert (done + [slot])[i].channel != (done + [slot])[|done|].channel;
        assert x in done + [s];
      }
    }
  }

  lemma {:induction false} NothingFound(slots: seq<Slot>, o: Resolved, id: Id)
    requires !Found(slots, id)
    ensures ScoreOf(slots, o, id) == 0.0
  {
    if slots != [] {
      assert slots == slots[..|slots| - 1] + [slots[|slots| - 1]];
      FoundEither(slots[..|slots| - 1], slots[|slots| - 1], id);
      NothingFound(slots[..|slots| - 1], o, id);
    }
  }

  lemma FirstMention(done: seq<Slot>, slot: Slot, c: nat, o: Resolved, order: seq<Id>, byId: map<Id, Recalled>,
                     order': seq<Id>, byId': map<Id, Recalled>)
    requires DistinctChannels(done + [slot]) && !slot.failed && c < |slot.candidates|
    requires Tally(done + [Upto(slot, c)], o, order, byId)
    requires FirstHit(slot.candidates[..c], slot.candidates[c].episode.id).None?
    requires var cand := slot.candidates[c];
      var was := if cand.episode.id in byId then byId[cand.episode.id] else Recalled(cand.episode, 0.0, map[]);
      byId' == byId[cand.episode.id := was.(
        score := was.score + Share(o.Weight(slot.channel), o.k, cand.rank),
        hits := was.hits[slot.channel := Hit(cand.rank, cand.score)])]
      && order' == if cand.episode.id in byId then order else order + [cand.episode.id]
    ensures Tally(done + [Upto(slot, c + 1)], o, order', byId')
  {
    hide IsEntry, ScoreOf, FirstHit, Found;
    var id := slot.candidates[c].episode.id;
    MentionEntry(done, slot, c, o, if id in byId then Some(byId[id]) else None, byId'[id]);
    forall x ensures x in byId' <==> Found(done + [Upto(slot, c + 1)], x) {
      NextMention(slot, c, x);
      if x != id { FoundAgrees(done, Upto(slot, c), Upto(slot, c + 1), x); } else { FoundEither(done, Upto(slot, c + 1), x); }
    }
    forall x | x in byId' && x != id ensures IsEntry(done + [Upto(slot, c + 1)], o, byId'[x]) {
      NextMention(slot, c, x);
      EntryAgrees(done, Upto(slot, c), Upto(slot, c + 1), o, byId[x]);
    }
  }

  lemma TallyLists(slots: seq<Slot>, o: Resolved, order: seq<Id>, byId: map<Id, Recalled>)
    requires Tally(slots, o, order, byId)
    ensures forall i :: 0 <= i < |order| ==> order[i] in byId
  {}

  lemma TallyCovers(slots: seq<Slot>, o: Resolved, order: seq<Id>, byId: map<Id, Recalled>, rows: seq<Recalled>)
    requires Tally(slots, o, order, byId) && |rows| == |order| && forall k :: 0 <= k < |order| ==> rows[k] == byId[order[k]]
    ensures DistinctIds(rows) && Covers(slots, o, rows)
  {
    hide IsEntry, Found;
    forall id | Found(slots, id) ensures Listed(rows, id) {
      assert id in order;
      var k :| 0 <= k < |order| && order[k] == id;
      assert rows[k] in rows;
    }
  }

  lemma SameRowsCover(slots: seq<Slot>, o: Resolved, rows: seq<Recalled>, rows': seq<Recalled>)
    requires Covers(slots, o, rows) && forall x :: x in rows' <==> x in rows
    ensures Covers(slots, o, rows')
  {
    hide IsEntry, Found;
    forall id | Found(slots, id) ensures Listed(rows', id) {
      assert Listed(rows, id);
      var r :| r in rows && r.episode.id == id;
      assert r in rows';
    }
  }

  // ---- What the order does not depend on -------------------------------------

  /** Candidates with one id carry one episode: they are rows of one immutable log. */
  ghost predicate Coherent(slots: seq<Slot>) {
    forall e, f :: Candidacy(slots, e) && Candidacy(slots, f) && e.id == f.id ==> e == f
  }

  lemma {:induction false} ScoreWithout(slots: seq<Slot>, o: Resolved, id: Id, i: nat)
    requires i < |slots|
    ensures ScoreOf(slots, o, id) == ScoreOf(slots[..i] + slots[i + 1..], o, id) + Contribution(slots[i], o, id)
  {
    var n := |slots| - 1;
    if i == n {
      assert slots[..i] + slots[i + 1..] == slots[..n];
    } else {
      hide Contribution;
      ScoreWithout(slots[..n], o, id, i);
      WithoutLast(slots, i);
    }
  }

  lemma WithoutLast<T>(s: seq<T>, i: nat)
    requires i < |s| - 1
    ensures var (n, rest) := (|s| - 1, s[..i] + s[i + 1..]);
      |rest| == n && rest[n - 1] == s[n] && rest[..n - 1] == s[..n][..i] + s[..n][i + 1..]
  {
    var n, rest := |s| - 1, s[..i] + s[i + 1..];
    var (a, b) := (rest[..n - 1], s[..n][..i] + s[..n][i + 1..]);
    assert |a| == |b| == n - 1;
    forall k | 0 <= k < n - 1 ensures a[k] == b[k] {
      assert a[k] == rest[k] == s[if k < i then k else k + 1];
    }
  }

  lemma DropSame<T>(a: seq<T>, b: seq<T>) returns (i: nat)
    requires multiset(a) == multiset(b) && a != []
    ensures i < |b| && b[i] == a[|a| - 1]
    ensures multiset(a[..|a| - 1]) == multiset(b[..i] + b[i + 1..])
  {
    var n := |a| - 1;
    assert a[n] in multiset(b);
    i :| 0 <= i < |b| && b[i] == a[n];
    assert a == a[..n] + [a[n]];
    assert b == b[..i] + ([b[i]] + b[i + 1..]);
    assert multiset(a[..n]) == multiset(a) - multiset{a[n]};
    assert multiset(b[..i] + b[i + 1..]) == multiset(b) - multiset{b[i]};
  }

  lemma {:induction false} ScorePermutes(a: seq<Slot>, b: seq<Slot>, o: Resolved, id: Id)
    requires multiset(a) == multiset(b)
    ensures ScoreOf(a, o, id) == ScoreOf(b, o, id)
  {
    hide Contribution;
    assert b != [] ==> b[0] in multiset(b);
    if a != [] {
      var i := DropSame(a, b);
      ScorePermutes(a[..|a| - 1], b[..i] + b[i + 1..], o, id);
      ScoreWithout(b, o, id, i);
    }
  }

  lemma HeadOnce(a: seq<Recalled>)
    requires StrictlyOrdered(a) && a != []
    ensures a[0] !in a[1..]
  {
    forall i | 0 <= i < |a[1..]| ensures a[1..][i] != a[0] { assert Precedes(a[0], a[i + 1]); }
  }

  lemma {:induction false} OrderedUnique(a: seq<Recalled>, b: seq<Recalled>)
    requires StrictlyOrdered(a) && StrictlyOrdered(b) && forall x :: x in a <==> x in b
    ensures a == b
  {
    assert b != [] ==> b[0] in a;
    if a != [] {
      assert a[0] in b && b[0] in a;
      assert a == [a[0]] + a[1..] && b == [b[0]] + b[1..];
      assert a[0] == b[0] by {
        var i :| 0 <= i < |b| && b[i] == a[0];
        var j :| 0 <= j < |a| && a[j] == b[0];
      }
      HeadOnce(a);
      HeadOnce(b);
      forall x ensures x in a[1..] <==> x in b[1..] { assert x in a <==> x in b; }
      OrderedUnique(a[1..], b[1..]);
    }
  }

  lemma SameSlots(a: seq<Slot>, b: seq<Slot>)
    requires multiset(a) == multiset(b)
    ensures forall s :: s in a <==> s in b
    ensures forall id :: Found(a, id) <==> Found(b, id)
    ensures forall e :: Candidacy(a, e) <==> Candidacy(b, e)
    ensures forall id, hits :: HitsAre(a, id, hits) <==> HitsAre(b, id, hits)
  {
    forall s ensures s in a <==> s in b { assert s in a <==> s in multiset(a); assert s in b <==> s in multiset(b); }
  }

  lemma EntryUnique(slots: seq<Slot>, o: Resolved, r: Recalled, r': Recalled)
    requires Coherent(slots) && IsEntry(slots, o, r) && IsEntry(slots, o, r') && r.episode.id == r'.episode.id
    ensures r == r'
  {
    assert r.hits.Keys == r'.hits.Keys;
    forall c | c in r.hits ensures r.hits[c] == r'.hits[c] {
      var s :| s in slots && s.channel == c && Scores(s, r.episode.id);
    }
    assert r.hits == r'.hits;
  }

  /** The fused list is a function of what the channels found, whatever order their slots are in. */
  lemma SlotOrderFree(a: seq<Slot>, b: seq<Slot>, o: Resolved, fused: seq<Recalled>, fused': seq<Recalled>)
    requires multiset(a) == multiset(b) && Coherent(a)
    requires IsFusion(a, o, fused) && IsFusion(b, o, fused')
    ensures fused == fused'
  {
    SameSlots(a, b);
    forall x | x in fused ensures x in fused' { EntryCarriesOver(b, a, o, x, fused'); }
    forall x | x in fused' ensures x in fused { EntryCarriesOver(a, b, o, x, fused); }
    OrderedUnique(fused, fused');
  }

  lemma EntryCarriesOver(a: seq<Slot>, b: seq<Slot>, o: Resolved, x: Recalled, fused: seq<Recalled>)
    requires multiset(a) == multiset(b) && (Coherent(a) || Coherent(b)) && IsFusion(a, o, fused)
    requires Found(b, x.episode.id) && IsEntry(b, o, x)
    ensures x in fused
  {
    SameSlots(a, b);
    assert Listed(fused, x.episode.id);
    var r :| r in fused && r.episode.id == x.episode.id;
    ScorePermutes(a, b, o, x.episode.id);
    assert IsEntry(a, o, x);
    EntryUnique(a, o, r, x);
  }

  // ---- Agreement beats rank --------------------------------------------------

  predicate RanksUpTo(slots: seq<Slot>, limit: Rank) {
    forall s, c :: s in slots && c in s.candidates ==> c.rank <= limit
  }

  predicate EqualWeights(slots: seq<Slot>, o: Resolved, w: real) {
    forall s :: s in slots ==> o.Weight(s.channel) == w
  }

  lemma ShareBounds(w: real, k: real, rank: Rank, limit: Rank)
    requires w > 0.0 && k > 0.0
    ensures Share(w, k, rank) <= Share(w, k, 1)
    ensures rank <= limit ==> Share(w, k, limit) <= Share(w, k, rank)
  {
    Quotients(w, k + 1.0, k + rank as real);
    if rank <= limit { Quotients(w, k + rank as real, k + limit as real); }
  }

  lemma Quotients(w: real, d: real, d': real)
    requires w > 0.0 && 0.0 < d <= d'
    ensures w / d' <= w / d
  {
    assert (w / d) * d == w && (w / d') * d' == w;
    ScaleUp(w / d, d, d');
    Cancel(w / d, w / d', d');
  }

  lemma Cancel(a: real, b: real, c: real)
    requires c > 0.0
    ensures b * c <= a * c ==> b <= a
    ensures b * c < a * c ==> b < a
  {}

  lemma ScaleUp(a: real, d: real, d': real)
    requires a > 0.0 && d <= d'
    ensures a * d <= a * d'
  {}

  function Times(n: nat, x: real): real { if n == 0 then 0.0 else Times(n - 1, x) + x }

  lemma {:induction false} AtLeastTwice(n: nat, x: real)
    requires n >= 2 && x >= 0.0
    ensures Times(n, x) >= x + x
  {
    if n == 2 { assert Times(2, x) == Times(1, x) + x; } else { AtLeastTwice(n - 1, x); }
  }

  predicate ShareWithin(s: Slot, o: Resolved, id: Id, lo: real, hi: real) {
    Scores(s, id) ==> lo <= Contribution(s, o, id) <= hi
  }

  lemma {:induction false} ScoreBounds(slots: seq<Slot>, o: Resolved, id: Id, lo: real, hi: real)
    requires forall s :: s in slots ==> ShareWithin(s, o, id, lo, hi)
    ensures Times(FoundBy(slots, id), lo) <= ScoreOf(slots, o, id) <= Times(FoundBy(slots, id), hi)
  {
    if slots != [] {
      var n := |slots| - 1;
      assert slots == slots[..n] + [slots[n]];
      ScoreBounds(slots[..n], o, id, lo, hi);
      assert ShareWithin(slots[n], o, id, lo, hi);
    }
  }

  /** Two shares at a rank exceed the top share exactly if the rank is less than K+2. */
  lemma TwoBeatOne(w: real, k: real, rank: Rank)
    requires w > 0.0 && k > 0.0
    ensures Share(w, k, rank) > 0.0
    ensures Share(w, k, rank) + Share(w, k, rank) > Share(w, k, 1) <==> rank as real < k + 2.0
  {
    var d, e, gap := k + rank as real, k + 1.0, k + 2.0 - rank as real;
    var x, y := w / d, w / e;
    assert x * d == w && y * e == w && x > 0.0;
    Distribute(x, d, gap);
    Twice(x, e);
    assert d + gap == e + e;
    assert (x + x) * e == y * e + x * gap;
    Compare(x + x, y, e, x * gap);
    SignOf(x, gap);
  }

  lemma Compare(a: real, b: real, c: real, more: real)
    requires c > 0.0 && a * c == b * c + more
    ensures a > b <==> more > 0.0
  {
    Cancel(a, b, c);
    Cancel(b, a, c);
  }

  lemma Twice(x: real, e: real)
    ensures (x + x) * e == x * (e + e)
  {}

  lemma Distribute(x: real, a: real, b: real)
    ensures x * (a + b) == x * a + x * b
  {}

  lemma SignOf(x: real, y: real)
    requires x > 0.0
    ensures x * y > 0.0 <==> y > 0.0
  {}

  lemma SharesWithin(slots: seq<Slot>, o: Resolved, w: real, id: Id, limit: Rank)
    requires w > 0.0 && EqualWeights(slots, o, w) && RanksUpTo(slots, limit)
    ensures forall s :: s in slots ==> ShareWithin(s, o, id, Share(w, o.k, limit), Share(w, o.k, 1))
  {
    hide Share;
    forall s | s in slots && Scores(s, id) ensures ShareWithin(s, o, id, Share(w, o.k, limit), Share(w, o.k, 1)) {
      ShareBounds(w, o.k, FirstHit(s.candidates, id).value.rank, limit);
    }
  }

  /** With equal weights and every rank less than K+2, every episode two channels agree on
      precedes every episode only one of them found. */
  lemma AgreementFirst(slots: seq<Slot>, o: Resolved, w: real, limit: Rank, fused: seq<Recalled>, i: nat, j: nat)
    requires w > 0.0 && EqualWeights(slots, o, w) && RanksUpTo(slots, limit) && limit as real < o.k + 2.0 && IsFusion(slots, o, fused)
    requires i < |fused| && j < |fused|
    requires FoundBy(slots, fused[i].episode.id) >= 2 && FoundBy(slots, fused[j].episode.id) == 1
    ensures i < j
  {
    hide HitsAre, Found, ScoreOf, FoundBy, ShareWithin, EqualWeights, RanksUpTo, Share;
    var a, b := fused[i], fused[j];
    assert a in fused && b in fused;
    var lo, hi := Share(w, o.k, limit), Share(w, o.k, 1);
    TwoBeatOne(w, o.k, limit);
    SharesWithin(slots, o, w, a.episode.id, limit);
    SharesWithin(slots, o, w, b.episode.id, limit);
    ScoreBounds(slots, o, a.episode.id, lo, hi);
    ScoreBounds(slots, o, b.episode.id, lo, hi);
    AtLeastTwice(FoundBy(slots, a.episode.id), lo);
    assert Times(1, hi) == hi;
    assert j < i ==> Precedes(b, a);
  }

  /** One channel puts a newer episode first, and an older one far down, where another finds it. */
  function Disagreeing(older: Episode, newer: Episode, rank: Rank): seq<Slot> {
    [Slot(Semantic, [Candidate(newer, 1, 0.0), Candidate(older, rank, 0.0)], false), Slot(Lexical, [Candidate(older, rank, 0.0)], false)]
  }

  function Leapfrogged(o: Resolved, w: real, older: Episode, newer: Episode, rank: Rank): seq<Recalled> {
    [Recalled(newer, Share(w, o.k, 1), map[Semantic := Hit(1, 0.0)]),
     Recalled(older, Share(w, o.k, rank) + Share(w, o.k, rank), map[Semantic := Hit(rank, 0.0), Lexical := Hit(rank, 0.0)])]
  }

  lemma WhoFindsWhat(older: Episode, newer: Episode, rank: Rank, id: Id)
    requires older.id < newer.id
    ensures var (first, second) := (Disagreeing(older, newer, rank)[0], Disagreeing(older, newer, rank)[1]);
      && FirstHit(first.candidates, id) ==
           (if id == newer.id then Some(Candidate(newer, 1, 0.0)) else if id == older.id then Some(Candidate(older, rank, 0.0)) else None)
      && FirstHit(second.candidates, id) == (if id == older.id then Some(Candidate(older, rank, 0.0)) else None)
  {
    var first, second := Disagreeing(older, newer, rank)[0].candidates, Disagreeing(older, newer, rank)[1].candidates;
    assert first[..1] == [first[0]] && first[..1][..0] == [] && second[..0] == [];
    assert FirstHit(first[..1][..0], id) == None && FirstHit(second[..0], id) == None;
    assert FirstHit(first[..1], id) == if id == newer.id then Some(first[0]) else None;
  }

  lemma ScoresOfTwo(slots: seq<Slot>, o: Resolved, id: Id)
    requires |slots| == 2
    ensures ScoreOf(slots, o, id) == Contribution(slots[0], o, id) + Contribution(slots[1], o, id)
    ensures FoundBy(slots, id) == (if Scores(slots[0], id) then 1 else 0) + (if Scores(slots[1], id) then 1 else 0)
  {
    var one := slots[..1];
    assert one[..0] == [] && slots[..|slots| - 1] == one && one[|one| - 1] == slots[0];
    assert ScoreOf(one, o, id) == Contribution(slots[0], o, id);
    assert FoundBy(one, id) == if Scores(slots[0], id) then 1 else 0;
    hide Contribution, Scores;
  }

  lemma NewerHolds(o: Resolved, w: real, older: Episode, newer: Episode, rank: Rank)
    requires o.Weight(Semantic) == w && older.id < newer.id
    ensures IsEntry(Disagreeing(older, newer, rank), o, Leapfrogged(o, w, older, newer, rank)[0])
    ensures FoundBy(Disagreeing(older, newer, rank), newer.id) == 1
  {
    var slots := Disagreeing(older, newer, rank);
    WhoFindsWhat(older, newer, rank, newer.id);
    ScoresOfTwo(slots, o, newer.id);
    hide FirstHit, ScoreOf, FoundBy, Share;
    assert slots[0] in slots && slots[0].candidates[0] in slots[0].candidates;
    assert Scores(slots[0], newer.id) && !Scores(slots[1], newer.id);
  }

  lemma OlderHolds(o: Resolved, w: real, older: Episode, newer: Episode, rank: Rank)
    requires o.Weight(Semantic) == o.Weight(Lexical) == w && older.id < newer.id
    ensures IsEntry(Disagreeing(older, newer, rank), o, Leapfrogged(o, w, older, newer, rank)[1])
    ensures FoundBy(Disagreeing(older, newer, rank), older.id) == 2
  {
    var slots := Disagreeing(older, newer, rank);
    WhoFindsWhat(older, newer, rank, older.id);
    ScoresOfTwo(slots, o, older.id);
    hide FirstHit, ScoreOf, FoundBy, Share;
    assert slots[0] in slots && slots[1] in slots && slots[0].candidates[1] in slots[0].candidates;
    assert Scores(slots[0], older.id) && Scores(slots[1], older.id);
  }

  lemma WhatIsFound(older: Episode, newer: Episode, rank: Rank)
    requires older.id < newer.id
    ensures forall id :: Found(Disagreeing(older, newer, rank), id) <==> id == older.id || id == newer.id
  {
    var slots := Disagreeing(older, newer, rank);
    forall id ensures Found(slots, id) <==> id == older.id || id == newer.id {
      WhoFindsWhat(older, newer, rank, id);
      assert id == older.id ==> Scores(slots[1], id);
      assert id == newer.id ==> Scores(slots[0], id);
      hide FirstHit;
    }
  }

  lemma DisagreeingHolds(o: Resolved, w: real, older: Episode, newer: Episode, rank: Rank)
    requires o.Weight(Semantic) == o.Weight(Lexical) == w
    ensures EqualWeights(Disagreeing(older, newer, rank), o, w) && RanksUpTo(Disagreeing(older, newer, rank), rank)
  {}

  /** And K+2 is exactly the bound: at any rank from there on an episode two channels found
      can come after one that only one of them did. */
  lemma PastTheBound(o: Resolved, w: real, older: Episode, newer: Episode, rank: Rank)
    requires w > 0.0 && o.Weight(Semantic) == o.Weight(Lexical) == w && older.id < newer.id && rank as real >= o.k + 2.0
    ensures var (slots, fused) := (Disagreeing(older, newer, rank), Leapfrogged(o, w, older, newer, rank));
      && EqualWeights(slots, o, w) && RanksUpTo(slots, rank) && IsFusion(slots, o, fused)
      && FoundBy(slots, fused[0].episode.id) == 1 && FoundBy(slots, fused[1].episode.id) == 2
  {
    var slots, fused := Disagreeing(older, newer, rank), Leapfrogged(o, w, older, newer, rank);
    WhatIsFound(older, newer, rank);
    DisagreeingHolds(o, w, older, newer, rank);
    NewerHolds(o, w, older, newer, rank);
    OlderHolds(o, w, older, newer, rank);
    TwoBeatOne(w, o.k, rank);
    assert Precedes(fused[0], fused[1]) by { hide Share; }
    hide Share, ScoreOf, FoundBy, Found, IsEntry, Disagreeing, EqualWeights, RanksUpTo, Precedes, IsFusion;
    TwoRowsFuse(slots, o, fused[0], fused[1]);
  }

  lemma TwoRowsFuse(slots: seq<Slot>, o: Resolved, a: Recalled, b: Recalled)
    requires IsEntry(slots, o, a) && IsEntry(slots, o, b) && Precedes(a, b)
    requires forall id :: Found(slots, id) <==> id == a.episode.id || id == b.episode.id
    ensures IsFusion(slots, o, [a, b])
  {
    var rows := [a, b];
    assert rows[0] in rows && rows[1] in rows;
    assert Listed(rows, a.episode.id) && Listed(rows, b.episode.id);
    hide IsEntry, Found, Precedes;
  }
}
