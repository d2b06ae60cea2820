/** What the weights of the channels do to a fused list: each channel adds its weight over K plus
    the rank it gave, and nothing else decides who comes first but the age of the episodes. */
module Weights {
  import opened Model
  import opened Fusion

  /** The ranking names the episode first at this place. */
  ghost predicate FirstAt(s: Slot, id: Id, c: nat) {
    && !s.failed && c < |s.candidates| && s.candidates[c].episode.id == id
    && forall k :: 0 <= k < c ==> s.candidates[k].episode.id != id
  }

  /** The channel did not fail, and its ranking names the episode somewhere. */
  ghost predicate Mentions(s: Slot, id: Id) { !s.failed && exists k :: 0 <= k < |s.candidates| && s.candidates[k].episode.id == id }

  function Without(slots: seq<Slot>, i: nat): seq<Slot>
    requires i < |slots|
  {
    slots[..i] + slots[i + 1..]
  }

  /** No other slot names the episode. */
  ghost predicate OnlyIn(slots: seq<Slot>, id: Id, i: nat) {
    i < |slots| && forall k :: 0 <= k < |slots| && k != i ==> !Mentions(slots[k], id)
  }

  lemma {:induction false} FirstHitAt(cands: seq<Candidate>, id: Id, c: nat)
    requires c < |cands| && cands[c].episode.id == id && forall k :: 0 <= k < c ==> cands[k].episode.id != id
    ensures FirstHit(cands, id) == Some(cands[c])
  {
    var n := |cands| - 1;
    if c < n {
      assert forall k :: 0 <= k <= c ==> cands[..n][k] == cands[k];
      FirstHitAt(cands[..n], id, c);
    } else {
      forall d | d in cands[..n] ensures d.episode.id != id {}
    }
  }

  lemma ScoresMeans(s: Slot, id: Id)
    ensures Scores(s, id) <==> Mentions(s, id)
    ensures forall c: nat :: FirstAt(s, id, c) ==> Scores(s, id) && FirstHit(s.candidates, id) == Some(s.candidates[c])
  {
    if Mentions(s, id) {
      var k :| 0 <= k < |s.candidates| && s.candidates[k].episode.id == id;
      assert s.candidates[k] in s.candidates;
    }
    forall c: nat | FirstAt(s, id, c) ensures Scores(s, id) && FirstHit(s.candidates, id) == Some(s.candidates[c]) {
      FirstHitAt(s.candidates, id, c);
    }
    hide FirstHit;
  }

  /** A channel contributes its weight over K plus the rank of the first mention, or nothing. */
  lemma Contributes(s: Slot, o: Resolved, id: Id, c: nat)
    ensures FirstAt(s, id, c) ==> Contribution(s, o, id) * (o.k + s.candidates[c].rank as real) == if s.channel in o.weights then o.weights[s.channel] else 1.0
    ensures !Mentions(s, id) ==> Contribution(s, o, id) == 0.0
  {
    hide FirstHit, Scores, Mentions;
    ScoresMeans(s, id);
    if FirstAt(s, id, c) {
      ShareOf(if s.channel in o.weights then o.weights[s.channel] else 1.0, o.k, s.candidates[c].rank);
      hide Share;
    }
  }

  lemma ShareOf(w: real, k: real, rank: Rank)
    requires k > 0.0
    ensures Share(w, k, rank) * (k + rank as real) == w
  {
    Undivided(w, k + rank as real);
  }

  lemma Undivided(w: real, d: real)
    requires d > 0.0
    ensures (w / d) * d == w
  {}

  /** One channel more, beside the others: its hit is noted, its contribution added. */
  lemma AddsOne(slots: seq<Slot>, o: Resolved, i: nat, c: nat, fused: seq<Recalled>, fused': seq<Recalled>, r: Recalled)
    requires i < |slots| && IsFusion(slots, o, fused) && IsFusion(Without(slots, i), o, fused')
    requires r in fused && FirstAt(slots[i], r.episode.id, c)
    ensures slots[i].channel in r.hits && r.hits[slots[i].channel] == Hit(slots[i].candidates[c].rank, slots[i].candidates[c].score)
    ensures OnlyIn(slots, r.episode.id, i) ==> r.score == Contribution(slots[i], o, r.episode.id)
    ensures !OnlyIn(slots, r.episode.id, i) ==>
      exists r' :: r' in fused' && r'.episode.id == r.episode.id && r.score - r'.score == Contribution(slots[i], o, r.episode.id)
  {
    hide FirstHit, Scores, Contribution, ScoreOf, Found, OnlyIn, FirstAt;
    var id, rest := r.episode.id, Without(slots, i);
    ScoresMeans(slots[i], id);
    ScoreWithout(slots, o, id, i);
    FoundElsewhere(slots, id, i);
    assert slots[i] in slots;
    if OnlyIn(slots, id, i) {
      NothingFound(rest, o, id);
    } else {
      assert Fusion.Listed(fused', id);
      var r' :| r' in fused' && r'.episode.id == id;
      assert IsEntry(rest, o, r');
    }
  }

  /** What one channel more adds to the score of a row, with its hit noted beside the score,
      whatever it weighs: its weight over K plus the rank it gave. */
  lemma AddsItsWeight(slots: seq<Slot>, o: Resolved, i: nat, c: nat, fused: seq<Recalled>, fused': seq<Recalled>, r: Recalled)
    requires i < |slots| && IsFusion(slots, o, fused) && IsFusion(Without(slots, i), o, fused')
    requires r in fused && FirstAt(slots[i], r.episode.id, c)
    ensures var (cand, w) := (slots[i].candidates[c], if slots[i].channel in o.weights then o.weights[slots[i].channel] else 1.0);
      && slots[i].channel in r.hits && r.hits[slots[i].channel] == Hit(cand.rank, cand.score)
      && (OnlyIn(slots, r.episode.id, i) ==> r.score * (o.k + cand.rank as real) == w)
      && (!OnlyIn(slots, r.episode.id, i) ==>
            exists r' :: r' in fused' && r'.episode.id == r.episode.id && (r.score - r'.score) * (o.k + cand.rank as real) == w)
  {
    hide *;
    AddsOne(slots, o, i, c, fused, fused', r);
    Contributes(slots[i], o, r.episode.id, c);
    if !OnlyIn(slots, r.episode.id, i) {
      var r' :| r' in fused' && r'.episode.id == r.episode.id && r.score - r'.score == Contribution(slots[i], o, r.episode.id);
    }
  }

  lemma FoundElsewhere(slots: seq<Slot>, id: Id, i: nat)
    requires i < |slots|
    ensures OnlyIn(slots, id, i) <==> !Found(Without(slots, i), id)
  {
    var rest := Without(slots, i);
    if Found(rest, id) {
      var s :| s in rest && Scores(s, id);
      ScoresMeans(s, id);
      var k :| 0 <= k < |rest| && rest[k] == s;
      assert slots[if k < i then k else k + 1] == s;
    }
    forall k | 0 <= k < |slots| && k != i ensures Mentions(slots[k], id) ==> Found(rest, id) {
      ScoresMeans(slots[k], id);
      assert rest[if k < i then k else k - 1] == slots[k];
    }
    hide Scores, Mentions;
  }

  /** So a channel of weight zero moves no score, and its hits are there to be seen. */
  lemma WeighsNothing(slots: seq<Slot>, o: Resolved, i: nat, fused: seq<Recalled>, fused': seq<Recalled>, r: Recalled, r': Recalled)
    requires i < |slots| && IsFusion(slots, o, fused) && IsFusion(Without(slots, i), o, fused')
    requires slots[i].channel in o.weights && o.weights[slots[i].channel] == 0.0
    requires r in fused && r' in fused' && r.episode.id == r'.episode.id
    ensures r.score == r'.score
    ensures Mentions(slots[i], r.episode.id) ==> slots[i].channel in r.hits
  {
    hide FirstHit, ScoreOf, Found, Mentions, Scores, Contribution;
    var id := r.episode.id;
    ScoreWithout(slots, o, id, i);
    ScoresMeans(slots[i], id);
    NoContribution(slots[i], o, id);
    assert IsEntry(slots, o, r) && IsEntry(Without(slots, i), o, r') && slots[i] in slots;
  }

  lemma NoContribution(s: Slot, o: Resolved, id: Id)
    requires s.channel in o.weights && o.weights[s.channel] == 0.0
    ensures Contribution(s, o, id) == 0.0
  {
    hide FirstHit;
    if Scores(s, id) { NoShare(o.k + FirstHit(s.candidates, id).value.rank as real); }
  }

  lemma NoShare(d: real)
    requires d > 0.0
    ensures 0.0 / d == 0.0
  {}

  lemma Ratios(x: real, y: real, a: real, b: real, v: real, w: real)
    requires a > 0.0 && b > 0.0 && x * a == v && y * b == w
    ensures x > y <==> v * b > w * a
    ensures x == y <==> v * b == w * a
  {
    var ab := a * b;
    assert ab > 0.0;
    assert v * b == x * ab && w * a == y * ab by { Regroup(x, a, b); Regroup(y, b, a); }
    Cancel(x, y, ab);
    Cancel(y, x, ab);
  }

  lemma Regroup(x: real, a: real, b: real)
    ensures (x * a) * b == x * (a * b)
  {}

  /** Of two episodes that one channel each found, the first is the one whose channel's weight,
      times K plus the other's rank, is greater; if they come to the same, the newer. */
  lemma WeightsDecide(slots: seq<Slot>, o: Resolved, fused: seq<Recalled>, p: nat, q: nat, i: nat, j: nat, c: nat, d: nat)
    requires IsFusion(slots, o, fused) && p < |fused| && q < |fused| && p != q
    requires OnlyIn(slots, fused[p].episode.id, i) && FirstAt(slots[i], fused[p].episode.id, c)
    requires OnlyIn(slots, fused[q].episode.id, j) && FirstAt(slots[j], fused[q].episode.id, d)
    ensures var (v, w) := (if slots[i].channel in o.weights then o.weights[slots[i].channel] else 1.0,
                           if slots[j].channel in o.weights then o.weights[slots[j].channel] else 1.0);
      var (ours, theirs) := (v * (o.k + slots[j].candidates[d].rank as real), w * (o.k + slots[i].candidates[c].rank as real));
      p < q <==> ours > theirs || (ours == theirs && fused[p].episode.id > fused[q].episode.id)
  {
    hide IsFusion, Mentions, Contribution;
    OneShare(slots, o, fused, p, i, c);
    OneShare(slots, o, fused, q, j, d);
    ScoreDecides(slots, o, fused, p, q);
    Ratios(fused[p].score, fused[q].score, o.k + slots[i].candidates[c].rank as real, o.k + slots[j].candidates[d].rank as real,
           if slots[i].channel in o.weights then o.weights[slots[i].channel] else 1.0,
           if slots[j].channel in o.weights then o.weights[slots[j].channel] else 1.0);
  }

  lemma ScoreDecides(slots: seq<Slot>, o: Resolved, fused: seq<Recalled>, p: nat, q: nat)
    requires IsFusion(slots, o, fused) && p < |fused| && q < |fused| && p != q
    ensures p < q <==> fused[p].score > fused[q].score || (fused[p].score == fused[q].score && fused[p].episode.id > fused[q].episode.id)
  {
    assert if p < q then Precedes(fused[p], fused[q]) else Precedes(fused[q], fused[p]);
    hide Covers;
  }

  lemma OneShare(slots: seq<Slot>, o: Resolved, fused: seq<Recalled>, p: nat, i: nat, c: nat)
    requires IsFusion(slots, o, fused) && p < |fused| && OnlyIn(slots, fused[p].episode.id, i) && FirstAt(slots[i], fused[p].episode.id, c)
    ensures fused[p].score * (o.k + slots[i].candidates[c].rank as real) == if slots[i].channel in o.weights then o.weights[slots[i].channel] else 1.0
  {
    hide IsFusion, Mentions, Contribution;
    AloneAdds(slots, o, fused, p, i);
    Contributes(slots[i], o, fused[p].episode.id, c);
  }

  lemma AloneAdds(slots: seq<Slot>, o: Resolved, fused: seq<Recalled>, p: nat, i: nat)
    requires IsFusion(slots, o, fused) && p < |fused| && OnlyIn(slots, fused[p].episode.id, i)
    ensures fused[p].score == Contribution(slots[i], o, fused[p].episode.id)
  {
    hide FirstHit, Contribution, Found;
    assert fused[p] in fused;
    ScoreWithout(slots, o, fused[p].episode.id, i);
    FoundElsewhere(slots, fused[p].episode.id, i);
    NothingFound(Without(slots, i), o, fused[p].episode.id);
    hide ScoreOf, OnlyIn;
  }

  /** The tops of two channels, where nobody else found them, come in the order of the weights. */
  lemma HeavierTopFirst(slots: seq<Slot>, o: Resolved, fused: seq<Recalled>, p: nat, q: nat, i: nat, j: nat)
    requires IsFusion(slots, o, fused) && p < |fused| && q < |fused| && p != q
    requires OnlyIn(slots, fused[p].episode.id, i) && FirstAt(slots[i], fused[p].episode.id, 0) && slots[i].candidates[0].rank == 1
    requires OnlyIn(slots, fused[q].episode.id, j) && FirstAt(slots[j], fused[q].episode.id, 0) && slots[j].candidates[0].rank == 1
    ensures var (v, w) := (if slots[i].channel in o.weights then o.weights[slots[i].channel] else 1.0,
                           if slots[j].channel in o.weights then o.weights[slots[j].channel] else 1.0);
      p < q <==> v > w || (v == w && fused[p].episode.id > fused[q].episode.id)
  {
    hide IsFusion, Mentions, Contribution;
    WeightsDecide(slots, o, fused, p, q, i, j, 0, 0);
    SameRank(if slots[i].channel in o.weights then o.weights[slots[i].channel] else 1.0,
             if slots[j].channel in o.weights then o.weights[slots[j].channel] else 1.0, o.k + 1.0);
  }

  lemma SameRank(v: real, w: real, d: real)
    requires d > 0.0
    ensures v * d > w * d <==> v > w
    ensures v * d == w * d <==> v == w
  {
    Cancel(v, w, d);
    Cancel(w, v, d);
  }

  /** The list names exactly the episodes that some channel's ranking names, and each once. */
  lemma ListsTheMentioned(slots: seq<Slot>, o: Resolved, fused: seq<Recalled>, id: Id)
    requires IsFusion(slots, o, fused)
    ensures (exists p :: 0 <= p < |fused| && fused[p].episode.id == id) <==> exists i :: 0 <= i < |slots| && Mentions(slots[i], id)
    ensures forall p, q :: 0 <= p < |fused| && 0 <= q < |fused| && fused[p].episode.id == fused[q].episode.id ==> p == q
  {
    forall s ensures Scores(s, id) <==> Mentions(s, id) { ScoresMeans(s, id); }
    if p :| 0 <= p < |fused| && fused[p].episode.id == id {
      assert fused[p] in fused;
      var s :| s in slots && Scores(s, id);
      var i :| 0 <= i < |slots| && slots[i] == s;
      assert Mentions(slots[i], id);
    }
    if i :| 0 <= i < |slots| && Mentions(slots[i], id) {
      assert slots[i] in slots && Found(slots, id);
      assert Fusion.Listed(fused, id);
    }
    forall p, q | 0 <= p < q < |fused| ensures fused[p].episode.id != fused[q].episode.id { EntriesDiffer(slots, o, fused, p, q); }
    hide Scores, Mentions, IsEntry;
  }

  lemma EntriesDiffer(slots: seq<Slot>, o: Resolved, fused: seq<Recalled>, p: nat, q: nat)
    requires IsFusion(slots, o, fused) && p < q < |fused|
    ensures fused[p].episode.id != fused[q].episode.id
  {
    assert fused[p] in fused && fused[q] in fused && Precedes(fused[p], fused[q]);
    assert IsEntry(slots, o, fused[p]) && IsEntry(slots, o, fused[q]);
    hide ScoreOf, HitsAre, Candidacy, Found;
  }
}
