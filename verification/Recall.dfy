/** The read loop after the channels have answered: fuse, then cut to the limits and the
    token budget, facts before episodes. */
module Recall {
  import opened Model
  import opened Fusion

  /** One channel's slot: its candidates, and its facts if it is the fact channel. */
  datatype Answer = Answer(slot: Slot, facts: seq<Fact>)

  datatype Recollection = Recollection(
    facts: seq<(Fact, int)>, episodes: seq<(Recalled, int)>, tokens: int, truncated: bool)

  datatype Limits = Limits(episodes: nat, facts: nat, maxTokens: nat)

  // ---- Which channels run ---------------------------------------------------

  /** Where a channel is first asked for; the length if it is not. */
  function FirstIndex(channels: seq<Channel>, c: Channel): (i: nat)
    ensures i <= |channels| && c !in channels[..i] && (i < |channels| ==> channels[i] == c)
  {
    if channels == [] then 0
    else
      var i := FirstIndex(channels[..|channels| - 1], c);
      assert channels[..|channels| - 1][..i] == channels[..i];
      if i < |channels| - 1 || channels[i] == c then i else i + 1
  }

  /** Repeats dropped, each channel where it was first asked for. */
  ghost predicate Deduplicated(requested: seq<Channel>, out: seq<Channel>) {
    && (forall c :: c in out <==> c in requested)
    && (forall i, j :: 0 <= i < j < |out| ==> FirstIndex(requested, out[i]) < FirstIndex(requested, out[j]))
  }

  /** None named means every channel that can answer; facts need an extractor. */
  method ResolveChannels(requested: seq<Channel>, hasFacts: bool) returns (out: seq<Channel>)
    ensures requested == [] ==> out == [Semantic, Lexical] + if hasFacts then [Facts] else []
    ensures requested != [] ==> Deduplicated(requested, out)
  {
    if requested == [] {
      return if hasFacts then [Semantic, Lexical, Facts] else [Semantic, Lexical];
    }
    out := [];
    for i := 0 to |requested|
      invariant forall c :: c in out <==> c in requested[..i]
      invariant forall k, l :: 0 <= k < l < |out| ==> FirstIndex(requested, out[k]) < FirstIndex(requested, out[l])
      invariant forall k :: 0 <= k < |out| ==> FirstIndex(requested, out[k]) < i
    {
      var c := requested[i];
      assert requested[..i + 1] == requested[..i] + [c];
      if c !in out {
        out := out + [c];
      }
    }
    assert requested[..|requested|] == requested;
  }

  // ---- The cut --------------------------------------------------------------

  function Sum(costs: seq<int>): int {
    if costs == [] then 0 else Sum(costs[..|costs| - 1]) + costs[|costs| - 1]
  }

  /** The first n items are within the limit, and every step of the way within the budget. */
  ghost predicate Fits(costs: seq<int>, limit: nat, maxTokens: nat, used: int, n: nat)
    requires n <= |costs|
  {
    n <= limit && (maxTokens > 0 ==> forall m :: 1 <= m <= n ==> used + Sum(costs[..m]) <= maxTokens)
  }

  /** The longest prefix that fits. */
  ghost predicate IsCut(costs: seq<int>, limit: nat, maxTokens: nat, used: int, n: nat) {
    n <= |costs| && Fits(costs, limit, maxTokens, used, n) && (n < |costs| ==> !Fits(costs, limit, maxTokens, used, n + 1))
  }

  lemma FitsShorter(costs: seq<int>, limit: nat, maxTokens: nat, used: int, m: nat, n: nat)
    requires m <= n <= |costs| && Fits(costs, limit, maxTokens, used, n)
    ensures Fits(costs, limit, maxTokens, used, m)
  {}

  lemma CutUnique(costs: seq<int>, limit: nat, maxTokens: nat, used: int, m: nat, n: nat)
    requires IsCut(costs, limit, maxTokens, used, m) && IsCut(costs, limit, maxTokens, used, n)
    ensures m == n
  {
    if m < n { FitsShorter(costs, limit, maxTokens, used, m + 1, n); }
    if n < m { FitsShorter(costs, limit, maxTokens, used, n + 1, m); }
  }

  function FactCosts(facts: seq<Fact>, count: string -> int): seq<int> {
    seq(|facts|, i requires 0 <= i < |facts| => count(facts[i].statement))
  }

  function EpisodeCosts(fused: seq<Recalled>, count: string -> int): seq<int> {
    seq(|fused|, i requires 0 <= i < |fused| => count(fused[i].episode.body.content))
  }

  function AllFacts(answers: seq<Answer>): seq<Fact> {
    if answers == [] then [] else AllFacts(answers[..|answers| - 1]) + answers[|answers| - 1].facts
  }

  function Slots(answers: seq<Answer>): (slots: seq<Slot>)
    ensures |slots| == |answers| && forall i :: 0 <= i < |answers| ==> slots[i] == answers[i].slot
  {
    seq(|answers|, i requires 0 <= i < |answers| => answers[i].slot)
  }

  /** What running the resolved channels yields: distinct channels, facts from the fact channel alone. */
  ghost predicate WellFormed(answers: seq<Answer>) {
    && (forall i, j :: 0 <= i < j < |answers| ==> answers[i].slot.channel != answers[j].slot.channel)
    && (forall i :: 0 <= i < |answers| && answers[i].facts != [] ==> answers[i].slot.channel == Facts)
  }

  predicate AllFailed(answers: seq<Answer>) {
    answers != [] && forall i :: 0 <= i < |answers| ==> answers[i].slot.failed
  }

  /** The facts as far as the limit and the budget go, each at the cost of its statement, stopping
      short only at the limit or where the next would break the budget. */
  ghost predicate FactsCut(facts: seq<Fact>, limits: Limits, count: string -> int, taken: seq<(Fact, int)>, tokens: int) {
    var n := |taken|;
    && IsCut(FactCosts(facts, count), limits.facts, limits.maxTokens, 0, n) && tokens == Sum(FactCosts(facts, count)[..n])
    && (forall i :: 0 <= i < n ==> taken[i] == (facts[i], count(facts[i].statement)))
    && (n < |facts| ==> n == limits.facts || (limits.maxTokens > 0 && tokens + count(facts[n].statement) > limits.maxTokens))
  }

  /** Then the episodes, each at the cost of its content, with what was used before. */
  ghost predicate EpisodesCut(fused: seq<Recalled>, limits: Limits, count: string -> int, used: int, taken: seq<(Recalled, int)>, tokens: int) {
    var n := |taken|;
    && IsCut(EpisodeCosts(fused, count), limits.episodes, limits.maxTokens, used, n) && tokens == used + Sum(EpisodeCosts(fused, count)[..n])
    && (forall i :: 0 <= i < n ==> taken[i] == (fused[i], count(fused[i].episode.body.content)))
    && (n < |fused| ==> n == limits.episodes || (limits.maxTokens > 0 && tokens + count(fused[n].episode.body.content) > limits.maxTokens))
  }

  /** What a recollection is. The fact part never mentions the episodes, so no fact is dropped for
      the sake of one. */
  ghost predicate Cut(facts: seq<Fact>, fused: seq<Recalled>, limits: Limits, count: string -> int, out: Recollection) {
    (exists used :: FactsCut(facts, limits, count, out.facts, used) && EpisodesCut(fused, limits, count, used, out.episodes, out.tokens))
    && (limits.maxTokens > 0 ==> out.tokens <= limits.maxTokens)
    && (out.truncated <==> |out.facts| < |facts| || |out.episodes| < |fused|)
  }

  lemma WithinTokens(facts: seq<Fact>, fused: seq<Recalled>, limits: Limits, count: string -> int,
                     taken: seq<(Fact, int)>, used: int, more: seq<(Recalled, int)>, tokens: int)
    requires FactsCut(facts, limits, count, taken, used) && EpisodesCut(fused, limits, count, used, more, tokens)
    ensures limits.maxTokens > 0 ==> tokens <= limits.maxTokens
    ensures |taken| <= |facts| && |more| <= |fused|
  {}

  lemma SumGrows(costs: seq<int>, n: nat)
    requires n < |costs|
    ensures Sum(costs[..n + 1]) == Sum(costs[..n]) + costs[n]
  {
    assert costs[..n + 1][..n] == costs[..n];
  }

  lemma FitsGrows(costs: seq<int>, limit: nat, maxTokens: nat, used: int, n: nat)
    requires n < |costs| && Fits(costs, limit, maxTokens, used, n)
    ensures Fits(costs, limit, maxTokens, used, n + 1) <==>
      n < limit && (maxTokens > 0 ==> used + Sum(costs[..n]) + costs[n] <= maxTokens)
  {
    SumGrows(costs, n);
  }

  /** Takes facts while the limit and the budget allow. */
  method CutFacts(facts: seq<Fact>, limits: Limits, count: string -> int)
    returns (out: seq<(Fact, int)>, tokens: int, truncated: bool)
    ensures FactsCut(facts, limits, count, out, tokens) && (truncated <==> |out| < |facts|)
  {
    ghost var costs := FactCosts(facts, count);
    out, tokens, truncated := [], 0, false;
    for i := 0 to |facts|
      invariant |out| == i && tokens == Sum(costs[..i]) && !truncated
      invariant Fits(costs, limits.facts, limits.maxTokens, 0, i)
      invariant forall k :: 0 <= k < i ==> out[k] == (facts[k], costs[k])
    {
      FitsGrows(costs, limits.facts, limits.maxTokens, 0, i);
      SumGrows(costs, i);
      if |out| >= limits.facts {
        truncated := true;
        break;
      }
      var cost := count(facts[i].statement);
      if limits.maxTokens > 0 && tokens + cost > limits.maxTokens {
        truncated := true;
        break;
      }
      out := out + [(facts[i], cost)];
      tokens := tokens + cost;
    }
  }

  /** Spends what the facts left. */
  method CutEpisodes(fused: seq<Recalled>, limits: Limits, count: string -> int, used: int)
    returns (out: seq<(Recalled, int)>, tokens: int, truncated: bool)
    ensures EpisodesCut(fused, limits, count, used, out, tokens) && (truncated <==> |out| < |fused|)
  {
    ghost var costs := EpisodeCosts(fused, count);
    out, tokens, truncated := [], used, false;
    for i := 0 to |fused|
      invariant |out| == i && tokens == used + Sum(costs[..i]) && !truncated
      invariant Fits(costs, limits.episodes, limits.maxTokens, used, i)
      invariant forall k :: 0 <= k < i ==> out[k] == (fused[k], costs[k])
    {
      FitsGrows(costs, limits.episodes, limits.maxTokens, used, i);
      SumGrows(costs, i);
      if |out| >= limits.episodes {
        truncated := true;
        break;
      }
      var cost := count(fused[i].episode.body.content);
      if limits.maxTokens > 0 && tokens + cost > limits.maxTokens {
        truncated := true;
        break;
      }
      out := out + [(fused[i], cost)];
      tokens := tokens + cost;
    }
  }

  /** Only one slot can hold facts, so the loop over slots cuts one list. */
  lemma {:induction false} OneFactList(answers: seq<Answer>, i: nat)
    requires WellFormed(answers) && i < |answers| && answers[i].facts != []
    ensures AllFacts(answers[..i]) == [] && AllFacts(answers[..i + 1]) == answers[i].facts
    ensures forall j :: i < j < |answers| ==> answers[j].facts == []
  {
    NoFacts(answers[..i]);
    assert answers[..i + 1][..i] == answers[..i];
  }

  /** So the facts cut are those of the slot that has any. */
  lemma FactsOfOne(answers: seq<Answer>, i: nat)
    requires WellFormed(answers) && i < |answers|
    ensures answers[i].facts != [] ==> AllFacts(answers) == answers[i].facts
  {
    if answers[i].facts != [] {
      OneFactList(answers, i);
      NoneAfter(answers, i + 1);
    }
  }

  lemma {:induction false} NoneAfter(answers: seq<Answer>, n: nat)
    requires n <= |answers| && forall j :: n <= j < |answers| ==> answers[j].facts == []
    ensures AllFacts(answers) == AllFacts(answers[..n])
  {
    if n == |answers| {
      assert answers[..n] == answers;
    } else {
      assert answers[..|answers| - 1][..n] == answers[..n];
      NoneAfter(answers[..|answers| - 1], n);
    }
  }

  lemma {:induction false} NoFacts(answers: seq<Answer>)
    requires forall i :: 0 <= i < |answers| ==> answers[i].facts == []
    ensures AllFacts(answers) == []
  {
    if answers != [] { NoFacts(answers[..|answers| - 1]); }
  }

  lemma CutsNothing(limits: Limits, count: string -> int)
    ensures FactsCut([], limits, count, [], 0)
  {}

  /** The loop over slots: only the fact channel's holds any. */
  method CutSlots(answers: seq<Answer>, limits: Limits, count: string -> int)
    returns (facts: seq<(Fact, int)>, tokens: int, truncated: bool)
    requires WellFormed(answers)
    ensures FactsCut(AllFacts(answers), limits, count, facts, tokens) && (truncated <==> |facts| < |AllFacts(answers)|)
  {
    CutsNothing(limits, count);
    hide FactsCut;
    facts, tokens, truncated := [], 0, false;
    ghost var from: seq<Fact> := [];
    for i := 0 to |answers|
      invariant from == AllFacts(answers[..i])
      invariant FactsCut(from, limits, count, facts, tokens) && (truncated <==> |facts| < |from|)
    {
      assert answers[..i + 1][..i] == answers[..i];
      if answers[i].facts != [] {
        OneFactList(answers, i);
        facts, tokens, truncated := CutFacts(answers[i].facts, limits, count);
        from := answers[i].facts;
      }
    }
    assert answers[..|answers|] == answers;
  }

  method Recollect(answers: seq<Answer>, o: Resolved, limits: Limits, count: string -> int)
    returns (r: Result<Recollection>, ghost fused: seq<Recalled>)
    requires WellFormed(answers)
    ensures r.Err? <==> answers != [] && forall i :: 0 <= i < |answers| ==> answers[i].slot.failed
    ensures r.Err? ==> r.error == AllChannelsFailed
    ensures r.Ok? ==> IsFusion(Slots(answers), o, fused) && Cut(AllFacts(answers), fused, limits, count, r.value)
  {
    hide IsFusion, FactsCut, EpisodesCut, AllFacts;
    if AllFailed(answers) { return Err(AllChannelsFailed), []; }
    var facts, tokens, truncated := CutSlots(answers, limits, count);
    var rows := Fuse(Slots(answers), o);
    var episodes, total, cutShort := CutEpisodes(rows, limits, count, tokens);
    WithinTokens(AllFacts(answers), rows, limits, count, facts, tokens, episodes, total);
    return Ok(Recollection(facts, episodes, total, truncated || cutShort)), rows;
  }

  /** The recollection is fixed by the two lists, the limits and the token counter. */
  lemma CutDetermined(facts: seq<Fact>, fused: seq<Recalled>, limits: Limits, count: string -> int, a: Recollection, b: Recollection)
    requires Cut(facts, fused, limits, count, a) && Cut(facts, fused, limits, count, b)
    ensures a == b
  {
    var used :| FactsCut(facts, limits, count, a.facts, used) && EpisodesCut(fused, limits, count, used, a.episodes, a.tokens);
    var used' :| FactsCut(facts, limits, count, b.facts, used') && EpisodesCut(fused, limits, count, used', b.episodes, b.tokens);
    SameFacts(facts, limits, count, a.facts, used, b.facts, used');
    SameEpisodes(fused, limits, count, used, a.episodes, a.tokens, b.episodes, b.tokens);
    hide FactsCut, EpisodesCut;
  }

  lemma SameFacts(facts: seq<Fact>, limits: Limits, count: string -> int, xs: seq<(Fact, int)>, x: int, ys: seq<(Fact, int)>, y: int)
    requires FactsCut(facts, limits, count, xs, x) && FactsCut(facts, limits, count, ys, y)
    ensures xs == ys && x == y
  {
    CutUnique(FactCosts(facts, count), limits.facts, limits.maxTokens, 0, |xs|, |ys|);
    hide IsCut, FactCosts, Sum;
  }

  lemma SameEpisodes(fused: seq<Recalled>, limits: Limits, count: string -> int, used: int, xs: seq<(Recalled, int)>, x: int, ys: seq<(Recalled, int)>, y: int)
    requires EpisodesCut(fused, limits, count, used, xs, x) && EpisodesCut(fused, limits, count, used, ys, y)
    ensures xs == ys && x == y
  {
    CutUnique(EpisodeCosts(fused, count), limits.episodes, limits.maxTokens, used, |xs|, |ys|);
    hide IsCut, EpisodeCosts, Sum;
  }

  /** No fact is dropped for the sake of an episode: the facts returned are the same
      whatever else was found. */
  lemma FactsComeFirst(facts: seq<Fact>, fused: seq<Recalled>, others: seq<Recalled>, limits: Limits, count: string -> int, a: Recollection, b: Recollection)
    requires Cut(facts, fused, limits, count, a) && Cut(facts, others, limits, count, b)
    ensures a.facts == b.facts
  {
    var used :| FactsCut(facts, limits, count, a.facts, used);
    var used' :| FactsCut(facts, limits, count, b.facts, used');
    SameFacts(facts, limits, count, a.facts, used, b.facts, used');
  }

  /** With the fused list itself independent of slot order, so is everything recalled. */
  lemma RecallDeterministic(xs: seq<Answer>, ys: seq<Answer>, o: Resolved, limits: Limits, count: string -> int,
                            fused: seq<Recalled>, fused': seq<Recalled>, a: Recollection, b: Recollection)
    requires multiset(Slots(xs)) == multiset(Slots(ys)) && AllFacts(xs) == AllFacts(ys) && Coherent(Slots(xs))
    requires IsFusion(Slots(xs), o, fused) && Cut(AllFacts(xs), fused, limits, count, a)
    requires IsFusion(Slots(ys), o, fused') && Cut(AllFacts(ys), fused', limits, count, b)
    ensures a == b
  {
    SlotOrderFree(Slots(xs), Slots(ys), o, fused, fused');
    CutDetermined(AllFacts(xs), fused, limits, count, a, b);
  }
}
