/** Scoring one recollection against a question's labels. The logarithmic discount is a
    parameter: positive, and strictly smaller at each later rank. */
module Metrics {
  import Sets

  datatype Score = Score(relevant: nat, returned: nat, hit: bool, reciprocalRank: real, recall: real, ndcg: real)

  type Discount = nat -> real

  ghost predicate IsDiscount(gain: Discount) {
    (forall r :: gain(r) > 0.0) && forall r, s :: r < s ==> gain(r) > gain(s)
  }

  /** Sequence numbers count from one in append order; labels index from zero. */
  predicate IsRelevant(relevant: set<int>, seqNo: int) { seqNo - 1 in relevant }

  function Found(relevant: set<int>, seqs: seq<int>): nat {
    if seqs == [] then 0 else Found(relevant, seqs[..|seqs| - 1]) + if IsRelevant(relevant, seqs[|seqs| - 1]) then 1 else 0
  }

  function Gain(relevant: set<int>, seqs: seq<int>, gain: Discount): real {
    if seqs == [] then 0.0
    else Gain(relevant, seqs[..|seqs| - 1], gain) + if IsRelevant(relevant, seqs[|seqs| - 1]) then gain(|seqs| - 1) else 0.0
  }

  /** The gain of a perfect ranking of n. */
  function Ideal(n: nat, gain: Discount): real { if n == 0 then 0.0 else Ideal(n - 1, gain) + gain(n - 1) }

  predicate AllRelevant(relevant: set<int>, seqs: seq<int>, n: nat) {
    n <= |seqs| && forall i :: 0 <= i < n ==> IsRelevant(relevant, seqs[i])
  }

  /** The relevant ones could at best have come first: and the gain is that much only if they did. */
  lemma {:induction false} GainAtMostIdeal(relevant: set<int>, seqs: seq<int>, gain: Discount)
    requires IsDiscount(gain)
    ensures var c := Found(relevant, seqs);
      && c <= |seqs| && 0.0 <= Gain(relevant, seqs, gain) <= Ideal(c, gain)
      && (Gain(relevant, seqs, gain) == Ideal(c, gain) <==> AllRelevant(relevant, seqs, c))
  {
    if seqs != [] {
      var n := |seqs| - 1;
      var c := Found(relevant, seqs[..n]);
      GainAtMostIdeal(relevant, seqs[..n], gain);
      LastCounts(relevant, seqs, c);
      assert c < n ==> gain(c) > gain(n);
      assert Ideal(c + 1, gain) == Ideal(c, gain) + gain(c);
      assert gain(n) > 0.0;
      hide AllRelevant, IsRelevant;
    }
  }

  /** What the last episode adds to the count, and to a run of relevant ones. */
  lemma LastCounts(relevant: set<int>, seqs: seq<int>, c: nat)
    requires seqs != [] && c == Found(relevant, seqs[..|seqs| - 1]) && c <= |seqs| - 1
    ensures IsRelevant(relevant, seqs[|seqs| - 1]) ==>
      (AllRelevant(relevant, seqs, c + 1) <==> AllRelevant(relevant, seqs[..|seqs| - 1], c) && c == |seqs| - 1)
    ensures !IsRelevant(relevant, seqs[|seqs| - 1]) ==>
      (AllRelevant(relevant, seqs, c) <==> AllRelevant(relevant, seqs[..|seqs| - 1], c))
  {
    var n := |seqs| - 1;
    if c < n && AllRelevant(relevant, seqs[..n], c + 1) { AllFound(relevant, seqs[..n], c + 1); }
    hide Found;
    assert c < n ==> (AllRelevant(relevant, seqs, c + 1) <==> AllRelevant(relevant, seqs[..n], c + 1));
    assert AllRelevant(relevant, seqs, c) <==> AllRelevant(relevant, seqs[..n], c);
  }

  lemma {:induction false} AllFound(relevant: set<int>, seqs: seq<int>, m: nat)
    requires AllRelevant(relevant, seqs, m)
    ensures Found(relevant, seqs) >= m
  {
    if seqs != [] {
      var n := |seqs| - 1;
      AllFound(relevant, seqs[..n], if m <= n then m else n);
    }
  }

  lemma {:induction false} IdealGrows(m: nat, n: nat, gain: Discount)
    requires IsDiscount(gain) && m <= n
    ensures 0.0 <= Ideal(m, gain) <= Ideal(n, gain) && (m < n ==> Ideal(m, gain) < Ideal(n, gain))
    ensures n > 0 ==> Ideal(n, gain) > 0.0
    decreases n
  {
    if m < n { IdealGrows(m, n - 1, gain); } else if n > 0 { IdealGrows(n - 1, n - 1, gain); }
  }

  predicate Distinct(seqs: seq<int>) { forall i, j :: 0 <= i < j < |seqs| ==> seqs[i] != seqs[j] }

  /** Distinct episodes cannot be relevant more often than there are relevant indexes. */
  lemma {:induction false} FoundAtMostRelevant(relevant: set<int>, seqs: seq<int>) returns (hits: set<int>)
    requires Distinct(seqs)
    ensures hits <= relevant && |hits| == Found(relevant, seqs)
    ensures forall x :: x in hits ==> x + 1 in seqs
    ensures Found(relevant, seqs) <= |relevant|
  {
    hits := {};
    if seqs != [] {
      var n := |seqs| - 1;
      hits := FoundAtMostRelevant(relevant, seqs[..n]);
      if IsRelevant(relevant, seqs[n]) {
        assert seqs[n] !in seqs[..n];
        hits := hits + {seqs[n] - 1};
      }
    }
    Sets.SubsetSize(hits, relevant);
  }

  method IdealGain(n: nat, gain: Discount) returns (ideal: real)
    ensures ideal == Ideal(n, gain)
  {
    ideal := 0.0;
    for i := 0 to n
      invariant ideal == Ideal(i, gain)
    {
      ideal := ideal + gain(i);
    }
  }

  lemma Ratio(a: real, b: real)
    requires 0.0 <= a <= b && b > 0.0
    ensures 0.0 <= a / b <= 1.0 && (a / b == 1.0 <==> a == b) && (a / b) * b == a
  {
    assert (a / b) * b == a;
  }

  predicate IsRatio(ratio: real, total: real, ideal: real) { ratio * ideal == total }

  method Normalised(total: real, ideal: real) returns (ndcg: real)
    requires 0.0 <= total <= ideal
    ensures 0.0 <= ndcg <= 1.0 && (ideal > 0.0 ==> IsRatio(ndcg, total, ideal) && (ndcg == 1.0 <==> total == ideal))
  {
    if ideal > 0.0 {
      Ratio(total, ideal);
      return total / ideal;
    }
    return 0.0;
  }

  /** `seqs` are the sequence numbers returned, best first. */
  method Grade(labels: seq<int>, seqs: seq<int>, limit: nat, gain: Discount) returns (r: Score)
    requires IsDiscount(gain) && labels != [] && Distinct(seqs) && 1 <= limit && |seqs| <= limit
    ensures var relevant := set l | l in labels;
      var best := if |relevant| < limit then |relevant| else limit;
      && r.relevant == |relevant| > 0 && r.returned == |seqs|
      && (r.hit <==> exists i :: 0 <= i < |seqs| && IsRelevant(relevant, seqs[i]))
      && (!r.hit ==> r.reciprocalRank == 0.0)
      && (forall i: nat :: AllMissed(relevant, seqs, i) && i < |seqs| && IsRelevant(relevant, seqs[i]) ==> r.reciprocalRank == 1.0 / (i + 1) as real)
      && 0.0 <= r.recall <= 1.0 && r.recall == Found(relevant, seqs) as real / |relevant| as real
      && 0.0 <= r.ndcg <= 1.0 && IsRatio(r.ndcg, Gain(relevant, seqs, gain), Ideal(best, gain))
      && (r.ndcg == 1.0 <==> AllRelevant(relevant, seqs, best))
  {
    var relevant := set l | l in labels;
    assert labels[0] in relevant;
    var hit, reciprocal, total, found := Walk(relevant, seqs, gain);
    hide Gain, Found, Ideal, AllRelevant, IsDiscount, Distinct, IsRatio;
    ghost var hits := FoundAtMostRelevant(relevant, seqs);
    Ratio(found as real, |relevant| as real);
    var best := if |relevant| < limit then |relevant| else limit;
    var ideal := IdealGain(best, gain);
    BestIsIdeal(relevant, seqs, limit, gain);
    IdealGrows(best, best, gain);
    var ndcg := Normalised(total, ideal);
    r := Score(|relevant|, |seqs|, hit, reciprocal, found as real / |relevant| as real, ndcg);
  }

  /** One pass over the ranking. */
  method Walk(relevant: set<int>, seqs: seq<int>, gain: Discount) returns (hit: bool, reciprocal: real, total: real, found: nat)
    ensures hit <==> exists i :: 0 <= i < |seqs| && IsRelevant(relevant, seqs[i])
    ensures !hit ==> reciprocal == 0.0
    ensures forall i: nat :: AllMissed(relevant, seqs, i) && i < |seqs| && IsRelevant(relevant, seqs[i]) ==> reciprocal == 1.0 / (i + 1) as real
    ensures total == Gain(relevant, seqs, gain) && found == Found(relevant, seqs)
  {
    hit, reciprocal, total, found := false, 0.0, 0.0, 0;
    for rank := 0 to |seqs|
      invariant total == Gain(relevant, seqs[..rank], gain) && found == Found(relevant, seqs[..rank])
      invariant !hit <==> AllMissed(relevant, seqs, rank)
      invariant !hit ==> reciprocal == 0.0
      invariant forall i: nat :: AllMissed(relevant, seqs, i) && i < rank && IsRelevant(relevant, seqs[i]) ==> reciprocal == 1.0 / (i + 1) as real
    {
      assert seqs[..rank + 1][..rank] == seqs[..rank];
      if !IsRelevant(relevant, seqs[rank]) { continue; }
      found := found + 1;
      if !hit {
        hit := true;
        reciprocal := 1.0 / (rank + 1) as real;
      }
      total := total + gain(rank);
    }
    assert seqs[..|seqs|] == seqs;
  }

  /** Nothing relevant among the first n. */
  predicate AllMissed(relevant: set<int>, seqs: seq<int>, n: nat) {
    n <= |seqs| && forall i :: 0 <= i < n ==> !IsRelevant(relevant, seqs[i])
  }

  /** The gain reaches the normaliser exactly when as many as could be relevant come first. */
  lemma BestIsIdeal(relevant: set<int>, seqs: seq<int>, limit: nat, gain: Discount)
    requires IsDiscount(gain) && Distinct(seqs) && |seqs| <= limit
    ensures var best := if |relevant| < limit then |relevant| else limit;
      && 0.0 <= Gain(relevant, seqs, gain) <= Ideal(best, gain)
      && (Gain(relevant, seqs, gain) == Ideal(best, gain) <==> AllRelevant(relevant, seqs, best))
  {
    var best := if |relevant| < limit then |relevant| else limit;
    var hits := FoundAtMostRelevant(relevant, seqs);
    var c := Found(relevant, seqs);
    GainAtMostIdeal(relevant, seqs, gain);
    IdealGrows(c, best, gain);
    if AllRelevant(relevant, seqs, best) { AllFound(relevant, seqs, best); }
  }
}
