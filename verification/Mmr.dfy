/** Maximal marginal relevance reranking (rag/reranker/mmr.go).

    `sim` stands for cosineSimilarity; the results hold for every similarity function.  Scores
    are reals, and `weight` is the source's lambda. */
module Mmr {
  import opened Reals

  type Embedding = seq<real>
  type Similarity = (Embedding, Embedding) -> real

  datatype SearchHit = SearchHit(variant: string, embedding: Embedding, score: real)

  // ---- specification ----

  /** The largest similarity of `e` to a picked hit, but at least 0. */
  ghost function MaxSim(hits: seq<SearchHit>, picks: seq<nat>, e: Embedding, sim: Similarity): real
    requires forall k | 0 <= k < |picks| :: picks[k] < |hits|
  {
    if picks == [] then 0.0
    else
      var rest := MaxSim(hits, picks[..|picks| - 1], e, sim);
      var last := sim(e, hits[picks[|picks| - 1]].embedding);
      if last > rest then last else rest
  }

  /** Relevance against similarity to what was picked. */
  function Tradeoff(weight: real, score: real, maxSim: real): real {
    weight * score - (1.0 - weight) * maxSim
  }

  ghost function Value(hits: seq<SearchHit>, picks: seq<nat>, i: nat, weight: real, sim: Similarity): real
    requires forall k | 0 <= k < |picks| :: picks[k] < |hits|
    requires i < |hits|
  {
    Tradeoff(weight, hits[i].score, MaxSim(hits, picks, hits[i].embedding, sim))
  }

  /** `pick` is the first hit, among those not in `picks`, of largest value against `picks`. */
  ghost predicate IsBest(hits: seq<SearchHit>, picks: seq<nat>, pick: nat, weight: real, sim: Similarity)
    requires forall k | 0 <= k < |picks| :: picks[k] < |hits|
  {
    && pick < |hits| && pick !in picks
    && forall r | 0 <= r < |hits| && r !in picks ::
         var v, best := Value(hits, picks, r, weight, sim), Value(hits, picks, pick, weight, sim);
         v <= best && (r < pick ==> v < best)
  }

  ghost predicate InRange(picks: seq<nat>, n: nat) {
    forall k | 0 <= k < |picks| :: picks[k] < n
  }

  /** Every pick is the best choice given the picks before it. */
  ghost predicate Greedy(hits: seq<SearchHit>, picks: seq<nat>, weight: real, sim: Similarity) {
    && InRange(picks, |hits|)
    && forall k | 0 <= k < |picks| :: IsBest(hits, picks[..k], picks[k], weight, sim)
  }

  /** The picked hits, each carrying the value it was picked with as its score. */
  ghost function Reported(hits: seq<SearchHit>, picks: seq<nat>, weight: real, sim: Similarity): seq<SearchHit>
    requires InRange(picks, |hits|)
  {
    seq(|picks|, k requires 0 <= k < |picks| =>
      hits[picks[k]].(score := Value(hits, picks[..k], picks[k], weight, sim)))
  }

  /** The penalty is the largest similarity to a picked hit, or 0 when none is positive. */
  lemma {:induction false} MaxSimIsLargest(hits: seq<SearchHit>, picks: seq<nat>, e: Embedding, sim: Similarity)
    requires InRange(picks, |hits|)
    ensures var m := MaxSim(hits, picks, e, sim);
      && m >= 0.0 && (forall k | 0 <= k < |picks| :: sim(e, hits[picks[k]].embedding) <= m)
      && (m == 0.0 || exists k :: 0 <= k < |picks| && sim(e, hits[picks[k]].embedding) == m)
  {
    if picks != [] {
      var front := picks[..|picks| - 1];
      MaxSimIsLargest(hits, front, e, sim);
      var m := MaxSim(hits, front, e, sim);
      if m != 0.0 {
        var k :| 0 <= k < |front| && sim(e, hits[front[k]].embedding) == m;
        assert picks[k] == front[k];
      }
      assert forall k | 0 <= k < |front| :: front[k] == picks[k];
    }
  }

  lemma RelevanceOrders(weight: real, x: real, y: real, a: real)
    requires weight > 0.0
    ensures x < y <==> Tradeoff(weight, x, a) < Tradeoff(weight, y, a)
    ensures Tradeoff(weight, y, a) - Tradeoff(weight, x, a) == weight * (y - x)
  {
    ProductOrder(y, x, weight);
    var p, q, c := weight * x, weight * y, (1.0 - weight) * a;
    assert x * weight == p && y * weight == q;
    assert p < q <==> p - c < q - c;
  }

  lemma SimilarityOrders(weight: real, x: real, a: real, b: real)
    requires weight < 1.0
    ensures b < a <==> Tradeoff(weight, x, a) < Tradeoff(weight, x, b)
    ensures Tradeoff(weight, x, b) - Tradeoff(weight, x, a) == (1.0 - weight) * (a - b)
  {
    ProductOrder(a, b, 1.0 - weight);
    var p, q, c := (1.0 - weight) * a, (1.0 - weight) * b, weight * x;
    assert a * (1.0 - weight) == p && b * (1.0 - weight) == q;
    assert q < p <==> c - p < c - q;
  }

  /** Among hits equally similar to what was picked, relevance decides, by lambda; among equally relevant
      ones, the lower similarity does, by what lambda leaves of 1. */
  lemma ValueOrders(hits: seq<SearchHit>, picks: seq<nat>, i: nat, j: nat, weight: real, sim: Similarity)
    requires InRange(picks, |hits|) && i < |hits| && j < |hits|
    ensures var a, b := MaxSim(hits, picks, hits[i].embedding, sim), MaxSim(hits, picks, hits[j].embedding, sim);
      var v, w := Value(hits, picks, i, weight, sim), Value(hits, picks, j, weight, sim);
      && (weight > 0.0 && a == b ==>
            (hits[i].score < hits[j].score <==> v < w) && w - v == weight * (hits[j].score - hits[i].score))
      && (weight < 1.0 && hits[i].score == hits[j].score ==> (b < a <==> v < w) && w - v == (1.0 - weight) * (a - b))
  {
    var a, b := MaxSim(hits, picks, hits[i].embedding, sim), MaxSim(hits, picks, hits[j].embedding, sim);
    if weight > 0.0 {
      RelevanceOrders(weight, hits[i].score, hits[j].score, a);
    }
    if weight < 1.0 {
      SimilarityOrders(weight, hits[i].score, a, b);
    }
  }

  /** With a positive weight the first pick is a most relevant hit, reported with its weighted score. */
  lemma FirstPickIsMostRelevant(hits: seq<SearchHit>, picks: seq<nat>, weight: real, sim: Similarity)
    requires Greedy(hits, picks, weight, sim) && |picks| > 0
    ensures weight > 0.0 ==> forall r | 0 <= r < |hits| :: hits[r].score <= hits[picks[0]].score
    ensures Reported(hits, picks, weight, sim)[0].score == weight * hits[picks[0]].score
  {
    assert picks[..0] == [] && IsBest(hits, picks[..0], picks[0], weight, sim);
    assert (1.0 - weight) * 0.0 == 0.0;
    if weight > 0.0 {
      forall r | 0 <= r < |hits| ensures hits[r].score <= hits[picks[0]].score {
        assert Value(hits, [], r, weight, sim) <= Value(hits, [], picks[0], weight, sim);
        ValueOrders(hits, [], picks[0], r, weight, sim);
      }
    }
  }

  // ---- the loops ----

  /** Rerank.  Hits are rescored in place, and `remaining` is filtered in place.  A list of at
      most one hit comes back as it is. */
  method Rerank(weight: real, hits: array<SearchHit>, sim: Similarity)
    returns (selected: seq<SearchHit>, ghost picks: seq<nat>)
    modifies hits
    ensures hits.Length <= 1 ==> selected == hits[..] == old(hits[..])
    ensures hits.Length > 1 ==>
      && |picks| == hits.Length
      && Greedy(old(hits[..]), picks, weight, sim)
      && selected == Reported(old(hits[..]), picks, weight, sim)
  {
    picks := [];
    if hits.Length <= 1 {
      return hits[..], [];
    }
    ghost var orig := hits[..];
    selected := [];
    var remaining := new nat[hits.Length](i => i);
    var count := hits.Length;
    AllRemaining(remaining[..count]);
    while count > 0
      invariant 0 <= count <= hits.Length && |picks| == hits.Length - count
      invariant Greedy(orig, picks, weight, sim)
      invariant selected == Reported(orig, picks, weight, sim)
      invariant forall i | 0 <= i < hits.Length && i !in picks :: hits[i] == orig[i]
      invariant forall i | 0 <= i < hits.Length :: hits[i].embedding == orig[i].embedding
      invariant IsRemaining(remaining[..count], picks, hits.Length)
    {
      var bestIdx, bestMmr := PickBest(hits, remaining, count, selected, weight, sim, orig, picks);
      hits[bestIdx] := hits[bestIdx].(score := bestMmr);
      ReportedAppend(orig, picks, bestIdx, weight, sim);
      selected := selected + [hits[bestIdx]];
      count := RemoveBest(remaining, count, bestIdx, picks, hits.Length);
      picks := picks + [bestIdx];
    }
  }

  /** `remaining` lists, in increasing order, exactly the indices not yet picked. */
  ghost predicate IsRemaining(remaining: seq<nat>, picks: seq<nat>, n: nat) {
    && InRange(remaining, n)
    && (forall i: nat :: i in remaining <==> i < n && i !in picks)
    && (forall j, k | 0 <= j < k < |remaining| :: remaining[j] < remaining[k])
  }

  /** The scan for the best remaining hit; `Unset` models the initial minus infinity. */
  datatype Best = Unset | Best(index: nat, value: real)

  /** `best` is the first of `seen` of largest value; nothing when nothing was seen. */
  ghost predicate BestOf(best: Best, seen: seq<nat>, hits: seq<SearchHit>, picks: seq<nat>,
                         weight: real, sim: Similarity)
    requires InRange(picks, |hits|) && InRange(seen, |hits|)
  {
    if seen == [] then best.Unset?
    else
      && best.Best? && best.index in seen
      && best.value == Value(hits, picks, best.index, weight, sim)
      && forall k | 0 <= k < |seen| ::
           && Value(hits, picks, seen[k], weight, sim) <= best.value
           && (seen[k] < best.index ==> Value(hits, picks, seen[k], weight, sim) < best.value)
  }

  function Better(best: Best, ri: nat, mmr: real): Best {
    if best.Unset? || mmr > best.value then Best(ri, mmr) else best
  }

  lemma BestStep(best: Best, rest: seq<nat>, k: nat, hits: seq<SearchHit>, picks: seq<nat>,
                 weight: real, sim: Similarity)
    requires InRange(picks, |hits|) && IsRemaining(rest, picks, |hits|) && k < |rest|
    requires BestOf(best, rest[..k], hits, picks, weight, sim)
    ensures BestOf(Better(best, rest[k], Value(hits, picks, rest[k], weight, sim)), rest[..k + 1],
                   hits, picks, weight, sim)
  {
    assert rest[..k + 1] == rest[..k] + [rest[k]];
  }

  method PickBest(hits: array<SearchHit>, remaining: array<nat>, count: nat, selected: seq<SearchHit>,
                  weight: real, sim: Similarity, ghost orig: seq<SearchHit>, ghost picks: seq<nat>)
    returns (bestIdx: nat, bestMmr: real)
    requires 0 < count <= remaining.Length && |orig| == hits.Length
    requires InRange(picks, |orig|) && |selected| == |picks|
    requires forall k | 0 <= k < |picks| :: selected[k].embedding == orig[picks[k]].embedding
    requires forall i | 0 <= i < hits.Length && i !in picks :: hits[i] == orig[i]
    requires IsRemaining(remaining[..count], picks, hits.Length)
    ensures IsBest(orig, picks, bestIdx, weight, sim)
    ensures bestMmr == Value(orig, picks, bestIdx, weight, sim)
  {
    var best := Unset;
    ghost var rest := remaining[..count];
    for k := 0 to count
      invariant BestOf(best, rest[..k], orig, picks, weight, sim)
    {
      var ri := remaining[k];
      assert rest[k] == ri && ri in rest;
      var maxSim := Penalty(hits[ri].embedding, selected, sim, orig, picks);
      var mmr := Tradeoff(weight, hits[ri].score, maxSim);
      assert mmr == Value(orig, picks, ri, weight, sim);
      BestStep(best, rest, k, orig, picks, weight, sim);
      best := Better(best, ri, mmr);
    }
    assert rest[..count] == rest;
    BestOfAll(best, rest, orig, picks, weight, sim);
    return best.index, best.value;
  }

  lemma BestOfAll(best: Best, rest: seq<nat>, hits: seq<SearchHit>, picks: seq<nat>, weight: real, sim: Similarity)
    requires InRange(picks, |hits|) && IsRemaining(rest, picks, |hits|) && |rest| > 0
    requires BestOf(best, rest, hits, picks, weight, sim)
    ensures IsBest(hits, picks, best.index, weight, sim)
  {
    forall r: nat | r < |hits| && r !in picks
      ensures Value(hits, picks, r, weight, sim) <= best.value
      ensures r < best.index ==> Value(hits, picks, r, weight, sim) < best.value
    {
      assert r in rest;
    }
  }

  /** The scan over the hits already selected. */
  method Penalty(e: Embedding, selected: seq<SearchHit>, sim: Similarity,
                 ghost orig: seq<SearchHit>, ghost picks: seq<nat>)
    returns (maxSim: real)
    requires InRange(picks, |orig|) && |selected| == |picks|
    requires forall k | 0 <= k < |picks| :: selected[k].embedding == orig[picks[k]].embedding
    ensures maxSim == MaxSim(orig, picks, e, sim)
  {
    maxSim := 0.0;
    for s := 0 to |selected|
      invariant maxSim == MaxSim(orig, picks[..s], e, sim)
    {
      assert picks[..s + 1][..s] == picks[..s];
      var similarity := sim(e, selected[s].embedding);
      if similarity > maxSim {
        maxSim := similarity;
      }
    }
    assert picks[..|selected|] == picks;
  }

  lemma AllRemaining(remaining: seq<nat>)
    requires forall i | 0 <= i < |remaining| :: remaining[i] == i
    ensures IsRemaining(remaining, [], |remaining|)
  {
    forall i: nat ensures i in remaining <==> i < |remaining| {
      if i < |remaining| {
        assert remaining[i] in remaining;
      }
    }
  }

  method RemoveBest(remaining: array<nat>, count: nat, bestIdx: nat, ghost picks: seq<nat>, ghost n: nat)
    returns (kept: nat)
    requires count <= remaining.Length
    requires IsRemaining(remaining[..count], picks, n) && bestIdx in remaining[..count]
    modifies remaining
    ensures kept == count - 1
    ensures IsRemaining(remaining[..kept], picks + [bestIdx], n)
  {
    ghost var was := remaining[..count];
    ghost var p := PositionOf(was, bestIdx);
    RemainingDrop(was, p, picks, n);
    assert was[p + 1..] == remaining[p + 1..count];
    kept := DropInPlace(remaining, count, bestIdx, p);
  }

  /** Filters `bestIdx` out of `remaining[..count]`, writing over the part already read;
      `p` is where it stands. */
  method DropInPlace(remaining: array<nat>, count: nat, bestIdx: nat, ghost p: nat) returns (kept: nat)
    requires p < count <= remaining.Length
    requires forall j | 0 <= j < count :: remaining[j] == bestIdx <==> j == p
    modifies remaining
    ensures kept == count - 1
    ensures remaining[..kept] == old(remaining[..p]) + old(remaining[p + 1..count])
  {
    kept := 0;
    ghost var was := remaining[..];
    for k := 0 to count
      invariant kept == if k <= p then k else k - 1
      invariant forall j | k <= j < count :: remaining[j] == old(remaining[j])
      invariant forall j | 0 <= j < kept && j < p :: remaining[j] == old(remaining[j])
      invariant forall j | p < j <= kept :: remaining[j - 1] == old(remaining[j])
    {
      var ri := remaining[k];
      if ri != bestIdx {
        remaining[kept] := ri;
        kept := kept + 1;
      }
    }
    forall j | 0 <= j < kept ensures remaining[j] == (was[..p] + was[p + 1..count])[j] {
      if j >= p {
        assert remaining[j + 1 - 1] == was[j + 1];
      }
    }
  }

  ghost function PositionOf(s: seq<nat>, x: nat): (p: nat)
    requires x in s
    ensures p < |s| && s[p] == x
  {
    var p :| 0 <= p < |s| && s[p] == x;
    p
  }

  lemma RemainingDrop(was: seq<nat>, p: nat, picks: seq<nat>, n: nat)
    requires IsRemaining(was, picks, n) && p < |was| 
    ensures IsRemaining(was[..p] + was[p + 1..], picks + [was[p]], n)
  {
    var now := was[..p] + was[p + 1..];
    forall i ensures i in now <==> i in was && i != was[p] {
      if i in was && i != was[p] {
        var j :| 0 <= j < |was| && was[j] == i;
        if j > p {
          assert now[j - 1] == i;
        }
      }
    }
  }

  lemma ReportedAppend(hits: seq<SearchHit>, picks: seq<nat>, pick: nat, weight: real, sim: Similarity)
    requires Greedy(hits, picks, weight, sim) && IsBest(hits, picks, pick, weight, sim)
    ensures Greedy(hits, picks + [pick], weight, sim)
    ensures Reported(hits, picks + [pick], weight, sim)
         == Reported(hits, picks, weight, sim)
          + [hits[pick].(score := Value(hits, picks, pick, weight, sim))]
  {
    var all := picks + [pick];
    assert all[..|picks|] == picks;
    forall k | 0 <= k < |picks| ensures all[..k] == picks[..k] {
    }
  }

  // ---- what the output is ----

  /** The picks are all different, so the output is a rearrangement of the hits. */
  lemma GreedyDistinct(hits: seq<SearchHit>, picks: seq<nat>, weight: real, sim: Similarity, j: nat, k: nat)
    requires Greedy(hits, picks, weight, sim) && j < k < |picks|
    ensures picks[j] != picks[k]
  {
    assert picks[k] !in picks[..k];
    assert picks[..k][j] == picks[j];
  }

  /** Rerank loses and duplicates nothing: but for scores, the output is a permutation. */
  lemma OutputIsPermutation(hits: seq<SearchHit>, picks: seq<nat>, weight: real, sim: Similarity)
    requires Greedy(hits, picks, weight, sim) && |picks| == |hits|
    ensures multiset(Unscored(Reported(hits, picks, weight, sim))) == multiset(Unscored(hits))
  {
    var plain := Unscored(hits);
    forall j, k | 0 <= j < k < |picks| ensures picks[j] != picks[k] {
      GreedyDistinct(hits, picks, weight, sim, j, k);
    }
    PickAll(plain, picks);
    assert Unscored(Reported(hits, picks, weight, sim)) == Picked(plain, picks);
  }

  ghost function Unscored(hits: seq<SearchHit>): seq<(string, Embedding)> {
    seq(|hits|, i requires 0 <= i < |hits| => (hits[i].variant, hits[i].embedding))
  }

  ghost function Picked<T>(s: seq<T>, picks: seq<nat>): seq<T>
    requires InRange(picks, |s|)
  {
    seq(|picks|, i requires 0 <= i < |picks| => s[picks[i]])
  }

  /** Reading every position once, in any order, gives the same multiset. */
  lemma {:induction false} PickAll<T>(s: seq<T>, picks: seq<nat>)
    requires |picks| == |s| && InRange(picks, |s|)
    requires forall j, k | 0 <= j < k < |picks| :: picks[j] != picks[k]
    ensures multiset(Picked(s, picks)) == multiset(s)
    decreases |s|
  {
    if s == [] {
      assert Picked(s, picks) == [];
    } else {
      var n := |picks| - 1;
      var p := picks[n];
      var t := s[..p] + s[p + 1..];
      var q := seq(n, i requires 0 <= i < n => if picks[i] < p then picks[i] else picks[i] - 1);
      PickAll(t, q);
      assert Picked(s, picks) == Picked(t, q) + [s[p]];
      assert s == s[..p] + [s[p]] + s[p + 1..];
    }
  }

  /** More picks never lower the similarity penalty. */
  lemma MaxSimGrows(hits: seq<SearchHit>, picks: seq<nat>, pick: nat, e: Embedding, sim: Similarity)
    requires InRange(picks + [pick], |hits|)
    ensures InRange(picks, |hits|)
    ensures MaxSim(hits, picks, e, sim) <= MaxSim(hits, picks + [pick], e, sim)
  {
    var all := picks + [pick];
    assert all[..|all| - 1] == picks;
    forall k | 0 <= k < |picks| ensures picks[k] < |hits| {
      assert all[k] == picks[k];
    }
  }

  lemma ValueShrinks(hits: seq<SearchHit>, picks: seq<nat>, pick: nat, i: nat, weight: real, sim: Similarity)
    requires InRange(picks + [pick], |hits|) && i < |hits| && weight <= 1.0
    ensures InRange(picks, |hits|)
    ensures Value(hits, picks + [pick], i, weight, sim) <= Value(hits, picks, i, weight, sim)
  {
    MaxSimGrows(hits, picks, pick, hits[i].embedding, sim);
    var before := MaxSim(hits, picks, hits[i].embedding, sim);
    var after := MaxSim(hits, picks + [pick], hits[i].embedding, sim);
    assert (1.0 - weight) * (after - before) >= 0.0;
  }

  ghost predicate NonIncreasing(hits: seq<SearchHit>) {
    forall k | 0 < k < |hits| :: hits[k].score <= hits[k - 1].score
  }

  lemma ScoresNonIncreasing(hits: seq<SearchHit>, picks: seq<nat>, weight: real, sim: Similarity)
    requires Greedy(hits, picks, weight, sim) && weight <= 1.0
    ensures NonIncreasing(Reported(hits, picks, weight, sim))
  {
    forall k | 0 < k < |picks|
      ensures Value(hits, picks[..k], picks[k], weight, sim) <= Value(hits, picks[..k - 1], picks[k - 1], weight, sim)
    {
      assert picks[..k] == picks[..k - 1] + [picks[k - 1]];
      assert IsBest(hits, picks[..k], picks[k], weight, sim) && IsBest(hits, picks[..k - 1], picks[k - 1], weight, sim);
      ValueShrinks(hits, picks[..k - 1], picks[k - 1], picks[k], weight, sim);
    }
  }

  /** Scores come out sorted for every input exactly when lambda is at most 1; for any similarity by
      which some embedding is similar to itself, as by cosine similarity every nonzero one is. */
  lemma SortedIffLambdaAtMostOne(weight: real, sim: Similarity, e: Embedding)
    requires sim(e, e) > 0.0
    ensures weight <= 1.0
       <==> forall hits, picks :: Greedy(hits, picks, weight, sim) ==> NonIncreasing(Reported(hits, picks, weight, sim))
  {
    if weight <= 1.0 {
      forall hits, picks | Greedy(hits, picks, weight, sim) ensures NonIncreasing(Reported(hits, picks, weight, sim)) {
        ScoresNonIncreasing(hits, picks, weight, sim);
      }
    } else {
      TwinsRise(weight, sim, e);
    }
  }

  /** The input: two hits with the same embedding and score zero. */
  lemma TwinsRise(weight: real, sim: Similarity, e: Embedding)
    requires sim(e, e) > 0.0 && weight > 1.0
    ensures var hits := [SearchHit("v", e, 0.0), SearchHit("w", e, 0.0)];
      Greedy(hits, [0, 1], weight, sim) && !NonIncreasing(Reported(hits, [0, 1], weight, sim))
  {
    var hits, picks: seq<nat> := [SearchHit("v", e, 0.0), SearchHit("w", e, 0.0)], [0, 1];
    assert picks[..0] == [] && picks[..1] == [0] && picks[..1][..0] == [];
    assert MaxSim(hits, picks[..1], e, sim) == sim(e, e);
    ZeroScore(weight, 0.0, 0.0);
    ZeroScore(weight, 0.0, sim(e, e));
    assert Value(hits, picks[..0], 0, weight, sim) == Value(hits, picks[..0], 1, weight, sim) == 0.0;
    assert Value(hits, picks[..1], 1, weight, sim) > 0.0;
    assert IsBest(hits, picks[..0], 0, weight, sim) && IsBest(hits, picks[..1], 1, weight, sim);
    var out := Reported(hits, picks, weight, sim);
    assert out[1].score > out[1 - 1].score;
  }

  lemma ZeroScore(weight: real, score: real, x: real)
    requires score == 0.0 && x >= 0.0
    ensures Tradeoff(weight, score, x) == (weight - 1.0) * x
    ensures weight > 1.0 && x > 0.0 ==> Tradeoff(weight, score, x) > 0.0
  {
    assert weight * score == 0.0;
    assert (1.0 - weight) * x == 0.0 - (weight - 1.0) * x;
  }

  /** The greedy order is determined by the hits: any two agree. */
  lemma {:induction false} GreedyUnique(hits: seq<SearchHit>, p: seq<nat>, q: seq<nat>, weight: real, sim: Similarity)
    requires Greedy(hits, p, weight, sim) && Greedy(hits, q, weight, sim) && |p| == |q|
    ensures p == q
    decreases |p|
  {
    if |p| > 0 {
      var n := |p| - 1;
      GreedyPrefix(hits, p, n, weight, sim);
      GreedyPrefix(hits, q, n, weight, sim);
      GreedyUnique(hits, p[..n], q[..n], weight, sim);
      assert IsBest(hits, p[..n], p[n], weight, sim) && IsBest(hits, q[..n], q[n], weight, sim);
      assert p == p[..n] + [p[n]] && q == q[..n] + [q[n]];
    }
  }

  lemma GreedyPrefix(hits: seq<SearchHit>, p: seq<nat>, n: nat, weight: real, sim: Similarity)
    requires Greedy(hits, p, weight, sim) && n <= |p|
    ensures Greedy(hits, p[..n], weight, sim)
  {
    forall k | 0 <= k < n ensures IsBest(hits, p[..n][..k], p[..n][k], weight, sim) {
      assert p[..n][..k] == p[..k];
      assert IsBest(hits, p[..k], p[k], weight, sim);
    }
  }
}
