/** Text comparison metrics (eval/textquality.go).

    Both longest-common-subsequence loops of the source are the same code over bytes and over
    tokens; they are one generic method here.  Scores are reals. */
module TextQuality {
  import opened Sequences
  import opened Reals

  /** `f` lists, in increasing order, positions of `a` that spell `s`. */
  ghost predicate Embeds<T>(f: seq<int>, s: seq<T>, a: seq<T>) {
    && |f| == |s|
    && (forall i | 0 <= i < |f| :: 0 <= f[i] < |a| && a[f[i]] == s[i])
    && (forall i, j | 0 <= i < j < |f| :: f[i] < f[j])
  }

  ghost predicate Subsequence<T>(s: seq<T>, a: seq<T>) {
    exists f :: Embeds(f, s, a)
  }

  ghost predicate Common<T>(s: seq<T>, a: seq<T>, b: seq<T>) {
    Subsequence(s, a) && Subsequence(s, b)
  }

  /** `n` is the length of a common subsequence, and none is longer. */
  ghost predicate IsLongestCommon<T(!new)>(a: seq<T>, b: seq<T>, n: int) {
    && (exists s :: Common(s, a, b) && |s| == n)
    && (forall s :: Common(s, a, b) ==> |s| <= n)
  }

  /** The recurrence the rows tabulate. */
  function Lcs<T(==)>(a: seq<T>, b: seq<T>): nat
    decreases |a| + |b|
  {
    if |a| == 0 || |b| == 0 then 0
    else if Last(a) == Last(b) then Lcs(DropLast(a), DropLast(b)) + 1
    else
      var skipA, skipB := Lcs(DropLast(a), b), Lcs(a, DropLast(b));
      if skipA > skipB then skipA else skipB
  }

  // ---- the loop ----

  ghost predicate IsRow<T>(row: array<int>, a: seq<T>, b: seq<T>)
    requires row.Length == |b| + 1
    reads row
  {
    forall k | 0 <= k <= |b| :: row[k] == Lcs(a, b[..k])
  }

  /** lcsLength and lcsLengthTokens: two rows, swapped and then zeroed. */
  method LcsLength<T(==, !new)>(a: seq<T>, b: seq<T>) returns (n: int)
    ensures n == Lcs(a, b)
    ensures IsLongestCommon(a, b, n)
  {
    LcsIsLongest(a, b);
    var prev, curr := new int[|b| + 1](_ => 0), new int[|b| + 1](_ => 0);
    for i := 1 to |a| + 1
      invariant prev != curr && prev.Length == curr.Length == |b| + 1
      invariant fresh(prev) && fresh(curr)
      invariant IsRow(prev, a[..i - 1], b)
      invariant forall k | 0 <= k <= |b| :: curr[k] == 0
    {
      FillRow(a, b, i, prev, curr);
      prev, curr := curr, prev;
      Zero(curr);
    }
    assert a[..|a|] == a && b[..|b|] == b;
    return prev[|b|];
  }

  method Zero(row: array<int>)
    modifies row
    ensures forall k | 0 <= k < row.Length :: row[k] == 0
  {
    for k := 0 to row.Length
      invariant forall m | 0 <= m < k :: row[m] == 0
    {
      row[k] := 0;
    }
  }

  /** The inner loop: row `i` from row `i - 1`. */
  method FillRow<T(==)>(a: seq<T>, b: seq<T>, i: nat, prev: array<int>, curr: array<int>)
    requires 0 < i <= |a|
    requires prev != curr && prev.Length == curr.Length == |b| + 1
    requires IsRow(prev, a[..i - 1], b)
    requires curr[0] == 0
    modifies curr
    ensures IsRow(curr, a[..i], b)
  {
    for j := 1 to |b| + 1
      invariant forall k | 0 <= k < j :: curr[k] == Lcs(a[..i], b[..k])
    {
      ghost var p, q := a[..i], b[..j];
      assert DropLast(p) == a[..i - 1] && DropLast(q) == b[..j - 1];
      if a[i - 1] == b[j - 1] {
        curr[j] := prev[j - 1] + 1;
      } else if prev[j] > curr[j - 1] {
        curr[j] := prev[j];
      } else {
        curr[j] := curr[j - 1];
      }
      assert curr[j] == Lcs(p, q);
    }
  }

  // ---- the recurrence is the longest common subsequence ----

  /** An embedding that does not use the last position of `a` is one into the rest of `a`. */
  lemma EmbedsInit<T>(f: seq<int>, s: seq<T>, a: seq<T>)
    requires Embeds(f, s, a) && |a| > 0
    ensures |f| == 0 || Last(f) < |a| - 1 ==> Embeds(f, s, DropLast(a))
    ensures |f| > 0 ==> Embeds(DropLast(f), DropLast(s), DropLast(a))
  {
    if |f| > 0 {
      assert forall i | 0 <= i < |f| - 1 :: f[i] < Last(f);
    }
  }

  lemma {:induction false} CommonAtMostLcs<T>(s: seq<T>, f: seq<int>, g: seq<int>, a: seq<T>, b: seq<T>)
    requires Embeds(f, s, a) && Embeds(g, s, b)
    ensures |s| <= Lcs(a, b)
    decreases |a| + |b|
  {
    if |s| > 0 {
      assert 0 <= f[0] < |a| && 0 <= g[0] < |b|;
      EmbedsInit(f, s, a);
      EmbedsInit(g, s, b);
      if Last(a) == Last(b) {
        CommonAtMostLcs(DropLast(s), DropLast(f), DropLast(g), DropLast(a), DropLast(b));
      } else if Last(f) < |a| - 1 {
        CommonAtMostLcs(s, f, g, DropLast(a), b);
      } else {
        assert Last(g) < |b| - 1;
        CommonAtMostLcs(s, f, g, a, DropLast(b));
      }
    }
  }

  lemma {:induction false} CommonOfLcs<T>(a: seq<T>, b: seq<T>) returns (s: seq<T>, f: seq<int>, g: seq<int>)
    ensures Embeds(f, s, a) && Embeds(g, s, b) && |s| == Lcs(a, b)
    decreases |a| + |b|
  {
    if |a| == 0 || |b| == 0 {
      s, f, g := [], [], [];
    } else if Last(a) == Last(b) {
      s, f, g := CommonOfLcs(DropLast(a), DropLast(b));
      s, f, g := s + [Last(a)], f + [|a| - 1], g + [|b| - 1];
    } else if Lcs(DropLast(a), b) > Lcs(a, DropLast(b)) {
      s, f, g := CommonOfLcs(DropLast(a), b);
    } else {
      s, f, g := CommonOfLcs(a, DropLast(b));
    }
  }

  lemma LcsIsLongest<T(!new)>(a: seq<T>, b: seq<T>)
    ensures IsLongestCommon(a, b, Lcs(a, b))
  {
    var s, f, g := CommonOfLcs(a, b);
    assert Common(s, a, b);
    forall s | Common(s, a, b) ensures |s| <= Lcs(a, b) {
      var f :| Embeds(f, s, a);
      var g :| Embeds(g, s, b);
      CommonAtMostLcs(s, f, g, a, b);
    }
  }

  lemma LcsSymmetric<T>(a: seq<T>, b: seq<T>)
    ensures Lcs(a, b) == Lcs(b, a)
  {
    var s, f, g := CommonOfLcs(a, b);
    CommonAtMostLcs(s, g, f, b, a);
    s, f, g := CommonOfLcs(b, a);
    CommonAtMostLcs(s, g, f, a, b);
  }

  /** An increasing sequence of positions leaves room on both sides. */
  lemma {:induction false} RoomBefore(f: seq<int>, i: nat)
    requires i < |f| && f[0] >= 0 && forall j, k | 0 <= j < k < |f| :: f[j] < f[k]
    ensures i <= f[i]
  {
    if i > 0 {
      RoomBefore(f, i - 1);
    }
  }

  lemma {:induction false} RoomBehind(f: seq<int>, i: nat, n: nat)
    requires i < |f| && f[|f| - 1] < n && forall j, k | 0 <= j < k < |f| :: f[j] < f[k]
    ensures |f| - i <= n - f[i]
    decreases |f| - i
  {
    if i < |f| - 1 {
      RoomBehind(f, i + 1, n);
    }
  }

  /** A subsequence is no longer than the sequence, and as long only if it is the sequence. */
  lemma EmbedsLength<T>(f: seq<int>, s: seq<T>, a: seq<T>)
    requires Embeds(f, s, a)
    ensures |s| <= |a|
    ensures |s| == |a| ==> s == a
  {
    forall i: nat | i < |s| ensures |s| - i <= |a| - f[i] && i <= f[i] {
      RoomBefore(f, i);
      RoomBehind(f, i, |a|);
    }
    if |s| > 0 {
      RoomBehind(f, 0, |a|);
    }
  }

  lemma LcsBounds<T>(a: seq<T>, b: seq<T>)
    ensures Lcs(a, b) <= |a| && Lcs(a, b) <= |b|
    ensures Lcs(a, b) == |a| == |b| <==> a == b
  {
    var s, f, g := CommonOfLcs(a, b);
    EmbedsLength(f, s, a);
    EmbedsLength(g, s, b);
    if a == b {
      var id := seq(|a|, i => i);
      CommonAtMostLcs(a, id, id, a, a);
    }
  }

  /** A subsequence uses each element at most as often as the sequence has it. */
  lemma {:induction false} EmbedsMultiset<T>(f: seq<int>, s: seq<T>, a: seq<T>)
    requires Embeds(f, s, a)
    ensures multiset(s) <= multiset(a)
    decreases |a|
  {
    if |s| > 0 {
      assert 0 <= f[0] < |a|;
      EmbedsInit(f, s, a);
      assert a == DropLast(a) + [Last(a)] && s == DropLast(s) + [Last(s)];
      if Last(f) < |a| - 1 {
        EmbedsMultiset(f, s, DropLast(a));
      } else {
        EmbedsMultiset(DropLast(f), DropLast(s), DropLast(a));
      }
    }
  }

  lemma {:induction false} MultisetCardinality<T>(x: multiset<T>, y: multiset<T>)
    requires x <= y
    ensures |x| <= |y|
  {
    assert y == x + (y - x);
  }

  /** The longest common subsequence is bounded by the multiset overlap. */
  lemma LcsAtMostOverlap<T>(a: seq<T>, b: seq<T>)
    ensures Lcs(a, b) <= |multiset(a) * multiset(b)|
  {
    var s, f, g := CommonOfLcs(a, b);
    EmbedsMultiset(f, s, a);
    EmbedsMultiset(g, s, b);
    MultisetCardinality(multiset(s), multiset(a) * multiset(b));
  }

  // ---- scores ----

  /** The harmonic mean of k/n and k/m. */
  lemma HarmonicMean(k: nat, m: nat, n: nat)
    requires m > 0 && n > 0
    ensures k == 0 ==> k as real / n as real + k as real / m as real == 0.0
    ensures k > 0 ==> k as real / n as real + k as real / m as real > 0.0
    ensures k > 0 ==>
      2.0 * (k as real / n as real) * (k as real / m as real) / (k as real / n as real + k as real / m as real)
      == Dice(k, m, n)
  {
    if k > 0 {
      HarmonicReal(k as real, m as real, n as real);
    }
  }

  lemma HarmonicReal(k: real, m: real, n: real)
    requires k > 0.0 && m > 0.0 && n > 0.0
    ensures k / n + k / m > 0.0
    ensures 2.0 * (k / n) * (k / m) / (k / n + k / m) == 2.0 * k / (m + n)
  {
    var p, r := k / n, k / m;
    assert p * n == k && r * m == k;
    assert p > 0.0 && r > 0.0;
    Cancel(2.0 * p * r, p + r, 2.0 * k, m + n) by {
      // 2pr(m+n) = 2pk + 2rk = 2k(p+r)
      assert 2.0 * p * r * (m + n) == 2.0 * p * (r * m) + 2.0 * r * (p * n);
    }
  }

  lemma Cancel(x: real, y: real, z: real, w: real)
    requires y > 0.0 && w > 0.0 && x * w == z * y
    ensures x / y == z / w
  {
    var q := z / w;
    assert q * w == z;
    assert (q * y) * w == x * w;
    assert q * y == x;
  }

  /** Twice the shared count over the sum of the lengths. */
  ghost function Dice(k: nat, m: nat, n: nat): real
    requires m + n > 0
  {
    2.0 * k as real / (m + n) as real
  }

  lemma DiceRange(k: nat, m: nat, n: nat)
    requires m + n > 0 && k <= m && k <= n
    ensures 0.0 <= Dice(k, m, n) <= 1.0
    ensures Dice(k, m, n) == 1.0 <==> k == m == n
  {
    var x, w := 2.0 * k as real, (m + n) as real;
    Quotient(x, w);
    UnitRange(x / w, x, w);
  }

  lemma UnitRange(q: real, x: real, w: real)
    requires w > 0.0 && x >= 0.0 && q * w == x
    ensures 0.0 <= q
    ensures q <= 1.0 <==> x <= w
    ensures q == 1.0 <==> x == w
  {
    NotNegative(q, x, w);
    AtMostOne(q, x, w);
    ExactlyOne(q, x, w);
  }

  lemma NotNegative(q: real, x: real, w: real)
    requires w > 0.0 && x >= 0.0 && q * w == x
    ensures 0.0 <= q
  {
    ProductOrder(0.0, q, w);
  }

  lemma AtMostOne(q: real, x: real, w: real)
    requires w > 0.0 && q * w == x
    ensures q <= 1.0 <==> x <= w
  {
    ProductOrder(q, 1.0, w);
  }

  lemma ExactlyOne(q: real, x: real, w: real)
    requires w > 0.0 && q * w == x
    ensures q == 1.0 <==> x == w
  {
    ProductOrder(q, 1.0, w);
  }

  lemma Quotient(x: real, w: real)
    requires w != 0.0
    ensures x / w * w == x
  {
  }

  lemma DiceMonotone(j: nat, k: nat, m: nat, n: nat)
    requires m + n > 0 && j <= k
    ensures Dice(j, m, n) <= Dice(k, m, n)
  {
    ProductOrder(Dice(j, m, n), Dice(k, m, n), (m + n) as real);
  }

  /** The value of all three metrics for `k` shared elements of `m` and `n`. */
  ghost function Metric(k: nat, m: nat, n: nat): real {
    if m == 0 && n == 0 then 1.0 else Dice(k, m, n)
  }

  /** All metrics are 1 for two empty inputs, and else the harmonic mean of precision and recall: what is
      shared, counted twice, is that part of both lengths. */
  lemma MetricIsHarmonicMean(k: nat, m: nat, n: nat)
    ensures m + n == 0 ==> Metric(k, m, n) == 1.0
    ensures m + n > 0 ==> Metric(k, m, n) * (m + n) as real == 2.0 * k as real
    ensures m > 0 && n > 0 ==>
      var p, q := k as real / m as real, k as real / n as real; Metric(k, m, n) * (p + q) == 2.0 * (p * q)
  {
    if m > 0 && n > 0 {
      MeanOfQuotients(k as real, m as real, n as real, Metric(k, m, n));
    }
  }

  lemma MeanOfQuotients(k: real, m: real, n: real, r: real)
    requires m > 0.0 && n > 0.0 && r * (m + n) == 2.0 * k
    ensures r * (k / m + k / n) == 2.0 * (k / m * (k / n))
  {
    var p, q := k / m, k / n;
    assert k == p * m && k == q * n;
    assert (p + q) * (m * n) == k * (m + n);
    assert (r * (p + q)) * (m * n) == r * (m + n) * k == 2.0 * k * k == (2.0 * (p * q)) * (m * n);
    ProductOrder(r * (p + q), 2.0 * (p * q), m * n);
  }

  /** SequenceSimilarity, on bytes. */
  method SequenceSimilarity<T(==, !new)>(a: seq<T>, b: seq<T>) returns (r: real)
    ensures r == Metric(Lcs(a, b), |a|, |b|)
  {
    if |a| == 0 && |b| == 0 {
      return 1.0;
    }
    if |a| == 0 || |b| == 0 {
      return 0.0;
    }
    var lcs := LcsLength(a, b);
    return 2.0 * lcs as real / (|a| + |b|) as real;
  }

  /** RougeL, on the token lists. */
  method RougeL<T(==, !new)>(aToks: seq<T>, bToks: seq<T>) returns (r: real)
    ensures r == Metric(Lcs(aToks, bToks), |aToks|, |bToks|)
  {
    if |aToks| == 0 && |bToks| == 0 {
      return 1.0;
    }
    if |aToks| == 0 || |bToks| == 0 {
      return 0.0;
    }
    var lcs := LcsLength(aToks, bToks);
    r := FMeasure(lcs, |aToks|, |bToks|);
  }

  /** Precision, recall and their harmonic mean, as both token metrics end. */
  method FMeasure(shared: nat, m: nat, n: nat) returns (f1: real)
    requires m > 0 && n > 0
    ensures f1 == Dice(shared, m, n)
  {
    HarmonicMean(shared, m, n);
    var precision := shared as real / n as real;
    var recall := shared as real / m as real;
    if precision + recall == 0.0 {
      return 0.0;
    }
    f1 := 2.0 * precision * recall / (precision + recall);
  }

  /** The counting loops of TokenF1. */
  method CountTokens<T(==)>(toks: seq<T>) returns (counts: map<T, nat>)
    ensures forall t :: t in counts <==> t in toks
    ensures forall t | t in counts :: counts[t] == multiset(toks)[t]
  {
    counts := map[];
    for i := 0 to |toks|
      invariant forall t :: t in counts <==> t in toks[..i]
      invariant forall t | t in counts :: counts[t] == multiset(toks[..i])[t]
    {
      var t := toks[i];
      assert toks[..i + 1] == toks[..i] + [t];
      counts := counts[t := (if t in counts then counts[t] else 0) + 1];
    }
    assert toks[..|toks|] == toks;
  }

  /** The overlap loop of TokenF1, in whatever order the map is walked. */
  method Overlap<T(==)>(aSet: map<T, nat>, bSet: map<T, nat>, ghost a: multiset<T>, ghost b: multiset<T>)
    returns (overlap: nat)
    requires forall t :: t in aSet <==> t in a
    requires forall t :: t in bSet <==> t in b
    requires forall t | t in aSet :: aSet[t] == a[t]
    requires forall t | t in bSet :: bSet[t] == b[t]
    ensures overlap == |a * b|
  {
    overlap := 0;
    ghost var counted: multiset<T> := multiset{};
    var todo := aSet.Keys;
    while todo != {}
      invariant todo <= aSet.Keys
      invariant overlap == |counted|
      invariant forall t :: counted[t] == if t in todo then 0 else (a * b)[t]
      decreases |todo|
    {
      var tok :| tok in todo;
      todo := todo - {tok};
      ghost var before := counted;
      counted := counted[tok := (a * b)[tok]];
      assert |counted| == |before| + (a * b)[tok];
      if tok in bSet {
        if aSet[tok] < bSet[tok] {
          overlap := overlap + aSet[tok];
        } else {
          overlap := overlap + bSet[tok];
        }
      }
    }
    assert counted == a * b;
  }

  /** TokenF1, on the token lists. */
  method TokenF1<T(==, !new)>(aToks: seq<T>, bToks: seq<T>) returns (r: real)
    ensures r == Metric(|multiset(aToks) * multiset(bToks)|, |aToks|, |bToks|)
  {
    if |aToks| == 0 && |bToks| == 0 {
      return 1.0;
    }
    if |aToks| == 0 || |bToks| == 0 {
      assert multiset(aToks) * multiset(bToks) == multiset{};
      return 0.0;
    }
    var aSet := CountTokens(aToks);
    var bSet := CountTokens(bToks);
    var overlap := Overlap(aSet, bSet, multiset(aToks), multiset(bToks));
    r := FMeasure(overlap, |aToks|, |bToks|);
  }

  /** RougeL and SequenceSimilarity lie in [0, 1], are 1 exactly on equal inputs, are symmetric,
      and RougeL never exceeds TokenF1. */
  lemma MetricLaws<T>(a: seq<T>, b: seq<T>)
    ensures var r := Metric(Lcs(a, b), |a|, |b|);
      && 0.0 <= r <= 1.0
      && (r == 1.0 <==> a == b)
      && r == Metric(Lcs(b, a), |b|, |a|)
      && r <= Metric(|multiset(a) * multiset(b)|, |a|, |b|) <= 1.0
  {
    LcsBounds(a, b);
    LcsSymmetric(a, b);
    LcsAtMostOverlap(a, b);
    MultisetCardinality(multiset(a) * multiset(b), multiset(a));
    MultisetCardinality(multiset(a) * multiset(b), multiset(b));
    if |a| + |b| > 0 {
      var k := |multiset(a) * multiset(b)|;
      DiceRange(Lcs(a, b), |a|, |b|);
      DiceRange(k, |a|, |b|);
      DiceMonotone(Lcs(a, b), k, |a|, |b|);
    }
  }
}
