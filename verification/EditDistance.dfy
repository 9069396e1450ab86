/** Fuzzy name matching (knowledge/internal/fuzzy/fuzzy.go).

    A Go string is a sequence of bytes and is indexed by byte, so the distance is over
    sequences of any element type with equality.  The reference notion is independent of the
    algorithm: a path of strings in which each string differs from the one before it by one
    inserted, deleted or substituted element. */
module EditDistance {
  import opened Sequences
  import opened Reals

  /** `b` is `a` with one element put in. */
  ghost predicate Inserted<T>(a: seq<T>, b: seq<T>) {
    |b| == |a| + 1 && exists i | 0 <= i < |b| :: a == b[..i] + b[i + 1..]
  }

  /** `b` is `a` with one element overwritten. */
  ghost predicate Substituted<T>(a: seq<T>, b: seq<T>) {
    |b| == |a| && exists i | 0 <= i < |b| :: a[..i] == b[..i] && a[i + 1..] == b[i + 1..]
  }

  ghost predicate OneEdit<T>(a: seq<T>, b: seq<T>) {
    Inserted(a, b) || Inserted(b, a) || Substituted(a, b)
  }

  /** The strings `p` lead from `a` to `b`, one edit at a time; it costs `|p| - 1` edits. */
  ghost predicate EditPath<T>(p: seq<seq<T>>, a: seq<T>, b: seq<T>) {
    && |p| > 0 && p[0] == a && p[|p| - 1] == b
    && forall k | 0 < k < |p| :: OneEdit(p[k - 1], p[k])
  }

  function Min(x: int, y: int): int { if x <= y then x else y }

  function Max(x: int, y: int): int { if x >= y then x else y }

  function Cheapest(insert: nat, delete: nat, keep: nat, cost: nat): nat {
    Min(insert + 1, Min(delete + 1, keep + cost))
  }

  /** The Wagner-Fischer recurrence on the last elements; what the two rows tabulate. */
  function Distance<T(==)>(a: seq<T>, b: seq<T>): nat
    decreases |a| + |b|
  {
    if |a| == 0 then |b|
    else if |b| == 0 then |a|
    else
      Cheapest(Distance(a, DropLast(b)), Distance(DropLast(a), b), Distance(DropLast(a), DropLast(b)),
               if Last(a) == Last(b) then 0 else 1)
  }

  // ---- the loop ----

  /** `d` is the least number of edits that turn `a` into `b`. */
  ghost predicate IsLeastEdits<T(!new)>(a: seq<T>, b: seq<T>, d: int) {
    && (exists p :: EditPath(p, a, b) && |p| - 1 == d)
    && (forall p :: EditPath(p, a, b) ==> d <= |p| - 1)
  }

  lemma {:induction false} RowCell<T>(a: seq<T>, b: seq<T>, i: nat, j: nat, best: int)
    requires 0 < i <= |a| && 0 < j <= |b|
    requires best == Cheapest(Distance(a[..i], b[..j - 1]), Distance(a[..i - 1], b[..j]),
                              Distance(a[..i - 1], b[..j - 1]), if a[i - 1] == b[j - 1] then 0 else 1)
    ensures best == Distance(a[..i], b[..j])
  {
    assert DropLast(a[..i]) == a[..i - 1] && DropLast(b[..j]) == b[..j - 1];
  }

  /** LevenshteinDistance: two rows, filled left to right and swapped after each row. */
  method LevenshteinDistance<T(==, !new)>(a: seq<T>, b: seq<T>) returns (d: int)
    ensures d == Distance(a, b)
    ensures IsLeastEdits(a, b, d)
  {
    var la, lb := |a|, |b|;
    if la == 0 {
      DistanceIsLeast(a, b);
      return lb;
    }
    if lb == 0 {
      DistanceIsLeast(a, b);
      return la;
    }
    var prev, curr := new int[lb + 1], new int[lb + 1];
    for j := 0 to lb + 1
      invariant forall k | 0 <= k < j :: prev[k] == k
    {
      prev[j] := j;
    }
    for i := 1 to la + 1
      invariant prev != curr && prev.Length == curr.Length == lb + 1
      invariant fresh(prev) && fresh(curr)
      invariant IsRow(prev, a[..i - 1], b)
    {
      FillRow(a, b, i, prev, curr);
      prev, curr := curr, prev;
    }
    assert a[..la] == a && b[..lb] == b;
    d := prev[lb];
    DistanceIsLeast(a, b);
  }

  ghost predicate IsRow<T>(row: array<int>, a: seq<T>, b: seq<T>)
    requires row.Length == |b| + 1
    reads row
  {
    forall k | 0 <= k <= |b| :: row[k] == Distance(a, b[..k])
  }

  /** The inner loop: row `i` from row `i - 1`. */
  method FillRow<T(==)>(a: seq<T>, b: seq<T>, i: nat, prev: array<int>, curr: array<int>)
    requires 0 < i <= |a|
    requires prev != curr && prev.Length == curr.Length == |b| + 1
    requires IsRow(prev, a[..i - 1], b)
    modifies curr
    ensures IsRow(curr, a[..i], b)
  {
    curr[0] := i;
    for j := 1 to |b| + 1
      invariant forall k | 0 <= k < j :: curr[k] == Distance(a[..i], b[..k])
    {
      curr[j] := CellValue(a, b, i, j, curr[j - 1], prev[j], prev[j - 1]);
    }
  }

  /** One cell, from those to the left, above and diagonally above. */
  method CellValue<T(==)>(a: seq<T>, b: seq<T>, i: nat, j: nat, left: int, above: int, diagonal: int)
    returns (best: int)
    requires 0 < i <= |a| && 0 < j <= |b|
    requires left == Distance(a[..i], b[..j - 1]) && above == Distance(a[..i - 1], b[..j])
    requires diagonal == Distance(a[..i - 1], b[..j - 1])
    ensures best == Distance(a[..i], b[..j])
  {
    var cost := 1;
    if a[i - 1] == b[j - 1] {
      cost := 0;
    }
    best := Min(left + 1, Min(above + 1, diagonal + cost));
    RowCell(a, b, i, j, best);
  }

  // ---- the recurrence is the least number of edits ----

  /** Dropping the last element of `b` costs at most one edit. */
  lemma {:induction false} DistanceDropLast<T>(a: seq<T>, b: seq<T>)
    requires |b| > 0
    ensures Distance(a, DropLast(b)) <= Distance(a, b) + 1
    ensures Distance(a, b) <= Distance(a, DropLast(b)) + 1
    decreases |a|
  {
    if |a| > 0 {
      DistanceDropLast(DropLast(a), b);
    }
  }

  /** An insertion, read at the end of both strings: either it is the last element of the longer
      one, or both end alike and the insertion is further left. */
  lemma InsertedAtEnd<T>(a: seq<T>, b: seq<T>)
    requires Inserted(a, b)
    ensures a == DropLast(b) || (|a| > 0 && Last(a) == Last(b) && Inserted(DropLast(a), DropLast(b)))
  {
    var i :| 0 <= i < |b| && a == b[..i] + b[i + 1..];
    if i < |b| - 1 {
      var a', b' := DropLast(a), DropLast(b);
      assert a' == b'[..i] + b'[i + 1..];
    } else {
      assert a == DropLast(b);
    }
  }

  lemma SubstitutedAtEnd<T>(a: seq<T>, b: seq<T>)
    requires Substituted(a, b)
    ensures |a| > 0
    ensures DropLast(a) == DropLast(b) || (Last(a) == Last(b) && Substituted(DropLast(a), DropLast(b)))
  {
    var i :| 0 <= i < |b| && a[..i] == b[..i] && a[i + 1..] == b[i + 1..];
    if i < |b| - 1 {
      var a', b' := DropLast(a), DropLast(b);
      assert Last(a) == a[i + 1..][|a| - i - 2] == b[i + 1..][|a| - i - 2] == Last(b);
      assert a'[..i] == a[..i] && b'[..i] == b[..i];
      assert a'[i + 1..] == a[i + 1..][..|a| - i - 2] && b'[i + 1..] == b[i + 1..][..|a| - i - 2];
    }
  }

  /** One edit of the target changes the distance by at most one. */
  lemma {:induction false} DistanceOneEdit<T>(x: seq<T>, b: seq<T>, c: seq<T>)
    requires OneEdit(b, c)
    ensures Distance(x, c) <= Distance(x, b) + 1
    decreases |x| + |b|
  {
    if Inserted(b, c) {
      InsertedAtEnd(b, c);
      if b == DropLast(c) {
        DistanceDropLast(x, c);
        return;
      }
    } else if Inserted(c, b) {
      InsertedAtEnd(c, b);
      if c == DropLast(b) {
        DistanceDropLast(x, b);
        return;
      }
    } else {
      SubstitutedAtEnd(b, c);
      if DropLast(b) == DropLast(c) {
        if |x| > 0 {
          DistanceOneEdit(DropLast(x), b, c);
        }
        return;
      }
    }
    if |x| > 0 {
      DistanceOneEdit(x, DropLast(b), DropLast(c));
      DistanceOneEdit(DropLast(x), b, c);
      DistanceOneEdit(DropLast(x), DropLast(b), DropLast(c));
    }
  }

  lemma {:induction false} DistanceSelf<T>(a: seq<T>)
    ensures Distance(a, a) == 0
  {
    if |a| > 0 {
      DistanceSelf(DropLast(a));
    }
  }

  /** No path of edits is shorter than the distance. */
  lemma {:induction false} PathAtLeastDistance<T>(p: seq<seq<T>>, a: seq<T>, b: seq<T>)
    requires EditPath(p, a, b)
    ensures Distance(a, b) <= |p| - 1
  {
    if |p| == 1 {
      DistanceSelf(a);
    } else {
      PathAtLeastDistance(DropLast(p), a, p[|p| - 2]);
      assert OneEdit(p[|p| - 2], p[|p| - 1]);
      DistanceOneEdit(a, p[|p| - 2], b);
    }
  }

  /** A path stays a path when the same element is put behind every string of it. */
  lemma OneEditAppend<T>(a: seq<T>, b: seq<T>, x: T)
    requires OneEdit(a, b)
    ensures OneEdit(a + [x], b + [x])
  {
    if Inserted(a, b) {
      var i :| 0 <= i < |b| && a == b[..i] + b[i + 1..];
      assert a + [x] == (b + [x])[..i] + (b + [x])[i + 1..];
    } else if Inserted(b, a) {
      var i :| 0 <= i < |a| && b == a[..i] + a[i + 1..];
      assert b + [x] == (a + [x])[..i] + (a + [x])[i + 1..];
    } else {
      var i :| 0 <= i < |b| && a[..i] == b[..i] && a[i + 1..] == b[i + 1..];
      assert (a + [x])[..i] == a[..i] && (b + [x])[..i] == b[..i];
      assert (a + [x])[i + 1..] == a[i + 1..] + [x] && (b + [x])[i + 1..] == b[i + 1..] + [x];
    }
  }

  lemma PathAppend<T>(p: seq<seq<T>>, a: seq<T>, b: seq<T>, x: T) returns (q: seq<seq<T>>)
    requires EditPath(p, a, b)
    ensures |q| == |p| && EditPath(q, a + [x], b + [x])
  {
    q := seq(|p|, i requires 0 <= i < |p| => p[i] + [x]);
    forall k | 0 < k < |q| ensures OneEdit(q[k - 1], q[k]) {
      assert OneEdit(p[k - 1], p[k]);
      OneEditAppend(p[k - 1], p[k], x);
    }
  }

  lemma OneEditDropLast<T>(b: seq<T>)
    requires |b| > 0
    ensures OneEdit(DropLast(b), b) && OneEdit(b, DropLast(b))
  {
    assert DropLast(b) == b[..|b| - 1] + b[|b| - 1 + 1..];
    assert Inserted(DropLast(b), b);
  }

  lemma OneEditLast<T>(s: seq<T>, x: T, y: T)
    ensures OneEdit(s + [x], s + [y])
  {
    assert (s + [x])[..|s|] == (s + [y])[..|s|] && (s + [x])[|s| + 1..] == (s + [y])[|s| + 1..];
    assert Substituted(s + [x], s + [y]);
  }

  lemma ExtendPath<T>(p: seq<seq<T>>, a: seq<T>, b: seq<T>, c: seq<T>)
    requires EditPath(p, a, b) && OneEdit(b, c)
    ensures EditPath(p + [c], a, c)
  {
    forall k | 0 < k < |p + [c]| ensures OneEdit((p + [c])[k - 1], (p + [c])[k]) {
      if k < |p| {
        assert OneEdit(p[k - 1], p[k]);
      }
    }
  }

  /** The distance is reached by some path of edits. */
  lemma {:induction false} PathOfDistance<T>(a: seq<T>, b: seq<T>) returns (p: seq<seq<T>>)
    ensures EditPath(p, a, b) && |p| - 1 == Distance(a, b)
    decreases |a| + |b|
  {
    if |a| == 0 && |b| == 0 {
      p := [a];
    } else if |a| == 0 || (|b| > 0 && Distance(a, b) == Distance(a, DropLast(b)) + 1) {
      p := PathOfDistance(a, DropLast(b));
      OneEditDropLast(b);
      ExtendPath(p, a, DropLast(b), b);
      p := p + [b];
    } else if |b| == 0 || Distance(a, b) == Distance(DropLast(a), b) + 1 {
      var q := PathOfDistance(DropLast(a), b);
      OneEditDropLast(a);
      p := [a] + q;
      forall k | 0 < k < |p| ensures OneEdit(p[k - 1], p[k]) {
        if k > 1 {
          assert OneEdit(q[k - 2], q[k - 1]);
        }
      }
    } else {
      var q := PathOfDistance(DropLast(a), DropLast(b));
      p := PathAppend(q, DropLast(a), DropLast(b), Last(a));
      assert a == DropLast(a) + [Last(a)] && b == DropLast(b) + [Last(b)];
      if Last(a) != Last(b) {
        OneEditLast(DropLast(b), Last(a), Last(b));
        ExtendPath(p, a, DropLast(b) + [Last(a)], b);
        p := p + [b];
      }
    }
  }

  /** The recurrence is the least number of single-element edits. */
  lemma DistanceIsLeast<T(!new)>(a: seq<T>, b: seq<T>)
    ensures IsLeastEdits(a, b, Distance(a, b))
  {
    var p := PathOfDistance(a, b);
    assert EditPath(p, a, b) && |p| - 1 == Distance(a, b);
    forall q | EditPath(q, a, b) ensures Distance(a, b) <= |q| - 1 {
      PathAtLeastDistance(q, a, b);
    }
  }

  // ---- a metric ----

  lemma DistanceZero<T>(a: seq<T>, b: seq<T>)
    ensures Distance(a, b) == 0 <==> a == b
  {
    if a == b {
      DistanceSelf(a);
    } else {
      var p := PathOfDistance(a, b);
    }
  }

  lemma DistanceSymmetric<T>(a: seq<T>, b: seq<T>)
    ensures Distance(a, b) == Distance(b, a)
  {
    DistanceNoMoreReversed(a, b);
    DistanceNoMoreReversed(b, a);
  }

  lemma DistanceNoMoreReversed<T>(a: seq<T>, b: seq<T>)
    ensures Distance(b, a) <= Distance(a, b)
  {
    var p := PathOfDistance(a, b);
    var q := seq(|p|, i requires 0 <= i < |p| => p[|p| - 1 - i]);
    forall k | 0 < k < |q| ensures OneEdit(q[k - 1], q[k]) {
      var j := |p| - k;
      assert OneEdit(p[j - 1], p[j]) && q[k] == p[j - 1] && q[k - 1] == p[j];
      if Substituted(p[j - 1], p[j]) {
        var i :| 0 <= i < |p[j]| && p[j - 1][..i] == p[j][..i] && p[j - 1][i + 1..] == p[j][i + 1..];
        assert Substituted(p[j], p[j - 1]);
      }
    }
    PathAtLeastDistance(q, b, a);
  }

  lemma DistanceTriangle<T>(a: seq<T>, b: seq<T>, c: seq<T>)
    ensures Distance(a, c) <= Distance(a, b) + Distance(b, c)
  {
    var p := PathOfDistance(a, b);
    var q := PathOfDistance(b, c);
    var r := p + q[1..];
    forall k | 0 < k < |r| ensures OneEdit(r[k - 1], r[k]) {
      if k < |p| {
        assert OneEdit(p[k - 1], p[k]);
      } else {
        assert OneEdit(q[k - |p|], q[k - |p| + 1]);
        assert r[k - 1] == q[k - |p|];
      }
    }
    PathAtLeastDistance(r, a, c);
  }

  lemma {:induction false} DistanceBounds<T>(a: seq<T>, b: seq<T>)
    ensures |a| - |b| <= Distance(a, b) && |b| - |a| <= Distance(a, b)
    ensures Distance(a, b) <= Max(|a|, |b|)
    decreases |a| + |b|
  {
    if |a| > 0 && |b| > 0 {
      DistanceBounds(a, DropLast(b));
      DistanceBounds(DropLast(a), b);
      DistanceBounds(DropLast(a), DropLast(b));
    }
  }

  // ---- similarity ----

  /** What Similarity computes from the normalized names; zero edits on two empty names is 1. */
  ghost function Score(dist: nat, maxLen: nat): real {
    if maxLen == 0 then 1.0 else 1.0 - dist as real / maxLen as real
  }

  lemma ScoreRange(d: nat, m: nat)
    requires d <= m
    ensures 0.0 <= Score(d, m) <= 1.0
    ensures Score(d, m) == 1.0 <==> d == 0
    ensures Score(d, m) * m as real == (m - d) as real
  {
    if m > 0 {
      var q, r := d as real / m as real, m as real;
      assert q * r == d as real;
      ProductOrder(q, 1.0, r);
      ProductOrder(0.0, q, r);
    }
  }

  /** Similarity.  Normalize lower-cases and keeps letters and digits; which characters those
      are, and their byte encoding, is Unicode's business and enters as `normalize`. */
  method Similarity<T(==, !new)>(normalize: string -> seq<T>, a: string, b: string) returns (s: real)
    ensures s == Score(Distance(normalize(a), normalize(b)), Max(|normalize(a)|, |normalize(b)|))
    ensures 0.0 <= s <= 1.0
    ensures s == 1.0 <==> normalize(a) == normalize(b)
  {
    var na, nb := normalize(a), normalize(b);
    DistanceZero(na, nb);
    DistanceBounds(na, nb);
    ScoreRange(Distance(na, nb), Max(|na|, |nb|));
    if na == nb {
      return 1.0;
    }
    var maxLen := Max(|na|, |nb|);
    if maxLen == 0 {
      return 1.0;
    }
    var dist := LevenshteinDistance(na, nb);
    s := 1.0 - dist as real / maxLen as real;
  }

  /** IsFuzzyMatch, in whole edits: at most (1 - threshold) of the longer normalized name may be
      edited away.  Two empty names score 1 and so match every threshold up to 1. */
  method IsFuzzyMatch<T(==, !new)>(normalize: string -> seq<T>, a: string, b: string, threshold: real)
    returns (matches: bool)
    ensures matches <==> WithinEdits(Distance(normalize(a), normalize(b)),
                                     Max(|normalize(a)|, |normalize(b)|), threshold)
  {
    var s := Similarity(normalize, a, b);
    matches := s >= threshold;
    ghost var d, m := Distance(normalize(a), normalize(b)), Max(|normalize(a)|, |normalize(b)|);
    FuzzyMatchInEdits(d, m, threshold);
  }

  ghost predicate WithinEdits(d: nat, m: nat, threshold: real) {
    if m == 0 then threshold <= 1.0 else d as real <= (1.0 - threshold) * m as real
  }

  lemma FuzzyMatchInEdits(d: nat, m: nat, threshold: real)
    ensures Score(d, m) >= threshold <==> WithinEdits(d, m, threshold)
  {
    if m == 0 {
      return;
    }
    var q := d as real / m as real;
    assert q * m as real == d as real;
    ProductOrder(q, 1.0 - threshold, m as real);
  }
}
