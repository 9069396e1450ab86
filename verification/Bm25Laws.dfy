/** How BM25 scores depend on what is indexed (rag/bm25retriever/retriever.go, the scoring part of
    Retrieve): rare terms, frequent terms and short variants score more. */
module Bm25Laws {
  import opened Reals
  import opened Bm25
  import opened Bm25Score

  ghost predicate Increasing(ln: real -> real) {
    forall x: real, y: real {:trigger ln(x), ln(y)} | 1.0 <= x < y :: ln(x) < ln(y)
  }

  // ---- the parts of a weight ----

  /** How rare a term is: of `n` variants `df` have it. */
  ghost function Rarity(pr: Params, n: nat, df: nat): real
    requires 0 < df <= n
  {
    pr.ln((n as real + 1.0) / (df as real + 0.5))
  }

  /** How much the length of the variant counts against it, 1 at average length. */
  ghost function LengthFactor(pr: Params, dl: nat, avg: real): real
    requires avg > 0.0
  {
    1.0 - pr.b + pr.b * dl as real / avg
  }

  /** What keeps the number of occurrences from counting in full. */
  ghost function Drag(pr: Params, dl: nat, avg: real): real
    requires avg > 0.0
  {
    pr.k1 * LengthFactor(pr, dl, avg)
  }

  /** A share of `c` that grows with `a`, and less so the larger `g` is. */
  ghost function Share(r: real, a: real, c: real, g: real): real
    requires a + g > 0.0
  {
    r * (a * c) / (a + g)
  }

  lemma OnePlusQuotient(x: real, y: real)
    requires y > 0.0
    ensures 1.0 + x / y == (y + x) / y
  {
    var q := x / y;
    assert x == q * y;
    assert y + x == (1.0 + q) * y;
    QuotientOrder(1.0 + q, 1.0, y + x, y);
  }

  lemma RarityForm(n: nat, df: nat)
    requires 0 < df <= n
    ensures 1.0 + (n as real - df as real + 0.5) / (df as real + 0.5) == (n as real + 1.0) / (df as real + 0.5)
    ensures (n as real + 1.0) / (df as real + 0.5) > 1.0
  {
    var y := df as real + 0.5;
    var x := n as real - df as real + 0.5;
    OnePlusQuotient(x, y);
    assert y + x == n as real + 1.0;
    QuotientOrder(1.0, 1.0, n as real + 1.0, y);
  }

  /** The weight, as a share of the rarity. */
  lemma WeightForm(pr: Params, n: nat, df: nat, dl: nat, avg: real, tf: nat)
    requires GoodParams(pr) && 0 < df <= n && avg > 0.0 && tf > 0
    ensures Rarity(pr, n, df) > 0.0 && LengthFactor(pr, dl, avg) >= 0.0
    ensures tf as real + Drag(pr, dl, avg) > 0.0
    ensures Weight(pr, n, df, dl, avg, tf)
         == Share(Rarity(pr, n, df), tf as real, pr.k1 + 1.0, Drag(pr, dl, avg))
  {
    RarityForm(n, df);
    NormPositive(pr, dl, avg, tf);
    assert pr.b * dl as real >= 0.0;
    assert pr.b * dl as real / avg >= 0.0;
  }
  lemma ScaledOrder(x: real, y: real, c: real, d: real)
    requires x < y && c > 0.0 && d > 0.0
    ensures x * c / d < y * c / d
  {
    ProductOrder(y, x, c);
    ProductOrder(y * c, x * c, d);
    QuotientOrder(y * c, d, x * c, d);
  }

  lemma ShareGrows(x: real, y: real, a: real, c: real, g: real)
    requires x < y && a > 0.0 && c > 0.0 && g >= 0.0
    ensures Share(x, a, c, g) < Share(y, a, c, g)
  {
    ProductPositive(a, c);
    ScaledOrder(x, y, a * c, a + g);
  }

  lemma ShareShrinks(r: real, a: real, c: real, g: real, g': real)
    requires r > 0.0 && a > 0.0 && c > 0.0 && 0.0 <= g <= g'
    ensures Share(r, a, c, g') <= Share(r, a, c, g)
    ensures Share(r, a, c, g') < Share(r, a, c, g) <==> g < g'
  {
    var x := r * (a * c);
    ProductPositive(a, c);
    ProductPositive(r, a * c);
    ProductOrder(a + g, a + g', x);
    QuotientOrder(x, a + g', x, a + g);
  }

  // ---- what makes a weight larger ----

  /** The rarer the term, the larger the weight. */
  lemma RarerWeighsMore(pr: Params, n: nat, df: nat, df': nat, dl: nat, avg: real, tf: nat)
    requires GoodParams(pr) && Increasing(pr.ln) && 0 < df < df' <= n && avg > 0.0 && tf > 0
    ensures Weight(pr, n, df', dl, avg, tf) < Weight(pr, n, df, dl, avg, tf)
  {
    WeightForm(pr, n, df, dl, avg, tf);
    WeightForm(pr, n, df', dl, avg, tf);
    RarityForm(n, df');
    var m, y, y' := n as real + 1.0, df as real + 0.5, df' as real + 0.5;
    ProductOrder(y', y, m);
    QuotientOrder(m, y, m, y');
    assert pr.ln(m / y') < pr.ln(m / y);
    FactorPositive(pr, dl, avg);
    ShareGrows(Rarity(pr, n, df'), Rarity(pr, n, df), tf as real, pr.k1 + 1.0, Drag(pr, dl, avg));
  }

  /** The more often a variant has the term, the larger the weight, unless the number does not count at
      all: for K1 zero, or for B one in a variant without length. */
  lemma OftenerWeighsMore(pr: Params, n: nat, df: nat, dl: nat, avg: real, tf: nat, tf': nat)
    requires GoodParams(pr) && 0 < df <= n && avg > 0.0 && 0 < tf < tf'
    ensures Weight(pr, n, df, dl, avg, tf) <= Weight(pr, n, df, dl, avg, tf')
    ensures Weight(pr, n, df, dl, avg, tf) < Weight(pr, n, df, dl, avg, tf')
       <==> Drag(pr, dl, avg) > 0.0
  {
    WeightForm(pr, n, df, dl, avg, tf);
    WeightForm(pr, n, df, dl, avg, tf');
    FactorPositive(pr, dl, avg);
    ShareSaturates(Rarity(pr, n, df), tf as real, tf' as real, pr.k1 + 1.0, Drag(pr, dl, avg));
  }

  lemma FactorPositive(pr: Params, dl: nat, avg: real)
    requires GoodParams(pr) && avg > 0.0
    ensures Drag(pr, dl, avg) >= 0.0
  {
    assert pr.b * dl as real >= 0.0;
    assert pr.b * dl as real / avg >= 0.0;
  }

  lemma ShareSaturates(r: real, a: real, a': real, c: real, g: real)
    requires r > 0.0 && 0.0 < a < a' && c > 0.0 && g >= 0.0
    ensures Share(r, a, c, g) <= Share(r, a', c, g)
    ensures Share(r, a, c, g) < Share(r, a', c, g) <==> g > 0.0
  {
    var s := r * c;
    ProductPositive(r, c);
    ProductPositive(s, a' - a);
    assert r * (a * c) == s * a && r * (a' * c) == s * a';
    QuotientOrder(s * a, a + g, s * a', a' + g);
    assert s * a' * (a + g) - s * a * (a' + g) == s * (a' - a) * g;
    if g > 0.0 {
      ProductPositive(s * (a' - a), g);
    }
  }

  /** The longer the variant, the smaller the weight, unless K1 or B is zero and length does not count. */
  lemma LongerWeighsLess(pr: Params, n: nat, df: nat, dl: nat, dl': nat, avg: real, tf: nat)
    requires GoodParams(pr) && 0 < df <= n && avg > 0.0 && tf > 0 && dl < dl'
    ensures Weight(pr, n, df, dl', avg, tf) <= Weight(pr, n, df, dl, avg, tf)
    ensures Weight(pr, n, df, dl', avg, tf) < Weight(pr, n, df, dl, avg, tf) <==> pr.k1 > 0.0 && pr.b > 0.0
  {
    WeightForm(pr, n, df, dl, avg, tf);
    WeightForm(pr, n, df, dl', avg, tf);
    LengthFactors(pr, dl, dl', avg);
    FactorPositive(pr, dl, avg);
    ShareShrinks(Rarity(pr, n, df), tf as real, pr.k1 + 1.0, Drag(pr, dl, avg),
                 Drag(pr, dl', avg));
  }

  lemma LengthFactors(pr: Params, dl: nat, dl': nat, avg: real)
    requires GoodParams(pr) && avg > 0.0 && dl < dl'
    ensures Drag(pr, dl, avg) <= Drag(pr, dl', avg)
    ensures Drag(pr, dl, avg) < Drag(pr, dl', avg) <==> pr.k1 > 0.0 && pr.b > 0.0
  {
    var f, f' := LengthFactor(pr, dl, avg), LengthFactor(pr, dl', avg);
    if pr.b > 0.0 {
      ProductOrder(dl as real, dl' as real, pr.b);
      assert pr.b * dl as real < pr.b * dl' as real;
      QuotientOrder(pr.b * dl as real, avg, pr.b * dl' as real, avg);
      ProductOrder(pr.b * dl as real, pr.b * dl' as real, avg);
      assert f < f';
      if pr.k1 > 0.0 {
        ProductOrder(f, f', pr.k1);
      }
    } else {
      assert pr.b * dl as real == 0.0 == pr.b * dl' as real;
    }
  }

  /** A term that stands once in a variant of average length weighs exactly what its rarity says. */
  lemma AverageWeighsRarity(pr: Params, n: nat, df: nat, dl: nat, avg: real)
    requires GoodParams(pr) && 0 < df <= n && avg > 0.0 && dl as real == avg
    ensures Weight(pr, n, df, dl, avg, 1) == pr.ln((n as real + 1.0) / (df as real + 0.5))
  {
    WeightForm(pr, n, df, dl, avg, 1);
    assert pr.b * dl as real / avg == pr.b by {
      QuotientOrder(pr.b * avg, avg, pr.b, 1.0);
    }
    var r, c := Rarity(pr, n, df), pr.k1 + 1.0;
    assert pr.k1 * 1.0 == pr.k1;
    QuotientOrder(r * c, c, r, 1.0);
  }

  // ---- what makes a score larger ----

  /** The variants that have a term. */
  ghost function Having(es: seq<Entry>, t: Term): set<VariantId> {
    set e | e in es && t in e.tokens :: e.variant
  }

  lemma {:induction false} PostingsAreHaving(es: seq<Entry>, t: Term)
    requires DistinctVariants(es)
    ensures |Postings(es, t)| == |Having(es, t)|
  {
    if es != [] {
      var front, e := es[..|es| - 1], es[|es| - 1];
      PostingsAreHaving(front, t);
      assert es == front + [e];
      assert e.variant !in Having(front, t);
      assert Having(es, t) == Having(front, t) + if t in e.tokens then {e.variant} else {};
    }
  }

  /** Of two terms a variant has equally often, the one fewer variants have scores more. */
  lemma RarerTermScoresMore(pr: Params, es: seq<Entry>, t: Term, t': Term, e: Entry)
    requires GoodParams(pr) && Increasing(pr.ln) && DistinctVariants(es) && e in es && t in e.tokens && t' in e.tokens
    requires multiset(e.tokens)[t] == multiset(e.tokens)[t'] && |Having(es, t)| < |Having(es, t')|
    ensures TermScore(pr, es, t', e) < TermScore(pr, es, t, e)
  {
    PostingsAreHaving(es, t);
    PostingsAreHaving(es, t');
    CountIsMultiplicity(e.tokens, t);
    CountIsMultiplicity(e.tokens, t');
    Scorable(es, t, e);
    Scorable(es, t', e);
    RarerWeighsMore(pr, |es|, |Postings(es, t)|, |Postings(es, t')|, |e.tokens|, Average(es), Count(e.tokens, t));
  }

  /** Of two variants of one length, the one with more of the term scores more. */
  lemma MoreOfTermScoresMore(pr: Params, es: seq<Entry>, t: Term, e: Entry, e': Entry)
    requires GoodParams(pr) && e in es && e' in es && |e.tokens| == |e'.tokens|
    requires 0 < multiset(e.tokens)[t] < multiset(e'.tokens)[t] && pr.k1 > 0.0
    ensures TermScore(pr, es, t, e) < TermScore(pr, es, t, e')
  {
    CountIsMultiplicity(e.tokens, t);
    CountIsMultiplicity(e'.tokens, t);
    CountPositive(e.tokens, t);
    CountPositive(e'.tokens, t);
    Scorable(es, t, e);
    Scorable(es, t, e');
    OftenerWeighsMore(pr, |es|, |Postings(es, t)|, |e.tokens|, Average(es), Count(e.tokens, t), Count(e'.tokens, t));
    LengthCounts(pr, |e.tokens|, Average(es));
  }

  lemma LengthCounts(pr: Params, dl: nat, avg: real)
    requires GoodParams(pr) && pr.k1 > 0.0 && avg > 0.0 && dl > 0
    ensures Drag(pr, dl, avg) > 0.0
  {
    if pr.b > 0.0 {
      ProductPositive(pr.b, dl as real);
      QuotientPositive(pr.b * dl as real, avg);
    } else {
      assert pr.b * dl as real / avg == 0.0;
    }
    ProductPositive(pr.k1, LengthFactor(pr, dl, avg));
  }

  /** Of two variants that have a term equally often, the shorter one scores more. */
  lemma ShorterScoresMore(pr: Params, es: seq<Entry>, t: Term, e: Entry, e': Entry)
    requires GoodParams(pr) && e in es && e' in es && |e.tokens| < |e'.tokens|
    requires 0 < multiset(e.tokens)[t] == multiset(e'.tokens)[t] && pr.k1 > 0.0 && pr.b > 0.0
    ensures TermScore(pr, es, t, e') < TermScore(pr, es, t, e)
  {
    CountIsMultiplicity(e.tokens, t);
    CountIsMultiplicity(e'.tokens, t);
    CountPositive(e.tokens, t);
    CountPositive(e'.tokens, t);
    Scorable(es, t, e);
    Scorable(es, t, e');
    LongerWeighsLess(pr, |es|, |Postings(es, t)|, |e.tokens|, |e'.tokens|, Average(es), Count(e.tokens, t));
  }

  /** The score of a query is the sum of what its terms score one by one. */
  lemma {:induction false} ScoreAddsUp(pr: Params, es: seq<Entry>, q: seq<Term>, q': seq<Term>, e: Entry)
    requires GoodParams(pr) && e in es
    ensures TotalScore(pr, es, q + q', e) == TotalScore(pr, es, q, e) + TotalScore(pr, es, q', e)
    ensures forall t :: TotalScore(pr, es, [t], e) == TermScore(pr, es, t, e)
  {
    forall t ensures TotalScore(pr, es, [t], e) == TermScore(pr, es, t, e) {
      assert [t][..0] == [];
    }
    if q' == [] {
      assert q + q' == q;
    } else {
      ScoreAddsUp(pr, es, q, q'[..|q'| - 1], e);
      assert (q + q')[..|q + q'| - 1] == q + q'[..|q'| - 1];
    }
  }
}
