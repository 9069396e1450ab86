/** BM25 scores (rag/bm25retriever/retriever.go, the scoring part of Retrieve), over the reals and
    for any logarithm that is positive above one. */
module Bm25Score {
  import opened Bm25

  datatype Params = Params(k1: real, b: real, ln: real -> real)

  ghost predicate GoodParams(pr: Params) {
    pr.k1 >= 0.0 && 0.0 <= pr.b <= 1.0 && forall x: real | x > 1.0 :: pr.ln(x) > 0.0
  }

  lemma QuotientPositive(x: real, y: real)
    requires x > 0.0 && y > 0.0
    ensures x / y > 0.0
  {
  }

  lemma ProductPositive(x: real, y: real)
    requires x > 0.0 && y > 0.0
    ensures x * y > 0.0
  {
  }

  lemma NormPositive(pr: Params, dl: nat, avg: real, tf: nat)
    requires GoodParams(pr) && avg > 0.0 && tf > 0
    ensures tf as real + pr.k1 * (1.0 - pr.b + pr.b * dl as real / avg) > 0.0
  {
    assert pr.b * dl as real >= 0.0;
    assert pr.b * dl as real / avg >= 0.0;
    assert pr.k1 * (1.0 - pr.b + pr.b * dl as real / avg) >= 0.0;
  }

  /** What one term adds to the score of a variant of length `dl` that has it `tf` times, when `df` of
      `n` variants have it: defined and positive. */
  function Weight(pr: Params, n: nat, df: nat, dl: nat, avg: real, tf: nat): (w: real)
    requires GoodParams(pr) && 0 < df <= n && avg > 0.0 && tf > 0
    ensures w > 0.0
  {
    var x := (n as real - df as real + 0.5) / (df as real + 0.5);
    QuotientPositive(n as real - df as real + 0.5, df as real + 0.5);
    var idf := pr.ln(1.0 + x);
    assert idf > 0.0;
    NormPositive(pr, dl, avg, tf);
    ProductPositive(tf as real, pr.k1 + 1.0);
    ProductPositive(idf, tf as real * (pr.k1 + 1.0));
    QuotientPositive(idf * (tf as real * (pr.k1 + 1.0)), tf as real + pr.k1 * (1.0 - pr.b + pr.b * dl as real / avg));
    idf * (tf as real * (pr.k1 + 1.0)) / (tf as real + pr.k1 * (1.0 - pr.b + pr.b * dl as real / avg))
  }

  // ---- scores, variant by variant ----

  lemma {:induction false} PostingsBound(es: seq<Entry>, t: Term)
    ensures |Postings(es, t)| <= |es|
    ensures forall e | e in es && t in e.tokens :: Posting(e.variant, Count(e.tokens, t)) in Postings(es, t)
  {
    if es != [] {
      PostingsBound(es[..|es| - 1], t);
      assert es == es[..|es| - 1] + [es[|es| - 1]];
    }
  }

  lemma {:induction false} PostingIsOf(es: seq<Entry>, t: Term, p: Posting)
    requires p in Postings(es, t)
    ensures exists e :: e in es && t in e.tokens && e.variant == p.variant && Count(e.tokens, t) == p.termFreq
  {
    var front, last := es[..|es| - 1], es[|es| - 1];
    if p in Postings(front, t) {
      PostingIsOf(front, t, p);
    } else {
      assert last in es;
    }
  }

  lemma {:induction false} TotalPositive(es: seq<Entry>, e: Entry)
    requires e in es && e.tokens != []
    ensures TotalLength(es) > 0 && Average(es) > 0.0
  {
    if e != es[|es| - 1] {
      TotalPositive(es[..|es| - 1], e);
    }
    QuotientPositive(TotalLength(es) as real, |es| as real);
  }

  /** What a term needs so that its postings can be scored. */
  lemma Scorable(es: seq<Entry>, t: Term, e: Entry)
    requires e in es && t in e.tokens
    ensures 0 < |Postings(es, t)| <= |es| && Average(es) > 0.0 && Count(e.tokens, t) > 0
  {
    PostingsBound(es, t);
    TotalPositive(es, e);
    CountPositive(e.tokens, t);
  }

  function TermScore(pr: Params, es: seq<Entry>, t: Term, e: Entry): (s: real)
    requires GoodParams(pr) && e in es
    ensures t in e.tokens ==> s > 0.0
    ensures t !in e.tokens ==> s == 0.0
  {
    if t !in e.tokens then 0.0
    else
      Scorable(es, t, e);
      Weight(pr, |es|, |Postings(es, t)|, |e.tokens|, Average(es), Count(e.tokens, t))
  }

  /** The score of a variant: the sum over the query terms, repeated ones included. */
  function TotalScore(pr: Params, es: seq<Entry>, query: seq<Term>, e: Entry): real
    requires GoodParams(pr) && e in es
  {
    if query == [] then 0.0
    else TotalScore(pr, es, query[..|query| - 1], e) + TermScore(pr, es, query[|query| - 1], e)
  }

  predicate Matches(query: seq<Term>, e: Entry) {
    exists t :: t in query && t in e.tokens
  }

  /** A matched variant has a positive score. */
  lemma {:induction false} ScorePositive(pr: Params, es: seq<Entry>, query: seq<Term>, e: Entry)
    requires GoodParams(pr) && e in es
    ensures if Matches(query, e) then TotalScore(pr, es, query, e) > 0.0 else TotalScore(pr, es, query, e) == 0.0
  {
    if query != [] {
      var front, t := query[..|query| - 1], query[|query| - 1];
      ScorePositive(pr, es, front, e);
      assert query == front + [t];
      assert Matches(query, e) <==> Matches(front, e) || t in e.tokens;
    }
  }

  // ---- accumulating over the postings ----

  predicate Seen(ps: seq<Posting>, v: VariantId) {
    exists p :: p in ps && p.variant == v
  }

  /** What a variant has got while the postings `ps` of `t` are added to the scores for `query`. */
  ghost predicate EntryScored(pr: Params, es: seq<Entry>, query: seq<Term>, t: Term, ps: seq<Posting>,
                              scores: map<VariantId, real>, e: Entry)
    requires GoodParams(pr) && e in es
  {
    && (e.variant in scores <==> Matches(query, e) || Seen(ps, e.variant))
    && (e.variant in scores ==>
          scores[e.variant]
          == TotalScore(pr, es, query, e) + if Seen(ps, e.variant) then TermScore(pr, es, t, e) else 0.0)
  }

  ghost predicate Scored(pr: Params, es: seq<Entry>, query: seq<Term>, t: Term, ps: seq<Posting>,
                         scores: map<VariantId, real>)
    requires GoodParams(pr)
  {
    && (forall e {:trigger EntryScored(pr, es, query, t, ps, scores, e)} | e in es ::
          EntryScored(pr, es, query, t, ps, scores, e))
    && (forall v | v in scores :: exists e :: e in es && e.variant == v)
  }

  lemma SameEntry(es: seq<Entry>, e: Entry, e': Entry)
    requires DistinctVariants(es) && e in es && e' in es && e.variant == e'.variant
    ensures e == e'
  {
  }

  lemma {:induction false} PostingsDistinct(es: seq<Entry>, t: Term)
    requires DistinctVariants(es)
    ensures forall i, j | 0 <= i < j < |Postings(es, t)| :: Postings(es, t)[i].variant != Postings(es, t)[j].variant
    ensures forall p | p in Postings(es, t) :: exists e :: e in es && e.variant == p.variant
  {
    if es != [] {
      FrontDistinct(es);
      PostingsDistinct(es[..|es| - 1], t);
      assert es == es[..|es| - 1] + [es[|es| - 1]];
    }
  }

  /** The entry behind a posting: it has the term as often as the posting says. */
  lemma EntryOf(es: seq<Entry>, t: Term, p: Posting) returns (e: Entry)
    requires DistinctVariants(es) && p in Postings(es, t)
    ensures e in es && e.variant == p.variant && t in e.tokens && Count(e.tokens, t) == p.termFreq
    ensures e.variant in Lengths(es) && Lengths(es)[e.variant] == |e.tokens|
  {
    PostingIsOf(es, t, p);
    e :| e in es && t in e.tokens && e.variant == p.variant && Count(e.tokens, t) == p.termFreq;
    LengthOf(es, e);
  }

  /** A score added; a missing one is zero. */
  function AddTo(scores: map<VariantId, real>, v: VariantId, score: real): map<VariantId, real> {
    scores[v := (if v in scores then scores[v] else 0.0) + score]
  }

  lemma ScoredOnward(pr: Params, es: seq<Entry>, query: seq<Term>, t: Term, ps: seq<Posting>,
                     scores: map<VariantId, real>, p: Posting, e: Entry)
    requires GoodParams(pr) && DistinctVariants(es) && Scored(pr, es, query, t, ps, scores)
    requires e in es && e.variant == p.variant && !Seen(ps, p.variant)
    ensures Scored(pr, es, query, t, ps + [p], AddTo(scores, p.variant, TermScore(pr, es, t, e)))
  {
    var scores' := AddTo(scores, p.variant, TermScore(pr, es, t, e));
    forall e' | e' in es ensures EntryScored(pr, es, query, t, ps + [p], scores', e') {
      assert EntryScored(pr, es, query, t, ps, scores, e');
      SeenAppend(ps, p, e'.variant);
      if e'.variant == p.variant {
        SameEntry(es, e, e');
        ScorePositive(pr, es, query, e);
      }
    }
  }

  lemma SeenAppend(ps: seq<Posting>, p: Posting, v: VariantId)
    ensures Seen(ps + [p], v) <==> Seen(ps, v) || p.variant == v
  {
    assert p in ps + [p];
    forall q | q in ps ensures q in ps + [p] {
    }
  }

  /** With all postings of the term added, the scores are those for the longer query. */
  lemma ScoredTerm(pr: Params, es: seq<Entry>, query: seq<Term>, t: Term, scores: map<VariantId, real>)
    requires GoodParams(pr) && DistinctVariants(es) && Scored(pr, es, query, t, Postings(es, t), scores)
    ensures forall t' :: Scored(pr, es, query + [t], t', [], scores)
  {
    forall t', e | e in es ensures EntryScored(pr, es, query + [t], t', [], scores, e) {
      assert EntryScored(pr, es, query, t, Postings(es, t), scores, e);
      SeenIff(es, t, e);
      assert (query + [t])[..|query|] == query;
      assert Matches(query + [t], e) <==> Matches(query, e) || t in e.tokens;
    }
  }

  lemma SeenIff(es: seq<Entry>, t: Term, e: Entry)
    requires DistinctVariants(es) && e in es
    ensures Seen(Postings(es, t), e.variant) <==> t in e.tokens
  {
    PostingsBound(es, t);
    if p :| p in Postings(es, t) && p.variant == e.variant {
      var e' := EntryOf(es, t, p);
      SameEntry(es, e, e');
    }
  }

  lemma ScoredNext(pr: Params, es: seq<Entry>, query: seq<Term>, t: Term, j: nat, scores: map<VariantId, real>,
                   e: Entry, score: real)
    requires GoodParams(pr) && DistinctVariants(es) && j < |Postings(es, t)|
    requires Scored(pr, es, query, t, Postings(es, t)[..j], scores)
    requires e in es && e.variant == Postings(es, t)[j].variant && score == TermScore(pr, es, t, e)
    ensures Scored(pr, es, query, t, Postings(es, t)[..j + 1], AddTo(scores, e.variant, score))
  {
    var ps := Postings(es, t);
    PostingsDistinct(es, t);
    assert ps[..j + 1] == ps[..j] + [ps[j]];
    ScoredOnward(pr, es, query, t, ps[..j], scores, ps[j], e);
  }

  method ScorePosting(r: Retriever, ln: real -> real, t: Term, p: Posting, ghost es: seq<Entry>)
    returns (score: real, ghost e: Entry)
    requires r.View() == Build(es) && DistinctVariants(es) && GoodParams(Params(r.k1, r.b, ln))
    requires t in r.index && p in r.index[t]
    ensures e in es && e.variant == p.variant && score == TermScore(Params(r.k1, r.b, ln), es, t, e)
  {
    e := EntryOf(es, t, p);
    Scorable(es, t, e);
    score := Weight(Params(r.k1, r.b, ln), r.docCount, |r.index[t]|, r.docLen[p.variant], r.avgDL, p.termFreq);
  }

  method AddTerm(r: Retriever, ln: real -> real, t: Term, before: map<VariantId, real>, ghost es: seq<Entry>,
                 ghost query: seq<Term>)
    returns (scores: map<VariantId, real>)
    requires r.View() == Build(es) && DistinctVariants(es) && GoodParams(Params(r.k1, r.b, ln))
    requires Scored(Params(r.k1, r.b, ln), es, query, t, [], before)
    ensures Scored(Params(r.k1, r.b, ln), es, query, t, Postings(es, t), scores)
  {
    NoPostings(es, t);
    scores := before;
    if t !in r.index {
      return;
    }
    ghost var pr := Params(r.k1, r.b, ln);
    var ps := r.index[t];
    assert ps == Postings(es, t);
    for j := 0 to |ps|
      invariant Scored(pr, es, query, t, ps[..j], scores)
    {
      scores := AddPosting(r, ln, t, ps, j, scores, es, query);
    }
    assert ps[..|ps|] == ps;
  }

  method AddPosting(r: Retriever, ln: real -> real, t: Term, ps: seq<Posting>, j: nat, before: map<VariantId, real>,
                    ghost es: seq<Entry>, ghost query: seq<Term>)
    returns (scores: map<VariantId, real>)
    requires r.View() == Build(es) && DistinctVariants(es) && GoodParams(Params(r.k1, r.b, ln))
    requires ps == Postings(es, t) && j < |ps| && t in r.index
    requires Scored(Params(r.k1, r.b, ln), es, query, t, ps[..j], before)
    ensures Scored(Params(r.k1, r.b, ln), es, query, t, ps[..j + 1], scores)
  {
    var p := ps[j];
    ghost var pr := Params(r.k1, r.b, ln);
    var score;
    ghost var e;
    score, e := ScorePosting(r, ln, t, p, es);
    ScoredNext(pr, es, query, t, j, before, e, score);
    scores := AddTo(before, p.variant, score);
  }

  /** The scores of a query: exactly the variants with one of its terms, each with the sum of what its
      terms add, which is positive. */
  method Score(r: Retriever, ln: real -> real, query: string, ghost es: seq<Entry>)
    returns (scores: map<VariantId, real>)
    requires r.View() == Build(es) && DistinctVariants(es) && GoodParams(Params(r.k1, r.b, ln))
    ensures forall v :: v in scores <==> exists e :: e in es && e.variant == v && Matches(r.tokenize(query), e)
    ensures forall e | e in es && Matches(r.tokenize(query), e) ::
      e.variant in scores && scores[e.variant] == TotalScore(Params(r.k1, r.b, ln), es, r.tokenize(query), e) > 0.0
  {
    var terms := r.tokenize(query);
    scores := map[];
    if |terms| == 0 || r.docCount == 0 {
      return;
    }
    ghost var pr := Params(r.k1, r.b, ln);
    forall t ensures Scored(pr, es, [], t, [], scores) {
      StartScored(pr, es, t);
    }
    for i := 0 to |terms|
      invariant forall t :: Scored(pr, es, terms[..i], t, [], scores)
    {
      scores := AddTerm(r, ln, terms[i], scores, es, terms[..i]);
      ScoredTerm(pr, es, terms[..i], terms[i], scores);
      assert terms[..i + 1] == terms[..i] + [terms[i]];
    }
    assert terms[..|terms|] == terms;
    assert Scored(pr, es, terms, "", [], scores);
    ScoresExact(pr, es, terms, scores);
  }

  lemma ScoresExact(pr: Params, es: seq<Entry>, query: seq<Term>, scores: map<VariantId, real>)
    requires GoodParams(pr) && DistinctVariants(es) && Scored(pr, es, query, "", [], scores)
    ensures forall v :: v in scores <==> exists e :: e in es && e.variant == v && Matches(query, e)
    ensures forall e | e in es && Matches(query, e) ::
      e.variant in scores && scores[e.variant] == TotalScore(pr, es, query, e) > 0.0
  {
    forall e | e in es
      ensures e.variant in scores <==> Matches(query, e)
      ensures Matches(query, e) ==> scores[e.variant] == TotalScore(pr, es, query, e) > 0.0
    {
      assert EntryScored(pr, es, query, "", [], scores, e);
      ScorePositive(pr, es, query, e);
    }
  }

  lemma StartScored(pr: Params, es: seq<Entry>, t: Term)
    requires GoodParams(pr)
    ensures Scored(pr, es, [], t, [], map[])
  {
    forall e | e in es ensures EntryScored(pr, es, [], t, [], map[], e) {
    }
  }
}
