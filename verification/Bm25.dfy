/** The BM25 inverted index (rag/bm25retriever/retriever.go): its fields always are what building the
    index anew from the documents in it would give. */
module Bm25 {
  import opened Reals

  type VariantId = string
  type DocId = string
  type Term = string

  datatype Variant = Variant(id: VariantId, isText: bool, text: string)

  datatype Section = Section(heading: string, variants: seq<Variant>)

  datatype Document = Document(id: DocId, fingerprint: string, sections: seq<Section>)

  /** The tokenizer. */
  type Tokenizer = string -> seq<Term>

  datatype Posting = Posting(variant: VariantId, termFreq: nat)

  // ---- the index, built from its entries ----

  /** An indexed variant, with its document and its tokens. */
  datatype Entry = Entry(doc: DocId, variant: VariantId, tokens: seq<Term>)

  datatype IndexView = IndexView(
    index: map<Term, seq<Posting>>,
    docLen: map<VariantId, nat>,
    docVariants: map<DocId, seq<VariantId>>,
    docCount: int,
    avgDL: real)

  function Count(tokens: seq<Term>, t: Term): nat {
    if tokens == [] then 0
    else Count(tokens[..|tokens| - 1], t) + if tokens[|tokens| - 1] == t then 1 else 0
  }

  lemma {:induction false} CountPositive(tokens: seq<Term>, t: Term)
    ensures Count(tokens, t) > 0 <==> t in tokens
  {
    if tokens != [] {
      CountPositive(tokens[..|tokens| - 1], t);
      assert tokens == tokens[..|tokens| - 1] + [tokens[|tokens| - 1]];
    }
  }

  lemma {:induction false} CountIsMultiplicity(tokens: seq<Term>, t: Term)
    ensures Count(tokens, t) == multiset(tokens)[t]
  {
    if tokens != [] {
      CountIsMultiplicity(tokens[..|tokens| - 1], t);
      assert tokens == tokens[..|tokens| - 1] + [tokens[|tokens| - 1]];
    }
  }

  function PostingFor(e: Entry, t: Term): seq<Posting> {
    if t in e.tokens then [Posting(e.variant, Count(e.tokens, t))] else []
  }

  /** The postings of a term, in order of arrival. */
  function Postings(es: seq<Entry>, t: Term): seq<Posting> {
    if es == [] then [] else Postings(es[..|es| - 1], t) + PostingFor(es[|es| - 1], t)
  }

  function TermsOf(es: seq<Entry>): set<Term> {
    set e, t | e in es && t in e.tokens :: t
  }

  function IndexOf(es: seq<Entry>): map<Term, seq<Posting>> {
    map t | t in TermsOf(es) :: Postings(es, t)
  }

  function Lengths(es: seq<Entry>): map<VariantId, nat> {
    if es == [] then map[] else Lengths(es[..|es| - 1])[es[|es| - 1].variant := |es[|es| - 1].tokens|]
  }

  function VariantsOf(es: seq<Entry>, d: DocId): seq<VariantId> {
    if es == [] then []
    else
      var front, e := VariantsOf(es[..|es| - 1], d), es[|es| - 1];
      if e.doc == d then front + [e.variant] else front
  }

  function DocsOf(es: seq<Entry>): set<DocId> {
    set e | e in es :: e.doc
  }

  function ByDocument(es: seq<Entry>): map<DocId, seq<VariantId>> {
    map d | d in DocsOf(es) :: VariantsOf(es, d)
  }

  function TotalLength(es: seq<Entry>): nat {
    if es == [] then 0 else TotalLength(es[..|es| - 1]) + |es[|es| - 1].tokens|
  }

  function Average(es: seq<Entry>): real {
    if es == [] then 0.0 else TotalLength(es) as real / |es| as real
  }

  /** The index built from scratch. */
  function Build(es: seq<Entry>): IndexView {
    IndexView(IndexOf(es), Lengths(es), ByDocument(es), |es|, Average(es))
  }

  /** No variant is indexed twice. */
  ghost predicate DistinctVariants(es: seq<Entry>) {
    forall i, j | 0 <= i < j < |es| :: es[i].variant != es[j].variant
  }

  function Without(es: seq<Entry>, d: DocId): seq<Entry> {
    if es == [] then []
    else
      var front, e := Without(es[..|es| - 1], d), es[|es| - 1];
      if e.doc == d then front else front + [e]
  }

  lemma WithoutFacts(es: seq<Entry>, d: DocId)
    ensures |Without(es, d)| == |es| - |VariantsOf(es, d)|
    ensures forall e :: e in Without(es, d) <==> e in es && e.doc != d
    ensures DistinctVariants(es) ==> DistinctVariants(Without(es, d))
  {
    WithoutLength(es, d);
    WithoutMembers(es, d);
    if DistinctVariants(es) {
      WithoutDistinct(es, d);
    }
  }

  lemma {:induction false} WithoutLength(es: seq<Entry>, d: DocId)
    ensures |Without(es, d)| == |es| - |VariantsOf(es, d)|
  {
    if es != [] {
      WithoutLength(es[..|es| - 1], d);
    }
  }

  lemma {:induction false} WithoutMembers(es: seq<Entry>, d: DocId)
    ensures forall e :: e in Without(es, d) <==> e in es && e.doc != d
  {
    if es != [] {
      var front, last := es[..|es| - 1], es[|es| - 1];
      WithoutMembers(front, d);
      assert es == front + [last];
    }
  }

  lemma {:induction false} WithoutDistinct(es: seq<Entry>, d: DocId)
    requires DistinctVariants(es)
    ensures DistinctVariants(Without(es, d))
  {
    if es != [] {
      var front := es[..|es| - 1];
      FrontDistinct(es);
      WithoutDistinct(front, d);
      WithoutMembers(front, d);
    }
  }

  lemma {:induction false} VariantsFacts(es: seq<Entry>, d: DocId)
    ensures forall v | v in VariantsOf(es, d) :: exists e :: e in es && e.doc == d && e.variant == v
    ensures forall e | e in es && e.doc == d :: e.variant in VariantsOf(es, d)
  {
    if es != [] {
      var front, last := es[..|es| - 1], es[|es| - 1];
      VariantsFacts(front, d);
      assert es == front + [last];
    }
  }

  lemma FrontDistinct(es: seq<Entry>)
    requires es != [] && DistinctVariants(es)
    ensures DistinctVariants(es[..|es| - 1])
    ensures forall e | e in es[..|es| - 1] :: e.variant != es[|es| - 1].variant
  {
  }

  // ---- adding an entry ----

  lemma EntriesAppend(es: seq<Entry>, e: Entry)
    ensures forall t :: Postings(es + [e], t) == Postings(es, t) + PostingFor(e, t)
    ensures forall d ::
      VariantsOf(es + [e], d) == if e.doc == d then VariantsOf(es, d) + [e.variant] else VariantsOf(es, d)
    ensures Lengths(es + [e]) == Lengths(es)[e.variant := |e.tokens|]
    ensures TotalLength(es + [e]) == TotalLength(es) + |e.tokens|
  {
    assert (es + [e])[..|es|] == es;
  }

  lemma {:induction false} NoPostings(es: seq<Entry>, t: Term)
    ensures t in TermsOf(es) <==> Postings(es, t) != []
  {
    if es != [] {
      NoPostings(es[..|es| - 1], t);
      assert es == es[..|es| - 1] + [es[|es| - 1]];
    }
  }

  /** The index while the terms of a new entry are being added: `todo` are still missing. */
  ghost function Adding(es: seq<Entry>, e: Entry, todo: set<Term>): map<Term, seq<Posting>> {
    map t | t in TermsOf(es) + (Members(e.tokens) - todo) ::
      if t in todo || t !in e.tokens then Postings(es, t) else Postings(es, t) + PostingFor(e, t)
  }

  function Members(tokens: seq<Term>): set<Term> {
    set t | t in tokens
  }

  lemma AddingStarts(es: seq<Entry>, e: Entry)
    ensures Adding(es, e, Members(e.tokens)) == IndexOf(es)
  {
  }

  lemma AddingEnds(es: seq<Entry>, e: Entry)
    ensures Adding(es, e, {}) == IndexOf(es + [e])
  {
    EntriesAppend(es, e);
    assert TermsOf(es + [e]) == TermsOf(es) + Members(e.tokens);
    forall t | t !in e.tokens ensures Postings(es, t) + PostingFor(e, t) == Postings(es, t) {
    }
  }

  lemma AddingStep(es: seq<Entry>, e: Entry, todo: set<Term>, t: Term)
    requires t in todo && todo <= Members(e.tokens)
    ensures var index := Adding(es, e, todo);
      Adding(es, e, todo - {t})
      == index[t := (if t in index then index[t] else []) + [Posting(e.variant, Count(e.tokens, t))]]
  {
    NoPostings(es, t);
  }

  lemma ByDocumentAppend(es: seq<Entry>, e: Entry)
    ensures var m := ByDocument(es);
      ByDocument(es + [e]) == m[e.doc := (if e.doc in m then m[e.doc] else []) + [e.variant]]
  {
    EntriesAppend(es, e);
    DocsAppend(es, e);
    NoVariants(es, e.doc);
  }

  lemma DocsAppend(es: seq<Entry>, e: Entry)
    ensures DocsOf(es + [e]) == DocsOf(es) + {e.doc}
  {
  }

  lemma {:induction false} NoVariants(es: seq<Entry>, d: DocId)
    ensures d in DocsOf(es) <==> VariantsOf(es, d) != []
  {
    if es != [] {
      NoVariants(es[..|es| - 1], d);
      assert es == es[..|es| - 1] + [es[|es| - 1]];
    }
  }

  // ---- removing a document ----

  /** `vs` are the variants of the document `d`. */
  ghost predicate Separates(es: seq<Entry>, d: DocId, vs: set<VariantId>) {
    forall e | e in es :: e.variant in vs <==> e.doc == d
  }

  function Dropped(ps: seq<Posting>, vs: set<VariantId>): seq<Posting> {
    if ps == [] then []
    else
      var front, p := Dropped(ps[..|ps| - 1], vs), ps[|ps| - 1];
      if p.variant in vs then front else front + [p]
  }

  lemma {:induction false} PostingsWithout(es: seq<Entry>, d: DocId, vs: set<VariantId>, t: Term)
    requires Separates(es, d, vs)
    ensures Dropped(Postings(es, t), vs) == Postings(Without(es, d), t)
  {
    if es != [] {
      var front, e := es[..|es| - 1], es[|es| - 1];
      PostingsWithout(front, d, vs, t);
      DroppedAppend(Postings(front, t), PostingFor(e, t), vs);
      EntriesAppend(Without(front, d), e);
      assert e in es;
    }
  }

  lemma DroppedAppend(ps: seq<Posting>, qs: seq<Posting>, vs: set<VariantId>)
    requires |qs| <= 1
    ensures Dropped(ps + qs, vs) == if qs != [] && qs[0].variant in vs then Dropped(ps, vs) else Dropped(ps, vs) + qs
  {
    if qs == [] {
      assert ps + qs == ps;
    } else {
      assert (ps + qs)[..|ps|] == ps;
    }
  }

  lemma SubtractUpdate(m: map<VariantId, nat>, v: VariantId, n: nat, vs: set<VariantId>)
    ensures m[v := n] - vs == if v in vs then m - vs else (m - vs)[v := n]
  {
  }

  lemma {:induction false} LengthsWithout(es: seq<Entry>, d: DocId, vs: set<VariantId>)
    requires Separates(es, d, vs)
    ensures Lengths(Without(es, d)) == Lengths(es) - vs
  {
    if es != [] {
      var front, e := es[..|es| - 1], es[|es| - 1];
      LengthsWithout(front, d, vs);
      EntriesAppend(Without(front, d), e);
      SubtractUpdate(Lengths(front), e.variant, |e.tokens|, vs);
      assert e in es;
    }
  }

  lemma {:induction false} VariantsWithout(es: seq<Entry>, d: DocId, d': DocId)
    ensures VariantsOf(Without(es, d), d') == if d' == d then [] else VariantsOf(es, d')
  {
    if es != [] {
      VariantsWithout(es[..|es| - 1], d, d');
      EntriesAppend(Without(es[..|es| - 1], d), es[|es| - 1]);
    }
  }

  lemma ByDocumentWithout(es: seq<Entry>, d: DocId)
    ensures ByDocument(Without(es, d)) == ByDocument(es) - {d}
  {
    forall d' ensures d' in DocsOf(Without(es, d)) <==> d' in DocsOf(es) && d' != d {
      VariantsWithout(es, d, d');
      NoVariants(es, d');
      NoVariants(Without(es, d), d');
    }
    forall d' ensures d' != d ==> VariantsOf(Without(es, d), d') == VariantsOf(es, d') {
      VariantsWithout(es, d, d');
    }
  }

  lemma VariantsSeparate(es: seq<Entry>, d: DocId)
    requires DistinctVariants(es)
    ensures Separates(es, d, set v | v in VariantsOf(es, d))
  {
    VariantsFacts(es, d);
  }

  /** Removing a document right after it was indexed gives the earlier index back. */
  lemma {:induction false} RemoveUndoesIndex(es: seq<Entry>, new_: seq<Entry>, d: DocId)
    requires forall e | e in es :: e.doc != d
    requires forall e | e in new_ :: e.doc == d
    ensures Without(es + new_, d) == es
  {
    if new_ == [] {
      assert es + new_ == es;
      NothingRemoved(es, d);
    } else {
      assert (es + new_)[..|es + new_| - 1] == es + new_[..|new_| - 1];
      RemoveUndoesIndex(es, new_[..|new_| - 1], d);
    }
  }

  lemma {:induction false} NothingRemoved(es: seq<Entry>, d: DocId)
    requires forall e | e in es :: e.doc != d
    ensures Without(es, d) == es
  {
    if es != [] {
      NothingRemoved(es[..|es| - 1], d);
      assert es[|es| - 1] in es;
    }
  }

  /** The document count is the number of lengths kept. */
  lemma {:induction false} CountIsLengths(es: seq<Entry>)
    requires DistinctVariants(es)
    ensures |Lengths(es)| == |es|
    ensures forall v :: v in Lengths(es) <==> exists e :: e in es && e.variant == v
  {
    if es != [] {
      var front, last := es[..|es| - 1], es[|es| - 1];
      FrontDistinct(es);
      CountIsLengths(front);
      assert es == front + [last];
      assert last.variant !in Lengths(front);
    }
  }

  /** What is indexed of a variant knows its length. */
  lemma {:induction false} LengthOf(es: seq<Entry>, e: Entry)
    requires DistinctVariants(es) && e in es
    ensures e.variant in Lengths(es) && Lengths(es)[e.variant] == |e.tokens|
  {
    FrontDistinct(es);
    if e != es[|es| - 1] {
      LengthOf(es[..|es| - 1], e);
    }
  }

  // ---- the entries of a document ----

  predicate Indexable(v: Variant) {
    v.isText && v.text != ""
  }

  function VariantEntries(d: DocId, vs: seq<Variant>, tokenize: Tokenizer): seq<Entry> {
    if vs == [] then []
    else
      var front, v := VariantEntries(d, vs[..|vs| - 1], tokenize), vs[|vs| - 1];
      if Indexable(v) then front + [Entry(d, v.id, tokenize(v.text))] else front
  }

  function SectionEntries(d: DocId, sections: seq<Section>, tokenize: Tokenizer): seq<Entry> {
    if sections == [] then []
    else
      SectionEntries(d, sections[..|sections| - 1], tokenize) +
      VariantEntries(d, sections[|sections| - 1].variants, tokenize)
  }

  function EntriesOf(doc: Document, tokenize: Tokenizer): seq<Entry> {
    SectionEntries(doc.id, doc.sections, tokenize)
  }

  lemma {:induction false} VariantEntriesExactly(d: DocId, vs: seq<Variant>, tokenize: Tokenizer)
    ensures forall e :: e in VariantEntries(d, vs, tokenize) <==>
      exists v :: v in vs && v.isText && v.text != "" && e == Entry(d, v.id, tokenize(v.text))
  {
    if vs != [] {
      VariantEntriesExactly(d, vs[..|vs| - 1], tokenize);
      assert vs == vs[..|vs| - 1] + [vs[|vs| - 1]];
    }
  }

  lemma {:induction false} SectionEntriesExactly(d: DocId, sections: seq<Section>, tokenize: Tokenizer)
    ensures forall e :: e in SectionEntries(d, sections, tokenize) <==>
      exists s :: s in sections && e in VariantEntries(d, s.variants, tokenize)
  {
    if sections != [] {
      SectionEntriesExactly(d, sections[..|sections| - 1], tokenize);
      assert sections == sections[..|sections| - 1] + [sections[|sections| - 1]];
    }
  }

  /** The entries of a document are its text variants that are not empty, with their tokens. */
  lemma EntriesExactly(doc: Document, tokenize: Tokenizer)
    ensures forall e :: e in EntriesOf(doc, tokenize) <==>
      exists s, v :: s in doc.sections && v in s.variants && v.isText && v.text != ""
                     && e == Entry(doc.id, v.id, tokenize(v.text))
  {
    SectionEntriesExactly(doc.id, doc.sections, tokenize);
    forall s | s in doc.sections
      ensures forall e :: e in VariantEntries(doc.id, s.variants, tokenize) <==>
        exists v :: v in s.variants && v.isText && v.text != "" && e == Entry(doc.id, v.id, tokenize(v.text))
    {
      VariantEntriesExactly(doc.id, s.variants, tokenize);
    }
  }

  // ---- average length ----

  lemma {:induction false} TotalLengthAddsUp(a: seq<Entry>, b: seq<Entry>)
    ensures TotalLength(a + b) == TotalLength(a) + TotalLength(b)
    ensures forall e: Entry :: TotalLength([e]) == |e.tokens|
  {
    forall e: Entry ensures TotalLength([e]) == |e.tokens| {
      assert [e][..0] == [];
    }
    if b == [] {
      assert a + b == a;
    } else {
      TotalLengthAddsUp(a, b[..|b| - 1]);
      assert (a + b)[..|a + b| - 1] == a + b[..|b| - 1];
    }
  }

  lemma {:induction false} TotalLengthBounds(es: seq<Entry>, lo: nat, hi: nat)
    requires forall e | e in es :: lo <= |e.tokens| <= hi
    ensures lo * |es| <= TotalLength(es) <= hi * |es|
  {
    if es != [] {
      TotalLengthBounds(es[..|es| - 1], lo, hi);
      assert es[|es| - 1] in es;
      assert lo * |es| == lo * (|es| - 1) + lo && hi * |es| == hi * (|es| - 1) + hi;
    }
  }

  lemma MeanIsBetween(x: nat, n: nat, lo: nat, hi: nat)
    requires n > 0 && lo * n <= x <= hi * n
    ensures lo as real <= x as real / n as real <= hi as real
    ensures x as real / n as real * n as real == x as real
  {
    QuotientOrder(lo as real, 1.0, x as real, n as real);
    QuotientOrder(x as real, n as real, hi as real, 1.0);
    assert (lo * n) as real == lo as real * n as real;
    assert (hi * n) as real == hi as real * n as real;
  }

  /** The average lies between any bounds of the lengths, so it is the common length if there is one. */
  lemma AverageIsBetween(es: seq<Entry>, lo: nat, hi: nat)
    requires es != [] && forall e | e in es :: lo <= |e.tokens| <= hi
    ensures lo as real <= Average(es) <= hi as real
    ensures Average(es) == TotalLength(es) as real / |es| as real
  {
    TotalLengthBounds(es, lo, hi);
    MeanIsBetween(TotalLength(es), |es|, lo, hi);
  }

  /** The tokens of the variants in `todo`. */
  ghost function LengthIn(es: seq<Entry>, todo: set<VariantId>): nat {
    if es == [] then 0
    else LengthIn(es[..|es| - 1], todo) + if es[|es| - 1].variant in todo then |es[|es| - 1].tokens| else 0
  }

  lemma {:induction false} LengthInAll(es: seq<Entry>, todo: set<VariantId>)
    ensures (forall e | e in es :: e.variant in todo) ==> LengthIn(es, todo) == TotalLength(es)
    ensures (forall e | e in es :: e.variant !in todo) ==> LengthIn(es, todo) == 0
  {
    if es != [] {
      LengthInAll(es[..|es| - 1], todo);
      assert es[|es| - 1] in es;
    }
  }

  lemma {:induction false} LengthInStep(es: seq<Entry>, todo: set<VariantId>, v: VariantId)
    requires DistinctVariants(es) && v in todo
    ensures LengthIn(es, todo) == LengthIn(es, todo - {v}) + if v in Lengths(es) then Lengths(es)[v] else 0
  {
    if es != [] {
      FrontDistinct(es);
      LengthInStep(es[..|es| - 1], todo, v);
      CountIsLengths(es[..|es| - 1]);
    }
  }

  // ---- the retriever ----

  class Retriever {
    var index: map<Term, seq<Posting>>
    var docLen: map<VariantId, nat>
    var docVariants: map<DocId, seq<VariantId>>
    var docCount: int
    var avgDL: real
    const tokenize: Tokenizer
    const k1: real
    const b: real

    ghost function View(): IndexView
      reads this
    {
      IndexView(index, docLen, docVariants, docCount, avgDL)
    }

    constructor (tokenize: Tokenizer, k1: real, b: real)
      ensures View() == Build([]) && this.tokenize == tokenize && this.k1 == k1 && this.b == b
    {
      index, docLen, docVariants, docCount, avgDL := map[], map[], map[], 0, 0.0;
      this.tokenize, this.k1, this.b := tokenize, k1, b;
    }

    method RecomputeAvgDL(ghost es: seq<Entry>)
      requires DistinctVariants(es) && docLen == Lengths(es) && docCount == |es|
      modifies this`avgDL
      ensures avgDL == Average(es)
    {
      if docCount == 0 {
        avgDL := 0.0;
        return;
      }
      var total := 0.0;
      var todo := docLen.Keys;
      CountIsLengths(es);
      LengthInAll(es, todo);
      while todo != {}
        invariant todo <= docLen.Keys && total + LengthIn(es, todo) as real == TotalLength(es) as real
        decreases todo
      {
        var v :| v in todo;
        LengthInStep(es, todo, v);
        total := total + docLen[v] as real;
        todo := todo - {v};
      }
      LengthInAll(es, todo);
      avgDL := total / docCount as real;
    }

    /** One posting for every term of the variant; the order of the terms is left open. */
    method AddPostings(v: VariantId, tokens: seq<Term>, ghost es: seq<Entry>, ghost e: Entry)
      requires index == IndexOf(es) && e.variant == v && e.tokens == tokens
      modifies this`index
      ensures index == IndexOf(es + [e])
    {
      var tf := CountTerms(tokens);
      AddingStarts(es, e);
      var todo := tf.Keys;
      while todo != {}
        invariant todo <= tf.Keys && index == Adding(es, e, todo)
        decreases todo
      {
        var t :| t in todo;
        AddingStep(es, e, todo, t);
        index := index[t := (if t in index then index[t] else []) + [Posting(v, tf[t])]];
        todo := todo - {t};
      }
      AddingEnds(es, e);
    }

    /** One variant: its postings, its length, its document. */
    method IndexVariant(d: DocId, v: Variant, ghost es: seq<Entry>)
      requires Holds(es)
      modifies this`index, this`docLen, this`docVariants, this`docCount
      ensures Holds(es + [Entry(d, v.id, tokenize(v.text))])
    {
      var tokens := tokenize(v.text);
      ghost var e := Entry(d, v.id, tokens);
      AddPostings(v.id, tokens, es, e);
      EntriesAppend(es, e);
      ByDocumentAppend(es, e);
      docLen := docLen[v.id := |tokens|];
      docVariants := docVariants[d := (if d in docVariants then docVariants[d] else []) + [v.id]];
      docCount := docCount + 1;
    }

    /** All but the average length are those of `es`. */
    ghost predicate Holds(es: seq<Entry>)
      reads this
    {
      index == IndexOf(es) && docLen == Lengths(es) && docVariants == ByDocument(es) && docCount == |es|
    }

    method IndexVariants(d: DocId, vs: seq<Variant>, ghost es: seq<Entry>)
      requires Holds(es)
      modifies this`index, this`docLen, this`docVariants, this`docCount
      ensures Holds(es + VariantEntries(d, vs, tokenize))
    {
      assert es + [] == es;
      for i := 0 to |vs|
        invariant Holds(es + VariantEntries(d, vs[..i], tokenize))
      {
        assert vs[..i + 1][..i] == vs[..i];
        if !vs[i].isText || vs[i].text == "" {
          continue;
        }
        ghost var es1 := VariantEntries(d, vs[..i], tokenize);
        IndexVariant(d, vs[i], es + es1);
        assert es + es1 + [Entry(d, vs[i].id, tokenize(vs[i].text))] == es + VariantEntries(d, vs[..i + 1], tokenize);
      }
      assert vs[..|vs|] == vs;
    }

    method IndexSections(d: DocId, sections: seq<Section>, ghost es: seq<Entry>)
      requires Holds(es)
      modifies this`index, this`docLen, this`docVariants, this`docCount
      ensures Holds(es + SectionEntries(d, sections, tokenize))
    {
      assert es + [] == es;
      for i := 0 to |sections|
        invariant Holds(es + SectionEntries(d, sections[..i], tokenize))
      {
        assert sections[..i + 1][..i] == sections[..i];
        ghost var es1 := SectionEntries(d, sections[..i], tokenize);
        ghost var es2 := VariantEntries(d, sections[i].variants, tokenize);
        IndexVariants(d, sections[i].variants, es + es1);
        assert es + es1 + es2 == es + (es1 + es2);
      }
      assert sections[..|sections|] == sections;
    }

    /** Index adds the entries of the document to those before. */
    method Index(doc: Document, ghost es: seq<Entry>)
      requires View() == Build(es) && DistinctVariants(es + EntriesOf(doc, tokenize))
      modifies this
      ensures View() == Build(es + EntriesOf(doc, tokenize))
    {
      IndexSections(doc.id, doc.sections, es);
      RecomputeAvgDL(es + EntriesOf(doc, tokenize));
    }

    /** Filters the postings of every term in place, and drops the terms without any. */
    method RemovePostings(vs: set<VariantId>, ghost es: seq<Entry>, ghost d: DocId)
      requires index == IndexOf(es) && Separates(es, d, vs)
      modifies this`index
      ensures index == IndexOf(Without(es, d))
    {
      ghost var before, after := IndexOf(es), IndexOf(Without(es, d));
      var todo := index.Keys;
      FewerTerms(es, d);
      MixedEnds(before, after);
      while todo != {}
        invariant todo <= before.Keys && index == Mixed(before, after, todo)
        decreases todo
      {
        var t :| t in todo;
        MixedStep(before, after, todo, t);
        RemovingTerm(es, d, vs, t);
        var filtered := FilterPostings(index[t], vs);
        index := if |filtered| == 0 then index - {t} else index[t := filtered];
        todo := todo - {t};
      }
    }

    method ForgetLengths(variants: seq<VariantId>)
      modifies this`docLen, this`docCount
      ensures docLen == old(docLen) - (set v | v in variants) && docCount == old(docCount) - |variants|
    {
      for i := 0 to |variants|
        invariant docLen == old(docLen) - (set v | v in variants[..i]) && docCount == old(docCount) - i
      {
        assert variants[..i + 1] == variants[..i] + [variants[i]];
        docLen := docLen - {variants[i]};
        docCount := docCount - 1;
      }
      assert variants[..|variants|] == variants;
    }

    /** Remove leaves the entries of the other documents. */
    method Remove(d: DocId, ghost es: seq<Entry>)
      requires View() == Build(es) && DistinctVariants(es)
      modifies this
      ensures View() == Build(Without(es, d))
    {
      NoVariants(es, d);
      WithoutFacts(es, d);
      if d !in docVariants {
        NothingRemoved(es, d);
        return;
      }
      var variants := docVariants[d];
      var variantSet := set v | v in variants;
      VariantsSeparate(es, d);
      RemovePostings(variantSet, es, d);
      LengthsWithout(es, d, variantSet);
      ForgetLengths(variants);
      ByDocumentWithout(es, d);
      docVariants := docVariants - {d};
      RecomputeAvgDL(Without(es, d));
    }
  }

  method FilterPostings(ps: seq<Posting>, vs: set<VariantId>) returns (filtered: seq<Posting>)
    ensures filtered == Dropped(ps, vs)
  {
    filtered := [];
    for i := 0 to |ps|
      invariant filtered == Dropped(ps[..i], vs)
    {
      assert ps[..i + 1][..i] == ps[..i];
      if ps[i].variant !in vs {
        filtered := filtered + [ps[i]];
      }
    }
    assert ps[..|ps|] == ps;
  }

  /** The index while the terms are filtered: those in `todo` are as in `a`, the others as in `b`. */
  ghost function Mixed(a: map<Term, seq<Posting>>, b: map<Term, seq<Posting>>, todo: set<Term>)
    : map<Term, seq<Posting>>
  {
    map t | t in a.Keys && (t in todo || t in b) :: if t in todo then a[t] else b[t]
  }

  lemma MixedStep(a: map<Term, seq<Posting>>, b: map<Term, seq<Posting>>, todo: set<Term>, t: Term)
    requires t in todo && t in a
    ensures t in Mixed(a, b, todo) && Mixed(a, b, todo)[t] == a[t]
    ensures Mixed(a, b, todo - {t}) == if t in b then Mixed(a, b, todo)[t := b[t]] else Mixed(a, b, todo) - {t}
  {
  }

  lemma MixedEnds(a: map<Term, seq<Posting>>, b: map<Term, seq<Posting>>)
    requires b.Keys <= a.Keys
    ensures Mixed(a, b, a.Keys) == a && Mixed(a, b, {}) == b
  {
  }

  /** What is left of the postings of one term. */
  lemma RemovingTerm(es: seq<Entry>, d: DocId, vs: set<VariantId>, t: Term)
    requires Separates(es, d, vs) && t in TermsOf(es)
    ensures var filtered := Dropped(Postings(es, t), vs);
      if t in IndexOf(Without(es, d)) then filtered == IndexOf(Without(es, d))[t] != [] else filtered == []
  {
    PostingsWithout(es, d, vs, t);
    NoPostings(Without(es, d), t);
  }

  lemma FewerTerms(es: seq<Entry>, d: DocId)
    ensures IndexOf(Without(es, d)).Keys <= IndexOf(es).Keys
  {
    WithoutFacts(es, d);
  }

  method CountTerms(tokens: seq<Term>) returns (tf: map<Term, nat>)
    ensures tf == map t | t in Members(tokens) :: Count(tokens, t)
  {
    tf := map[];
    for i := 0 to |tokens|
      invariant tf == map t | t in Members(tokens[..i]) :: Count(tokens[..i], t)
    {
      assert tokens[..i + 1] == tokens[..i] + [tokens[i]];
      CountPositive(tokens[..i], tokens[i]);
      tf := tf[tokens[i] := (if tokens[i] in tf then tf[tokens[i]] else 0) + 1];
    }
    assert tokens[..|tokens|] == tokens;
  }
}
