/** The in-memory store and the ingest pipeline that keeps a BM25 index beside it
    (rag/memstore/store.go, rag/internal/pipeline/pipeline.go). */
module RagPipeline {
  import opened Messages
  import opened Bm25

  // ---- the store ----

  type Data = string

  datatype StoreView = StoreView(docs: map<DocId, Document>, fingerprints: map<string, DocId>,
                                 originals: map<DocId, Data>)

  function Created(s: StoreView, doc: Document): StoreView {
    s.(docs := s.docs[doc.id := doc],
       fingerprints := if doc.fingerprint != "" then s.fingerprints[doc.fingerprint := doc.id] else s.fingerprints)
  }

  function Deleted(s: StoreView, d: DocId): StoreView {
    if d !in s.docs then s
    else StoreView(s.docs - {d}, s.fingerprints - {s.docs[d].fingerprint}, s.originals - {d})
  }

  /** A fingerprint may still point to a document that is gone; that is no document. */
  function Found(s: StoreView, fingerprint: string): Option<Document> {
    if fingerprint in s.fingerprints && s.fingerprints[fingerprint] in s.docs
    then Some(s.docs[s.fingerprints[fingerprint]]) else None
  }

  function SectionVariants(sections: seq<Section>): seq<Variant> {
    if sections == [] then [] else SectionVariants(sections[..|sections| - 1]) + sections[|sections| - 1].variants
  }

  /** The document has a variant with this identifier. */
  ghost predicate HasVariant(doc: Document, id: VariantId) {
    exists v :: v in SectionVariants(doc.sections) && v.id == id
  }

  /** A variant, and the document and section it stands in. */
  datatype Hit = Hit(variant: Variant, doc: DocId, section: Section)

  predicate IsHit(section: Section, v: Variant, id: VariantId) {
    v in section.variants && v.id == id
  }

  class Store {
    var docs: map<DocId, Document>
    var fingerprints: map<string, DocId>
    var originals: map<DocId, Data>

    ghost function View(): StoreView
      reads this
    {
      StoreView(docs, fingerprints, originals)
    }

    constructor ()
      ensures View() == StoreView(map[], map[], map[])
    {
      docs, fingerprints, originals := map[], map[], map[];
    }

    method CreateDocument(doc: Document)
      modifies this
      ensures View() == Created(old(View()), doc)
    {
      docs := docs[doc.id := doc];
      if doc.fingerprint != "" {
        fingerprints := fingerprints[doc.fingerprint := doc.id];
      }
    }

    method FindByFingerprint(fingerprint: string) returns (doc: Option<Document>)
      ensures doc == Found(View(), fingerprint)
    {
      if fingerprint !in fingerprints || fingerprints[fingerprint] !in docs {
        return None;
      }
      return Some(docs[fingerprints[fingerprint]]);
    }

    method DeleteDocument(d: DocId)
      modifies this
      ensures View() == Deleted(old(View()), d)
    {
      if d in docs {
        fingerprints := fingerprints - {docs[d].fingerprint};
        docs := docs - {d};
        originals := originals - {d};
      }
    }

    method StoreOriginal(d: DocId, data: Data)
      modifies this
      ensures View() == old(View()).(originals := old(originals)[d := data])
    {
      originals := originals[d := data];
    }

    /** Searches all documents, in no particular order; finds the variant with its provenance. */
    method GetVariant(id: VariantId) returns (r: Option<Hit>)
      ensures match r
        case Some(hit) =>
          hit.doc in docs && hit.section in docs[hit.doc].sections && IsHit(hit.section, hit.variant, id)
        case None => forall d | d in docs :: !HasVariant(docs[d], id)
    {
      var todo := docs.Keys;
      while todo != {}
        invariant todo <= docs.Keys && forall d | d in docs && d !in todo :: !HasVariant(docs[d], id)
        decreases todo
      {
        var d :| d in todo;
        var found := FindIn(docs[d], id);
        if found.Some? {
          return Some(Hit(found.value.0, d, found.value.1));
        }
        todo := todo - {d};
      }
      return None;
    }
  }

  method FindIn(doc: Document, id: VariantId) returns (r: Option<(Variant, Section)>)
    ensures match r
      case Some((v, section)) => section in doc.sections && IsHit(section, v, id)
      case None => !HasVariant(doc, id)
  {
    for i := 0 to |doc.sections|
      invariant forall v | v in SectionVariants(doc.sections[..i]) :: v.id != id
    {
      assert doc.sections[..i + 1][..i] == doc.sections[..i];
      var vs := doc.sections[i].variants;
      for j := 0 to |vs|
        invariant forall k | 0 <= k < j :: vs[k].id != id
      {
        if vs[j].id == id {
          return Some((vs[j], doc.sections[i]));
        }
      }
    }
    assert doc.sections[..|doc.sections|] == doc.sections;
    return None;
  }

  // ---- agreement of store and index ----

  /** The index holds exactly the text variants of the stored documents, and every stored document is
      the one its fingerprint leads to. */
  ghost predicate Agrees(s: StoreView, es: seq<Entry>, tokenize: Tokenizer) {
    && DistinctVariants(es)
    && (forall d | d in s.docs :: s.docs[d].id == d)
    && (forall e | e in es :: e.doc in s.docs && e in EntriesOf(s.docs[e.doc], tokenize))
    && (forall d, e | d in s.docs && e in EntriesOf(s.docs[d], tokenize) :: e in es)
  }

  ghost predicate FingerprintsOk(s: StoreView) {
    && (forall f | f in s.fingerprints :: s.fingerprints[f] in s.docs && s.docs[s.fingerprints[f]].fingerprint == f)
    && (forall d | d in s.docs :: s.docs[d].fingerprint in s.fingerprints && s.fingerprints[s.docs[d].fingerprint] == d)
  }

  lemma {:induction false} EntriesAreOf(d: DocId, sections: seq<Section>, tokenize: Tokenizer)
    ensures forall e | e in SectionEntries(d, sections, tokenize) ::
      e.doc == d && exists v :: v in SectionVariants(sections) && v.id == e.variant && Indexable(v)
  {
    if sections != [] {
      EntriesAreOf(d, sections[..|sections| - 1], tokenize);
      VariantEntriesAreOf(d, sections[|sections| - 1].variants, tokenize);
    }
  }

  lemma {:induction false} VariantEntriesAreOf(d: DocId, vs: seq<Variant>, tokenize: Tokenizer)
    ensures forall e | e in VariantEntries(d, vs, tokenize) ::
      e.doc == d && exists v :: v in vs && v.id == e.variant && Indexable(v)
  {
    if vs != [] {
      VariantEntriesAreOf(d, vs[..|vs| - 1], tokenize);
      assert vs == vs[..|vs| - 1] + [vs[|vs| - 1]];
    }
  }

  // ---- the pipeline ----

  datatype DedupBehavior = DedupSkip | DedupReplace

  /** What reading, chunking and embedding made of the raw document; or nothing, if one failed. */
  type Prepared = Option<Document>

  datatype IngestResult = Ingested(doc: DocId) | Deduplicated(existing: DocId) | IngestFailed

  /** The store and the entries of the index. */
  datatype Holdings = Holdings(store: StoreView, entries: seq<Entry>)

  /** What Ingest does.  Replacing deletes from the store only. */
  function AfterIngest(h: Holdings, dedup: DedupBehavior, fingerprint: string, data: Option<Data>, doc: Prepared,
                       tokenize: Tokenizer)
    : Holdings
  {
    var existing := Found(h.store, fingerprint);
    if existing.Some? && dedup.DedupSkip? then h
    else
      var store := if existing.Some? then Deleted(h.store, existing.value.id) else h.store;
      if doc.None? then h.(store := store)
      else
        var stamped := doc.value.(fingerprint := fingerprint);
        var created := Created(store, stamped);
        Holdings(if data.Some? then created.(originals := created.originals[stamped.id := data.value]) else created,
                 h.entries + EntriesOf(stamped, tokenize))
  }

  function AfterDelete(h: Holdings, d: DocId): Holdings {
    Holdings(Deleted(h.store, d), Without(h.entries, d))
  }

  class Pipeline {
    const store: Store
    const retriever: Retriever
    const dedup: DedupBehavior
    const storeOriginals: bool

    constructor (store: Store, retriever: Retriever, dedup: DedupBehavior, storeOriginals: bool)
      ensures this.store == store && this.retriever == retriever
      ensures this.dedup == dedup && this.storeOriginals == storeOriginals
    {
      this.store, this.retriever, this.dedup, this.storeOriginals := store, retriever, dedup, storeOriginals;
    }

    ghost predicate Holds(h: Holdings)
      reads store, retriever
    {
      store.View() == h.store && retriever.View() == Build(h.entries) && DistinctVariants(h.entries)
    }

    method Ingest(fingerprint: string, data: Data, doc: Prepared, ghost h: Holdings)
      returns (r: IngestResult, ghost h': Holdings)
      requires Holds(h)
      requires doc.Some? ==> DistinctVariants(h.entries + EntriesOf(doc.value, retriever.tokenize))
      modifies store, retriever
      ensures Holds(h')
      ensures h' == AfterIngest(h, dedup, fingerprint, if storeOriginals then Some(data) else None, doc,
                                retriever.tokenize)
      ensures r == if Found(h.store, fingerprint).Some? && dedup == DedupSkip
                   then Deduplicated(Found(h.store, fingerprint).value.id)
                   else if doc.None? then IngestFailed else Ingested(doc.value.id)
    {
      h' := h;
      var existing := store.FindByFingerprint(fingerprint);
      if existing.Some? {
        if dedup == DedupSkip {
          return Deduplicated(existing.value.id), h';
        }
        store.DeleteDocument(existing.value.id);
        h' := h'.(store := Deleted(h.store, existing.value.id));
      }
      if doc.None? {
        return IngestFailed, h';
      }
      var stamped := doc.value.(fingerprint := fingerprint);
      store.CreateDocument(stamped);
      if storeOriginals {
        store.StoreOriginal(stamped.id, data);
      }
      retriever.Index(stamped, h.entries);
      return Ingested(stamped.id),
             AfterIngest(h, dedup, fingerprint, if storeOriginals then Some(data) else None, doc, retriever.tokenize);
    }

    method Delete(d: DocId, ghost h: Holdings) returns (ghost h': Holdings)
      requires Holds(h)
      modifies store, retriever
      ensures h' == AfterDelete(h, d) && Holds(h')
    {
      WithoutFacts(h.entries, d);
      retriever.Remove(d, h.entries);
      store.DeleteDocument(d);
      h' := AfterDelete(h, d);
    }

    /** Update deletes before it ingests; see UpdateKeepsIff for when that loses a document. */
    method Update(d: DocId, fingerprint: string, data: Data, doc: Prepared, ghost h: Holdings)
      returns (r: IngestResult, ghost h': Holdings)
      requires Holds(h)
      requires doc.Some? ==> DistinctVariants(Without(h.entries, d) + EntriesOf(doc.value, retriever.tokenize))
      modifies store, retriever
      ensures Holds(h')
      ensures h' == AfterIngest(AfterDelete(h, d), dedup, fingerprint, if storeOriginals then Some(data) else None, doc,
                                retriever.tokenize)
      ensures r.IngestFailed? ==> d !in h'.store.docs
    {
      h' := Delete(d, h);
      r, h' := Ingest(fingerprint, data, doc, h');
    }
  }

  // ---- what the pipeline keeps ----

  ghost predicate Sound(h: Holdings, tokenize: Tokenizer) {
    Agrees(h.store, h.entries, tokenize) && FingerprintsOk(h.store)
  }

  /** New documents get new identifiers, and so do their variants; a fingerprint is never empty. */
  ghost predicate Fresh(h: Holdings, fingerprint: string, doc: Prepared, tokenize: Tokenizer) {
    && fingerprint != ""
    && (doc.Some? ==>
          && doc.value.id !in h.store.docs
          && DistinctVariants(h.entries + EntriesOf(doc.value, tokenize)))
  }

  lemma DeletedKeepsFingerprints(s: StoreView, d: DocId)
    requires FingerprintsOk(s)
    ensures FingerprintsOk(Deleted(s, d))
  {
  }

  lemma CreatedKeepsFingerprints(s: StoreView, doc: Document)
    requires FingerprintsOk(s) && doc.id !in s.docs && doc.fingerprint != "" && doc.fingerprint !in s.fingerprints
    ensures FingerprintsOk(Created(s, doc))
  {
  }

  lemma DeleteKeepsSound(h: Holdings, d: DocId, tokenize: Tokenizer)
    requires Sound(h, tokenize)
    ensures Sound(AfterDelete(h, d), tokenize)
  {
    WithoutFacts(h.entries, d);
    DeletedKeepsFingerprints(h.store, d);
    forall d', e | d' in h.store.docs && e in EntriesOf(h.store.docs[d'], tokenize) ensures e.doc == d' {
      EntriesAreOf(d', h.store.docs[d'].sections, tokenize);
    }
  }

  lemma AddKeepsAgreement(s: StoreView, s': StoreView, es: seq<Entry>, doc: Document, tokenize: Tokenizer)
    requires Agrees(s, es, tokenize) && doc.id !in s.docs && s'.docs == s.docs[doc.id := doc]
    requires DistinctVariants(es + EntriesOf(doc, tokenize))
    ensures Agrees(s', es + EntriesOf(doc, tokenize), tokenize)
  {
    EntriesAreOf(doc.id, doc.sections, tokenize);
  }

  /** With DedupSkip, ingesting keeps store and index in agreement, and one document per
      fingerprint. */
  lemma IngestKeepsSound(h: Holdings, fingerprint: string, data: Option<Data>, doc: Prepared, tokenize: Tokenizer)
    requires Sound(h, tokenize) && Fresh(h, fingerprint, doc, tokenize)
    ensures Sound(AfterIngest(h, DedupSkip, fingerprint, data, doc, tokenize), tokenize)
  {
    if Found(h.store, fingerprint).None? && doc.Some? {
      var stamped := doc.value.(fingerprint := fingerprint);
      var h' := AfterIngest(h, DedupSkip, fingerprint, data, doc, tokenize);
      CreatedKeepsFingerprints(h.store, stamped);
      assert EntriesOf(stamped, tokenize) == EntriesOf(doc.value, tokenize);
      AddKeepsAgreement(h.store, h'.store, h.entries, stamped, tokenize);
    }
  }

  /** Whatever the behaviour on duplicates: store and index agree after an Ingest if and only if it did
      not replace a document that has indexed text. */
  lemma IngestAgreesIff(h: Holdings, dedup: DedupBehavior, fingerprint: string, data: Option<Data>, doc: Prepared,
                        tokenize: Tokenizer)
    requires Sound(h, tokenize) && Fresh(h, fingerprint, doc, tokenize)
    ensures Agrees(AfterIngest(h, dedup, fingerprint, data, doc, tokenize).store,
                   AfterIngest(h, dedup, fingerprint, data, doc, tokenize).entries, tokenize)
       <==> !(dedup == DedupReplace && Found(h.store, fingerprint).Some?
              && EntriesOf(Found(h.store, fingerprint).value, tokenize) != [])
  {
    var existing, h' := Found(h.store, fingerprint), AfterIngest(h, dedup, fingerprint, data, doc, tokenize);
    if dedup.DedupSkip? || existing.None? {
      IngestKeepsSound(h, fingerprint, data, doc, tokenize);
    } else if EntriesOf(existing.value, tokenize) != [] {
      StaleEntry(h, existing.value, h', tokenize);
    } else {
      var s := Deleted(h.store, existing.value.id);
      assert Agrees(s, h.entries, tokenize);
      if doc.Some? {
        var stamped := doc.value.(fingerprint := fingerprint);
        assert EntriesOf(stamped, tokenize) == EntriesOf(doc.value, tokenize);
        AddKeepsAgreement(s, h'.store, h.entries, stamped, tokenize);
      }
    }
  }

  /** A document with one text variant. */
  function TextDoc(id: DocId, v: VariantId): Document {
    Document(id, "", [Section("", [Variant(v, true, "text")])])
  }

  /** What ingesting it into nothing leaves. */
  function OneDoc(tokenize: Tokenizer): Holdings {
    AfterIngest(NOTHING, DedupReplace, "f", None, Some(TextDoc("d", "v")), tokenize)
  }

  lemma OneDocIs(tokenize: Tokenizer)
    ensures Sound(OneDoc(tokenize), tokenize) && OneDoc(tokenize).entries == [Entry("d", "v", tokenize("text"))]
    ensures OneDoc(tokenize).store.docs.Keys == {"d"} && OneDoc(tokenize).store.fingerprints.Keys == {"f"}
    ensures Found(OneDoc(tokenize).store, "f").Some?
    ensures EntriesOf(Found(OneDoc(tokenize).store, "f").value, tokenize) != []
  {
    OneEntry("d", Variant("v", true, "text"), tokenize);
    IngestKeepsSound(NOTHING, "f", None, Some(TextDoc("d", "v")), tokenize);
  }

  /** The same ingested again under DedupReplace, with new identifiers: the old text is still in the index. */
  lemma ReplacedStaysIndexed(tokenize: Tokenizer)
    ensures var h' := AfterIngest(OneDoc(tokenize), DedupReplace, "f", None, Some(TextDoc("e", "w")), tokenize);
      Sound(OneDoc(tokenize), tokenize) && !Agrees(h'.store, h'.entries, tokenize)
  {
    OneDocIs(tokenize);
    SecondIsFresh(OneDoc(tokenize), tokenize, "f");
    IngestAgreesIff(OneDoc(tokenize), DedupReplace, "f", None, Some(TextDoc("e", "w")), tokenize);
  }

  lemma SecondIsFresh(h: Holdings, tokenize: Tokenizer, fingerprint: string)
    requires h.entries == [Entry("d", "v", tokenize("text"))] && h.store.docs.Keys == {"d"}
    requires fingerprint != ""
    ensures Fresh(h, fingerprint, Some(TextDoc("e", "w")), tokenize)
  {
    OneEntry("e", Variant("w", true, "text"), tokenize);
    assert "v" != "w" && "e" != "d";
  }

  lemma OneEntry(d: DocId, v: Variant, tokenize: Tokenizer)
    requires Indexable(v)
    ensures SectionEntries(d, [Section("", [v])], tokenize) == [Entry(d, v.id, tokenize(v.text))]
  {
    assert [v][..0] == [] && VariantEntries(d, [v][..0], tokenize) == [];
    assert [Section("", [v])][..0] == [] && SectionEntries(d, [], tokenize) == [];
  }

  lemma StaleEntry(h: Holdings, gone: Document, h': Holdings, tokenize: Tokenizer)
    requires Agrees(h.store, h.entries, tokenize) && gone.id in h.store.docs && h.store.docs[gone.id] == gone
    requires EntriesOf(gone, tokenize) != [] && h.entries <= h'.entries && gone.id !in h'.store.docs
    ensures !Agrees(h'.store, h'.entries, tokenize)
  {
    var e := EntriesOf(gone, tokenize)[0];
    EntriesAreOf(gone.id, gone.sections, tokenize);
    assert e in EntriesOf(gone, tokenize) && e in h.entries && e.doc == gone.id;
    assert e in h'.entries;
  }

  // ---- when a document is lost ----

  /** After an Update of a stored document, something is stored under its identifier or that of the new
      document exactly when there is a new document and its fingerprint is not that of a different stored
      document, which DedupSkip would keep instead. */
  lemma UpdateKeepsIff(h: Holdings, d: DocId, dedup: DedupBehavior, fingerprint: string, data: Option<Data>,
                       doc: Prepared, tokenize: Tokenizer)
    requires Sound(h, tokenize) && d in h.store.docs && (doc.Some? ==> doc.value.id !in h.store.docs)
    ensures var docs := AfterIngest(AfterDelete(h, d), dedup, fingerprint, data, doc, tokenize).store.docs;
      var found := Found(h.store, fingerprint);
      d in docs || (doc.Some? && doc.value.id in docs)
      <==> doc.Some? && !(dedup == DedupSkip && found.Some? && found.value.id != d)
  {
    DeletedFinds(h.store, d, fingerprint);
  }

  /** Deleting a document makes exactly its own fingerprint unknown. */
  lemma DeletedFinds(s: StoreView, d: DocId, fingerprint: string)
    requires FingerprintsOk(s) && d in s.docs && s.docs[d].id == d
    ensures Found(Deleted(s, d), fingerprint)
         == if Found(s, fingerprint).Some? && s.fingerprints[fingerprint] != d then Found(s, fingerprint) else None
  {
  }

  /** An Ingest forgets something stored, so that some fingerprint known before is not known after it,
      exactly when it replaces a document and then has no new one. */
  lemma IngestForgetsIff(h: Holdings, dedup: DedupBehavior, fingerprint: string, data: Option<Data>, doc: Prepared,
                         tokenize: Tokenizer)
    requires Sound(h, tokenize) && Fresh(h, fingerprint, doc, tokenize)
    ensures var store := AfterIngest(h, dedup, fingerprint, data, doc, tokenize).store;
      (forall f | Found(h.store, f).Some? :: Found(store, f).Some?)
      <==> !(dedup == DedupReplace && Found(h.store, fingerprint).Some? && doc.None?)
  {
    var existing, store := Found(h.store, fingerprint), AfterIngest(h, dedup, fingerprint, data, doc, tokenize).store;
    if dedup == DedupReplace && existing.Some? {
      forall f ensures Found(Deleted(h.store, existing.value.id), f)
                    == if Found(h.store, f).Some? && h.store.fingerprints[f] != existing.value.id
                       then Found(h.store, f) else None
      {
        DeletedFinds(h.store, existing.value.id, f);
      }
      assert doc.None? ==> Found(store, fingerprint).None?;
    }
  }

  /** An update whose ingest fails, and an ingest that replaces and then fails: nothing is left. */
  lemma FailingIngestLoses(tokenize: Tokenizer)
    ensures var h := OneDoc(tokenize);
      && Sound(h, tokenize) && h.store.docs.Keys == {"d"}
      && AfterIngest(AfterDelete(h, "d"), DedupSkip, "g", None, None, tokenize).store.docs == map[]
      && AfterIngest(h, DedupReplace, "f", None, None, tokenize).store.docs == map[]
  {
    OneDocIs(tokenize);
  }

  /** What ingesting a second document leaves. */
  function TwoDocs(tokenize: Tokenizer): Holdings {
    AfterIngest(OneDoc(tokenize), DedupSkip, "g", None, Some(TextDoc("e", "w")), tokenize)
  }

  lemma TwoDocsAre(tokenize: Tokenizer)
    ensures Sound(TwoDocs(tokenize), tokenize) && TwoDocs(tokenize).store.docs.Keys == {"d", "e"}
    ensures Found(TwoDocs(tokenize).store, "g").Some? && TwoDocs(tokenize).store.fingerprints["g"] == "e"
  {
    OneDocIs(tokenize);
    SecondDoc(OneDoc(tokenize), tokenize);
  }

  lemma SecondDoc(h: Holdings, tokenize: Tokenizer)
    requires Sound(h, tokenize) && h.entries == [Entry("d", "v", tokenize("text"))]
    requires h.store.docs.Keys == {"d"} && h.store.fingerprints.Keys == {"f"}
    ensures var h' := AfterIngest(h, DedupSkip, "g", None, Some(TextDoc("e", "w")), tokenize);
      && Sound(h', tokenize) && h'.store.docs.Keys == {"d", "e"}
      && Found(h'.store, "g").Some? && h'.store.fingerprints["g"] == "e"
  {
    SecondIsFresh(h, tokenize, "g");
    assert "g" !in h.store.fingerprints.Keys;
    IngestAdds(h, "g", TextDoc("e", "w"), tokenize);
  }

  lemma IngestAdds(h: Holdings, fingerprint: string, doc: Document, tokenize: Tokenizer)
    requires Sound(h, tokenize) && Fresh(h, fingerprint, Some(doc), tokenize) && Found(h.store, fingerprint).None?
    ensures var h' := AfterIngest(h, DedupSkip, fingerprint, None, Some(doc), tokenize);
      && Sound(h', tokenize) && h'.store.docs.Keys == h.store.docs.Keys + {doc.id}
      && Found(h'.store, fingerprint).Some? && h'.store.fingerprints[fingerprint] == doc.id
  {
    IngestKeepsSound(h, fingerprint, None, Some(doc), tokenize);
  }

  /** Two documents under DedupSkip: the first is updated with what the second has. The ingest succeeds, but the
      first is gone and the new one is not stored. */
  lemma SkippedUpdateLoses(tokenize: Tokenizer)
    ensures Sound(TwoDocs(tokenize), tokenize) && TwoDocs(tokenize).store.docs.Keys == {"d", "e"}
    ensures AfterIngest(AfterDelete(TwoDocs(tokenize), "d"), DedupSkip, "g", None, Some(TextDoc("x", "y")), tokenize)
              .store.docs.Keys == {"e"}
  {
    TwoDocsAre(tokenize);
    DeletedFinds(TwoDocs(tokenize).store, "d", "g");
  }

  /** After an Ingest that is not skipped the document is stored as prepared, under its fingerprint, with
      the original if these are kept, and its entries are in the index; the document it replaces is gone
      from the store, and all others are as they were. */
  lemma IngestStores(h: Holdings, dedup: DedupBehavior, fingerprint: string, data: Option<Data>, doc: Document,
                     tokenize: Tokenizer)
    requires Sound(h, tokenize) && Fresh(h, fingerprint, Some(doc), tokenize)
    requires dedup == DedupReplace || Found(h.store, fingerprint) == None
    ensures var h', found := AfterIngest(h, dedup, fingerprint, data, Some(doc), tokenize), Found(h.store, fingerprint);
      var stored := Document(doc.id, fingerprint, doc.sections);
      && h'.store.docs == (h.store.docs - if found.Some? then {found.value.id} else {})[doc.id := stored]
      && Found(h'.store, fingerprint) == Some(stored)
      && (forall f | f != fingerprint :: Found(h'.store, f) == Found(h.store, f))
      && (data.Some? ==> doc.id in h'.store.originals && h'.store.originals[doc.id] == data.value)
      && (forall d | d != doc.id && (found.Some? ==> d != found.value.id) ::
            d in h'.store.originals <==> d in h.store.originals)
      && (forall d | d != doc.id && d in h'.store.originals :: h'.store.originals[d] == h.store.originals[d])
      && h'.entries == h.entries + EntriesOf(stored, tokenize)
  {
    var found := Found(h.store, fingerprint);
    if found.Some? {
      forall f ensures Found(Deleted(h.store, found.value.id), f)
                    == if Found(h.store, f).Some? && h.store.fingerprints[f] != found.value.id
                       then Found(h.store, f) else None
      {
        DeletedFinds(h.store, found.value.id, f);
      }
    }
  }

  /** Deleting removes the document, its fingerprint, its original and its entries, and nothing else. */
  lemma DeleteForgets(h: Holdings, d: DocId, tokenize: Tokenizer)
    requires Sound(h, tokenize) && d in h.store.docs
    ensures var h' := AfterDelete(h, d);
      && h'.store.docs == h.store.docs - {d} && h'.store.originals == h.store.originals - {d}
      && (forall f :: Found(h'.store, f)
                      == if Found(h.store, f).Some? && Found(h.store, f).value.id == d then None else Found(h.store, f))
      && (forall e :: e in h'.entries <==> e in h.entries && e.doc != d)
  {
    WithoutFacts(h.entries, d);
    forall f ensures Found(Deleted(h.store, d), f)
                  == if Found(h.store, f).Some? && Found(h.store, f).value.id == d then None else Found(h.store, f)
    {
      DeletedFinds(h.store, d, f);
    }
  }

  /** Every variant the index can return is found in the store. */
  lemma HitsResolve(h: Holdings, tokenize: Tokenizer, id: VariantId)
    requires Sound(h, tokenize) && id in Build(h.entries).docLen
    ensures exists d :: d in h.store.docs && HasVariant(h.store.docs[d], id)
  {
    CountIsLengths(h.entries);
    var e :| e in h.entries && e.variant == id;
    EntriesAreOf(e.doc, h.store.docs[e.doc].sections, tokenize);
    assert HasVariant(h.store.docs[e.doc], id);
  }

  // ---- whole runs ----

  datatype PipelineOp =
    | IngestOp(fingerprint: string, data: Option<Data>, doc: Prepared)
    | UpdateOp(id: DocId, fingerprint: string, data: Option<Data>, doc: Prepared)
    | DeleteOp(id: DocId)

  function Apply(h: Holdings, op: PipelineOp, dedup: DedupBehavior, tokenize: Tokenizer): Holdings {
    match op
    case IngestOp(fingerprint, data, doc) => AfterIngest(h, dedup, fingerprint, data, doc, tokenize)
    case UpdateOp(id, fingerprint, data, doc) =>
      AfterIngest(AfterDelete(h, id), dedup, fingerprint, data, doc, tokenize)
    case DeleteOp(id) => AfterDelete(h, id)
  }

  ghost predicate FreshOp(h: Holdings, op: PipelineOp, tokenize: Tokenizer) {
    match op
    case IngestOp(fingerprint, _, doc) => Fresh(h, fingerprint, doc, tokenize)
    case UpdateOp(id, fingerprint, _, doc) => Fresh(AfterDelete(h, id), fingerprint, doc, tokenize)
    case DeleteOp(_) => true
  }

  const NOTHING := Holdings(StoreView(map[], map[], map[]), [])

  ghost function RunFrom(h: Holdings, ops: seq<PipelineOp>, tokenize: Tokenizer): Holdings {
    if ops == [] then h else Apply(RunFrom(h, ops[..|ops| - 1], tokenize), ops[|ops| - 1], DedupSkip, tokenize)
  }

  ghost predicate FreshRun(h: Holdings, ops: seq<PipelineOp>, tokenize: Tokenizer) {
    forall k | 0 <= k < |ops| :: FreshOp(RunFrom(h, ops[..k], tokenize), ops[k], tokenize)
  }

  /** Over any run with DedupSkip the index holds exactly the stored text variants. */
  lemma {:induction false} RunAgrees(ops: seq<PipelineOp>, tokenize: Tokenizer)
    requires FreshRun(NOTHING, ops, tokenize)
    ensures Sound(RunFrom(NOTHING, ops, tokenize), tokenize)
  {
    if ops != [] {
      var front, op := ops[..|ops| - 1], ops[|ops| - 1];
      assert FreshRun(NOTHING, front, tokenize) by {
        forall k | 0 <= k < |front| ensures FreshOp(RunFrom(NOTHING, front[..k], tokenize), front[k], tokenize) {
          assert front[..k] == ops[..k] && front[k] == ops[k];
        }
      }
      RunAgrees(front, tokenize);
      OpKeepsSound(RunFrom(NOTHING, front, tokenize), op, tokenize);
    }
  }

  lemma OpKeepsSound(h: Holdings, op: PipelineOp, tokenize: Tokenizer)
    requires Sound(h, tokenize) && FreshOp(h, op, tokenize)
    ensures Sound(Apply(h, op, DedupSkip, tokenize), tokenize)
  {
    match op
    case IngestOp(fingerprint, data, doc) =>
      IngestKeepsSound(h, fingerprint, data, doc, tokenize);
    case UpdateOp(id, fingerprint, data, doc) =>
      DeleteKeepsSound(h, id, tokenize);
      IngestKeepsSound(AfterDelete(h, id), fingerprint, data, doc, tokenize);
    case DeleteOp(id) =>
      DeleteKeepsSound(h, id, tokenize);
  }
}
