/** LRU cache in front of an embedder (rag/embeddingcache/cache.go). */
module EmbeddingCache {
  import opened Sequences
  import opened Messages

  type Key = string
  type Embedding = seq<real>

  /** What an embedder sees of a variant. */
  datatype Content = Content(contentType: string, text: string)

  // ---- keys ----

  /** The text that cacheKey hashes. */
  function KeyText(v: Content): string {
    v.contentType + ":" + v.text
  }

  /** No two variants with content types in `types` share a key text. */
  ghost predicate KeyTextInjective(types: iset<string>) {
    forall v: Content, w: Content | v.contentType in types && w.contentType in types && KeyText(v) == KeyText(w) ::
      v == w
  }

  /** Variants of some content types never share a key text exactly when none of the types is
      another one with a colon behind it, and perhaps more. */
  lemma KeyTextInjectiveIff(types: iset<string>)
    ensures KeyTextInjective(types) <==> forall a, b | a in types && b in types :: !(a + ":" <= b)
  {
    forall a, b | a in types && b in types && a + ":" <= b ensures !KeyTextInjective(types) {
      var v, w := Content(a, b[|a| + 1..] + ":"), Content(b, "");
      assert KeyText(v) == a + ":" + b[|a| + 1..] + ":" == b + ":" + "" == KeyText(w);
      assert v.contentType != w.contentType;
    }
    forall v: Content, w: Content
      | && v.contentType in types && w.contentType in types && KeyText(v) == KeyText(w)
        && !(v.contentType + ":" <= w.contentType) && !(w.contentType + ":" <= v.contentType)
      ensures v == w
    {
      if |v.contentType| <= |w.contentType| {
        SharedKeyText(v, w);
      } else {
        SharedKeyText(w, v);
      }
    }
  }

  lemma SharedKeyText(v: Content, w: Content)
    requires KeyText(v) == KeyText(w) && |v.contentType| <= |w.contentType|
    ensures v == w || v.contentType + ":" <= w.contentType
  {
    var m, n := |v.contentType|, |w.contentType|;
    assert KeyText(v)[..m] == v.contentType && KeyText(v)[..m + 1] == v.contentType + ":";
    assert KeyText(w)[..n] == w.contentType && KeyText(w)[n + 1..] == w.text;
    if m < n {
      assert w.contentType[..m + 1] == KeyText(w)[..n][..m + 1] == KeyText(v)[..m + 1];
    } else {
      assert KeyText(v)[m + 1..] == v.text;
    }
  }

  /** Two such types, and two variants that share a key text. */
  lemma KeyTextCollides()
    ensures "a" + ":" <= "a:b"
    ensures KeyText(Content("a", "b:c")) == KeyText(Content("a:b", "c")) && Content("a", "b:c") != Content("a:b", "c")
    ensures !KeyTextInjective(iset{"a", "a:b"}) && KeyTextInjective(iset{"a:b"})
  {
    var v, w := Content("a", "b:c"), Content("a:b", "c");
    assert KeyText(v) == "a:b:c" == KeyText(w);
    assert v.text != w.text;
    KeyTextInjectiveIff(iset{"a:b"});
  }

  /** The embedder and the key of a variant: the digest of its key text, and its vector. */
  datatype Embedder = Embedder(hash: string -> Key, vector: Content -> Embedding) {
    function KeyOf(v: Content): Key {
      hash(KeyText(v))
    }

    ghost function KeysOf(vs: seq<Content>): seq<Key> {
      seq(|vs|, i requires 0 <= i < |vs| => KeyOf(vs[i]))
    }

    function Vectors(vs: seq<Content>): seq<Embedding> {
      seq(|vs|, i requires 0 <= i < |vs| => vector(vs[i]))
    }

    /** No two variants that embed differently share a key. */
    ghost predicate CollisionFree() {
      forall v, w :: KeyOf(v) == KeyOf(w) ==> vector(v) == vector(w)
    }
  }

  // ---- the list of keys as a value ----

  ghost function IndexOf<T>(s: seq<T>, x: T): (i: nat)
    requires x in s
    ensures i < |s| && s[i] == x
  {
    var i :| 0 <= i < |s| && s[i] == x;
    i
  }

  ghost function Without<T>(s: seq<T>, x: T): seq<T> {
    if x in s then var i := IndexOf(s, x); s[..i] + s[i + 1..] else s
  }

  ghost function Take<T>(s: seq<T>, n: nat): seq<T> {
    if |s| <= n then s else s[..n]
  }

  /** A cache hit: the key moves to the front. */
  ghost function Touch(s: seq<Key>, k: Key): seq<Key> {
    if k in s then [k] + Without(s, k) else s
  }

  /** A store: the key goes to the front, and what is over capacity falls off the back. */
  ghost function Put(s: seq<Key>, k: Key, max: nat): seq<Key> {
    Take([k] + Without(s, k), max)
  }

  lemma WithoutAt<T>(s: seq<T>, i: nat)
    requires Distinct(s) && i < |s|
    ensures Without(s, s[i]) == s[..i] + s[i + 1..]
  {
    assert IndexOf(s, s[i]) == i;
  }

  // ---- the cache ----

  /** A list element; its embedding is overwritten in place when a key is stored again. */
  class Entry {
    const key: Key
    var embedding: Embedding

    constructor (key: Key, embedding: Embedding)
      ensures this.key == key && this.embedding == embedding
    {
      this.key := key;
      this.embedding := embedding;
    }
  }

  /** Map and list hold the same elements, each under its own key. */
  ghost predicate Agree(entries: map<Key, Entry>, lru: seq<Entry>) {
    && (forall e | e in lru :: e.key in entries && entries[e.key] == e)
    && (forall k | k in entries :: entries[k] in lru && entries[k].key == k)
  }

  lemma DropLastAgrees(entries: map<Key, Entry>, lru: seq<Entry>, keys: seq<Key>)
    requires |lru| > 0 && Agree(entries, lru)
    requires |keys| == |lru| && Distinct(keys) && forall i | 0 <= i < |lru| :: keys[i] == lru[i].key
    ensures Agree(entries - {lru[|lru| - 1].key}, lru[..|lru| - 1])
  {
    var rest := entries - {lru[|lru| - 1].key};
    forall k | k in rest ensures rest[k] in lru[..|lru| - 1] {
      var i :| 0 <= i < |lru| && lru[i] == entries[k];
      assert keys[i] == k && keys[|lru| - 1] != k;
    }
  }

  lemma MoveAgrees(entries: map<Key, Entry>, lru: seq<Entry>, i: nat)
    requires Agree(entries, lru) && i < |lru|
    ensures Agree(entries, [lru[i]] + (lru[..i] + lru[i + 1..]))
    ensures forall e :: e in [lru[i]] + (lru[..i] + lru[i + 1..]) <==> e in lru
  {
    assert lru == lru[..i] + [lru[i]] + lru[i + 1..];
  }

  lemma FrontAgrees(entries: map<Key, Entry>, lru: seq<Entry>, elem: Entry)
    requires Agree(entries, lru) && elem.key !in entries
    ensures Agree(entries[elem.key := elem], [elem] + lru)
  {
    assert ([elem] + lru)[1..] == lru;
  }

  lemma FrontDistinct(keys: seq<Key>, key: Key, max: nat)
    requires Distinct(keys) && key !in keys
    ensures Distinct([key] + keys) && Put(keys, key, max) == Take([key] + keys, max)
  {
  }

  lemma MoveDistinct(keys: seq<Key>, i: nat)
    requires Distinct(keys) && i < |keys|
    ensures Distinct([keys[i]] + (keys[..i] + keys[i + 1..]))
  {
  }

  class Cache {
    const embedder: Embedder
    const maxSize: nat
    var entries: map<Key, Entry>
    var lru: seq<Entry>

    /** The keys in the list, most recently used first. */
    ghost function Keys(): seq<Key>
      reads this
    {
      seq(|lru|, i requires 0 <= i < |lru| reads this => lru[i].key)
    }

    ghost function Elements(): set<Entry>
      reads this
    {
      set e | e in lru
    }

    /** Map and list hold the same entries under pairwise different keys, at most `maxSize`. */
    ghost predicate Valid()
      reads this
    {
      && 0 < maxSize && |lru| <= maxSize
      && Distinct(Keys()) && Agree(entries, lru)
    }

    /** Every cached vector is the one the embedder computes. */
    ghost predicate Sound()
      reads this, Elements()
    {
      forall e, v | e in Elements() && embedder.KeyOf(v) == e.key :: e.embedding == embedder.vector(v)
    }

    /** New with WithMaxSize: a capacity that is not positive leaves the default. */
    constructor (embedder: Embedder, maxSize: int)
      ensures Valid() && Sound() && Keys() == [] && this.embedder == embedder
      ensures this.maxSize == if maxSize > 0 then maxSize else 10000
    {
      this.embedder := embedder;
      this.maxSize := if maxSize > 0 then maxSize else 10000;
      entries, lru := map[], [];
    }

    /** list.MoveToFront. */
    method MoveToFront(elem: Entry)
      requires Valid() && elem in lru
      modifies this`lru
      ensures Valid() && Keys() == old(Touch(Keys(), elem.key))
      ensures Elements() == old(Elements())
    {
      var i :| 0 <= i < |lru| && lru[i] == elem;
      ghost var keys := Keys();
      assert keys[i] == elem.key;
      WithoutAt(keys, i);
      MoveDistinct(keys, i);
      MoveAgrees(entries, lru, i);
      lru := [elem] + (lru[..i] + lru[i + 1..]);
      assert Keys() == [elem.key] + (keys[..i] + keys[i + 1..]);
    }

    /** put: `embedding` must be what the embedder computes for `key`. */
    method StoreEntry(key: Key, embedding: Embedding)
      requires Valid() && Sound()
      requires forall v :: embedder.KeyOf(v) == key ==> embedding == embedder.vector(v)
      modifies this, Elements()
      ensures Valid() && Sound() && Keys() == old(Put(Keys(), key, maxSize))
      ensures fresh(Elements() - old(Elements()))
    {
      if key in entries {
        var elem := entries[key];
        KeyListed(elem);
        MoveToFront(elem);
        elem.embedding := embedding;
        return;
      }
      KeysMatch();
      var elem := new Entry(key, embedding);
      FrontAgrees(entries, lru, elem);
      FrontDistinct(Keys(), key, maxSize);
      lru := [elem] + lru;
      entries := entries[key := elem];
      assert Keys() == [key] + old(Keys());
      EvictOverflow();
    }

    /** The eviction loop of put. */
    method EvictOverflow()
      requires 0 < maxSize && Distinct(Keys()) && Agree(entries, lru)
      modifies this
      ensures Valid() && lru == old(Take(lru, maxSize)) && Keys() == old(Take(Keys(), maxSize))
    {
      ghost var keys := Keys();
      while |lru| > maxSize
        invariant |lru| <= |keys| && (|lru| == |keys| || |lru| >= maxSize)
        invariant lru == old(lru)[..|lru|] && Keys() == keys[..|lru|]
        invariant Agree(entries, lru)
      {
        DropOldest();
      }
    }

    /** list.Remove of the back element, and its deletion from the map. */
    method DropOldest()
      requires |lru| > 0 && Distinct(Keys()) && Agree(entries, lru)
      modifies this
      ensures lru == old(lru[..|lru| - 1]) && Keys() == old(Keys()[..|lru| - 1])
      ensures Agree(entries, lru)
    {
      var oldest := lru[|lru| - 1];
      DropLastAgrees(entries, lru, Keys());
      lru := lru[..|lru| - 1];
      entries := entries - {oldest.key};
    }

    lemma KeyListed(elem: Entry)
      requires Valid() && elem in lru
      ensures elem.key in Keys()
      ensures Put(Keys(), elem.key, maxSize) == Touch(Keys(), elem.key)
    {
      var i :| 0 <= i < |lru| && lru[i] == elem;
      assert Keys()[i] == elem.key;
    }

    lemma KeysMatch()
      requires Valid()
      ensures forall k :: k in entries <==> k in Keys()
    {
      forall k ensures k in entries <==> k in Keys() {
        if k in entries {
          KeyListed(entries[k]);
        }
      }
    }

    /** One lookup of the first critical section. */
    method LookUpOne(v: Content, key: Key) returns (found: Option<Embedding>)
      requires Valid() && Sound() && key == embedder.KeyOf(v)
      modifies this`lru
      ensures Valid() && Sound() && Elements() == old(Elements())
      ensures Keys() == old(Touch(Keys(), key))
      ensures found == if key in old(Keys()) then Some(embedder.vector(v)) else None
    {
      KeysMatch();
      if key in entries {
        var elem := entries[key];
        MoveToFront(elem);
        found := Some(elem.embedding);
      } else {
        found := None;
      }
    }

    /** The first critical section of Embed: hits are read and moved to the front, the indices of
        misses are collected. */
    method LookUp(variants: seq<Content>)
      returns (results: seq<Option<Embedding>>, keys: seq<Key>, misses: seq<nat>)
      requires Valid() && Sound()
      modifies this`lru
      ensures Valid() && Sound() && Elements() == old(Elements())
      ensures keys == embedder.KeysOf(variants)
      ensures Keys() == old(TouchAll(Keys(), keys))
      ensures misses == MissesOf(old(Keys()), keys)
      ensures Answers(embedder, variants, results, misses)
    {
      results, keys, misses := [], [], [];
      ghost var before := Keys();
      for i := 0 to |variants|
        invariant Valid() && Sound() && Elements() == old(Elements())
        invariant |keys| == i && forall j | 0 <= j < i :: keys[j] == embedder.KeyOf(variants[j])
        invariant Keys() == TouchAll(before, keys)
        invariant misses == MissesOf(before, keys)
        invariant Answers(embedder, variants[..i], results, misses)
      {
        var v := variants[i];
        var key := embedder.KeyOf(v);
        LookUpStep(before, keys, key);
        var found := LookUpOne(v, key);
        if found.None? {
          misses := misses + [i];
        }
        results := results + [found];
        keys := keys + [key];
        assert variants[..i + 1] == variants[..i] + [v];
      }
      assert variants[..|variants|] == variants;
    }

    /** The second critical section: the vectors of the missed variants are stored and reported. */
    method Fill(variants: seq<Content>, misses: seq<nat>, embeddings: seq<Embedding>,
                found: seq<Option<Embedding>>)
      returns (results: seq<Option<Embedding>>)
      requires Valid() && Sound() && embedder.CollisionFree()
      requires InBounds(misses, |variants|) && |found| == |variants|
      requires embeddings == embedder.Vectors(Pick(variants, misses))
      modifies this, Elements()
      ensures Valid() && Sound() && fresh(Elements() - old(Elements()))
      ensures Keys() == old(PutAll(Keys(), embedder.KeysOf(Pick(variants, misses)), maxSize))
      ensures Filled(embedder, variants, misses, found, results)
    {
      results := found;
      ghost var before, keys := Keys(), [];
      for i := 0 to |misses|
        invariant Valid() && Sound() && fresh(Elements() - old(Elements()))
        invariant keys == embedder.KeysOf(Pick(variants, misses[..i]))
        invariant Keys() == PutAll(before, keys, maxSize)
        invariant Filled(embedder, variants, misses[..i], found, results)
      {
        var idx := misses[i];
        var key := embedder.KeyOf(variants[idx]);
        FilledStep(embedder, variants, misses, i, found, results);
        PutAllStep(before, keys, key, maxSize);
        results := results[idx := Some(embeddings[i])];
        StoreEntry(key, embeddings[i]);
        keys := keys + [key];
        PickKeysStep(embedder, variants, misses, i);
      }
      assert misses[..|misses|] == misses;
    }

    /** Embed.  `others` are the critical sections of other calls that run while this one is
        between its own two, in any order; `failure` is an error of the wrapped embedder. */
    method Embed(variants: seq<Content>, failure: Option<string>, others: seq<Section>)
      returns (result: Result<seq<Embedding>, string>)
      requires Valid() && Sound() && embedder.CollisionFree()
      modifies this, Elements()
      ensures Valid() && Sound() && fresh(Elements() - old(Elements()))
      ensures result.Ok? ==> result.value == embedder.Vectors(variants)
      ensures result.Err? <==> failure.Some? && MissesOf(old(Keys()), embedder.KeysOf(variants)) != []
      ensures others == [] && result.Ok? ==> Keys() == old(Served(embedder, Keys(), variants, maxSize))
    {
      if |variants| == 0 {
        return Ok([]);
      }
      var results, keys, misses := LookUp(variants);
      MissesAre(old(Keys()), keys);
      if |misses| == 0 {
        return Ok(Collected(embedder, variants, results));
      }
      RunOthers(others);
      if failure.Some? {
        return Err(failure.value);
      }
      result := Complete(variants, results, misses);
      PickKeys(embedder, variants, misses);
    }

    /** The rest of a call, when its misses have been embedded. */
    method Complete(variants: seq<Content>, found: seq<Option<Embedding>>, misses: seq<nat>)
      returns (result: Result<seq<Embedding>, string>)
      requires Valid() && Sound() && embedder.CollisionFree()
      requires InBounds(misses, |variants|) && Answers(embedder, variants, found, misses)
      modifies this, Elements()
      ensures Valid() && Sound() && fresh(Elements() - old(Elements()))
      ensures Keys() == old(PutAll(Keys(), embedder.KeysOf(Pick(variants, misses)), maxSize))
      ensures result == Ok(embedder.Vectors(variants))
    {
      var embeddings := embedder.Vectors(Pick(variants, misses));
      var results := Fill(variants, misses, embeddings, found);
      return Ok(Collected(embedder, variants, results));
    }

    /** Critical sections of other calls: a lookup, or a store of vectors they obtained. */
    method RunOthers(others: seq<Section>)
      requires Valid() && Sound() && embedder.CollisionFree()
      modifies this, Elements()
      ensures Valid() && Sound() && fresh(Elements() - old(Elements()))
      ensures others == [] ==> Keys() == old(Keys())
    {
      for i := 0 to |others|
        invariant Valid() && Sound() && fresh(Elements() - old(Elements()))
        invariant i == 0 ==> Keys() == old(Keys())
      {
        match others[i]
        case Reading(variants) =>
          var _, _, _ := LookUp(variants);
        case Writing(batch) =>
          var all := seq(|batch|, j => j);
          assert Pick(batch, all) == batch;
          var _ := Fill(batch, all, embedder.Vectors(batch), seq(|batch|, j => None));
      }
    }
  }

  datatype Section = Reading(variants: seq<Content>) | Writing(batch: seq<Content>)

  function Collected(embedder: Embedder, ghost variants: seq<Content>,
                     results: seq<Option<Embedding>>): (r: seq<Embedding>)
    requires |results| == |variants|
    requires forall i: nat | i < |results| :: results[i] == Some(embedder.vector(variants[i]))
    ensures r == embedder.Vectors(variants)
  {
    seq(|results|, i requires 0 <= i < |results| => results[i].value)
  }

  lemma PickKeys(embedder: Embedder, variants: seq<Content>, misses: seq<nat>)
    requires InBounds(misses, |variants|)
    ensures embedder.KeysOf(Pick(variants, misses)) == Pick(embedder.KeysOf(variants), misses)
  {
  }

  lemma PickKeysStep(embedder: Embedder, variants: seq<Content>, misses: seq<nat>, i: nat)
    requires InBounds(misses, |variants|) && i < |misses|
    ensures embedder.KeysOf(Pick(variants, misses[..i + 1]))
         == embedder.KeysOf(Pick(variants, misses[..i])) + [embedder.KeyOf(variants[misses[i]])]
  {
    assert misses[..i + 1] == misses[..i] + [misses[i]];
  }

  /** The key list after one undisturbed call. */
  ghost function Served(embedder: Embedder, s: seq<Key>, variants: seq<Content>, max: nat): seq<Key> {
    var ks := embedder.KeysOf(variants);
    MissesAre(s, ks);
    PutAll(TouchAll(s, ks), Pick(ks, MissesOf(s, ks)), max)
  }

  lemma {:induction false} MissesAre(s: seq<Key>, ks: seq<Key>)
    ensures InBounds(MissesOf(s, ks), |ks|)
    ensures forall i: nat | i < |ks| :: i in MissesOf(s, ks) <==> ks[i] !in s
  {
    if ks != [] {
      MissesAre(s, ks[..|ks| - 1]);
    }
  }

  /** The slots at `misses` now hold their vectors; the others are as they were. */
  ghost predicate Filled(embedder: Embedder, variants: seq<Content>, misses: seq<nat>,
                         found: seq<Option<Embedding>>, results: seq<Option<Embedding>>)
  {
    && |results| == |found| == |variants|
    && forall j: nat | j < |found| ::
         results[j] == if j in misses then Some(embedder.vector(variants[j])) else found[j]
  }

  lemma FilledStep(embedder: Embedder, variants: seq<Content>, misses: seq<nat>, i: nat,
                   found: seq<Option<Embedding>>, results: seq<Option<Embedding>>)
    requires i < |misses| && InBounds(misses, |variants|)
    requires Filled(embedder, variants, misses[..i], found, results)
    ensures Filled(embedder, variants, misses[..i + 1], found,
                   results[misses[i] := Some(embedder.vector(variants[misses[i]]))])
  {
    assert misses[..i + 1] == misses[..i] + [misses[i]];
  }

  lemma LookUpStep(s: seq<Key>, ks: seq<Key>, k: Key)
    ensures TouchAll(s, ks + [k]) == Touch(TouchAll(s, ks), k)
    ensures MissesOf(s, ks + [k]) == MissesOf(s, ks) + if k in s then [] else [|ks|]
    ensures k in TouchAll(s, ks) <==> k in s
  {
    assert (ks + [k])[..|ks|] == ks;
    TouchAllKeeps(s, ks, k);
  }

  lemma {:induction false} TouchAllKeeps(s: seq<Key>, ks: seq<Key>, k: Key)
    ensures k in TouchAll(s, ks) <==> k in s
  {
    if ks != [] {
      var n := |ks| - 1;
      TouchAllKeeps(s, ks[..n], k);
      TouchKeeps(TouchAll(s, ks[..n]), ks[n], k);
    }
  }

  lemma TouchKeeps(s: seq<Key>, t: Key, k: Key)
    ensures k in Touch(s, t) <==> k in s
  {
    if t in s {
      var i := IndexOf(s, t);
      assert s == s[..i] + [t] + s[i + 1..];
    }
  }

  lemma PutAllStep(s: seq<Key>, ks: seq<Key>, k: Key, max: nat)
    ensures PutAll(s, ks + [k], max) == Put(PutAll(s, ks, max), k, max)
  {
    assert (ks + [k])[..|ks|] == ks;
  }

  ghost function TouchAll(s: seq<Key>, ks: seq<Key>): seq<Key> {
    if ks == [] then s else Touch(TouchAll(s, ks[..|ks| - 1]), ks[|ks| - 1])
  }

  ghost function PutAll(s: seq<Key>, ks: seq<Key>, max: nat): seq<Key> {
    if ks == [] then s else Put(PutAll(s, ks[..|ks| - 1], max), ks[|ks| - 1], max)
  }

  /** The positions of `ks` whose key is not in `s`, in order. */
  ghost function MissesOf(s: seq<Key>, ks: seq<Key>): seq<nat> {
    if ks == [] then []
    else MissesOf(s, ks[..|ks| - 1]) + if ks[|ks| - 1] in s then [] else [|ks| - 1]
  }

  ghost predicate InBounds(misses: seq<nat>, n: nat) {
    forall i | 0 <= i < |misses| :: misses[i] < n
  }

  function Pick<T>(s: seq<T>, indices: seq<nat>): seq<T>
    requires forall i | 0 <= i < |indices| :: indices[i] < |s|
  {
    seq(|indices|, i requires 0 <= i < |indices| => s[indices[i]])
  }

  /** Every variant either has its vector already or is listed as a miss. */
  ghost predicate Answers(embedder: Embedder, variants: seq<Content>, results: seq<Option<Embedding>>,
                          misses: seq<nat>) {
    && |results| == |variants| && InBounds(misses, |variants|)
    && forall i | 0 <= i < |variants| :: i in misses || results[i] == Some(embedder.vector(variants[i]))
  }

  // ---- which keys are cached ----

  /** A call with one variant: a hit moves its key to the front, a miss stores it. */
  ghost function ServedOne(s: seq<Key>, k: Key, max: nat): seq<Key> {
    if k in s then Touch(s, k) else Put(s, k, max)
  }

  lemma ServedSingle(embedder: Embedder, s: seq<Key>, v: Content, max: nat)
    ensures Served(embedder, s, [v], max) == ServedOne(s, embedder.KeyOf(v), max)
  {
    var k := embedder.KeyOf(v);
    assert embedder.KeysOf([v]) == [k] && [k][..0] == [];
    LookUpStep(s, [], k);
    assert [] + [k] == [k];
    if k !in s {
      assert Pick([k], [0]) == [k];
      PutAllStep(TouchAll(s, [k]), [], k, max);
    } else {
      assert Pick([k], []) == [];
    }
  }

  /** The key list of a fresh cache after one-variant calls for `ks`. */
  ghost function History(ks: seq<Key>, max: nat): seq<Key> {
    if ks == [] then [] else ServedOne(History(ks[..|ks| - 1], max), ks[|ks| - 1], max)
  }

  /** The different keys of `ks`, by how recently they were used. */
  ghost function Recent(ks: seq<Key>): seq<Key> {
    if ks == [] then [] else [ks[|ks| - 1]] + Without(Recent(ks[..|ks| - 1]), ks[|ks| - 1])
  }

  /** Where `k` was used last. */
  ghost function LastUse(ks: seq<Key>, k: Key): nat
    requires k in ks
  {
    if ks[|ks| - 1] == k then |ks| - 1 else LastUse(ks[..|ks| - 1], k)
  }

  lemma {:induction false} RecentIsByLastUse(ks: seq<Key>)
    ensures Distinct(Recent(ks))
    ensures forall k :: k in Recent(ks) <==> k in ks
    ensures forall i, j | 0 <= i < j < |Recent(ks)| :: LastUse(ks, Recent(ks)[j]) < LastUse(ks, Recent(ks)[i])
  {
    RecentElements(ks);
    if ks != [] {
      var rest := ks[..|ks| - 1];
      RecentIsByLastUse(rest);
      OrderOnward(ks, Recent(rest));
    }
  }

  /** Whether `s` holds keys of `ks`, those used later first. */
  ghost predicate ByLastUse(ks: seq<Key>, s: seq<Key>) {
    && (forall k | k in s :: k in ks)
    && forall i, j | 0 <= i < j < |s| :: LastUse(ks, s[j]) < LastUse(ks, s[i])
  }

  lemma OrderOnward(ks: seq<Key>, s: seq<Key>)
    requires ks != [] && Distinct(s) && ByLastUse(ks[..|ks| - 1], s)
    ensures ByLastUse(ks, [ks[|ks| - 1]] + Without(s, ks[|ks| - 1]))
  {
    var n := |ks| - 1;
    var rest, k := ks[..n], ks[n];
    WithoutElements(s, k);
    forall x | x in rest && x != k ensures x in ks && LastUse(ks, x) == LastUse(rest, x) < n {
      LastUseBound(rest, x);
    }
    WithoutOrder(rest, s, k);
  }

  lemma WithoutOrder(ks: seq<Key>, s: seq<Key>, x: Key)
    requires Distinct(s) && ByLastUse(ks, s)
    ensures ByLastUse(ks, Without(s, x))
  {
  }

  lemma {:induction false} RecentElements(ks: seq<Key>)
    ensures Distinct(Recent(ks))
    ensures forall k :: k in Recent(ks) <==> k in ks
  {
    if ks != [] {
      var n := |ks| - 1;
      RecentElements(ks[..n]);
      WithoutElements(Recent(ks[..n]), ks[n]);
      assert ks == ks[..n] + [ks[n]];
    }
  }

  lemma {:induction false} LastUseBound(ks: seq<Key>, k: Key)
    requires k in ks
    ensures LastUse(ks, k) < |ks|
  {
    if ks[|ks| - 1] != k {
      LastUseBound(ks[..|ks| - 1], k);
    }
  }

  /** In a list of distinct keys, taking one out keeps the others in order. */
  lemma WithoutElements(s: seq<Key>, x: Key)
    requires Distinct(s)
    ensures Distinct(Without(s, x))
    ensures forall k :: k in Without(s, x) <==> k in s && k != x
    ensures x in s ==> Without(s, x) == s[..IndexOf(s, x)] + s[IndexOf(s, x) + 1..]
  {
    if x in s {
      var i := IndexOf(s, x);
      assert s == s[..i] + [x] + s[i + 1..];
    }
  }

  /** After any sequence of one-variant calls the list is the `max` most recently used different
      keys, most recent first. */
  lemma {:induction false} HistoryIsMostRecent(ks: seq<Key>, max: nat)
    requires max > 0
    ensures History(ks, max) == Take(Recent(ks), max)
  {
    if ks != [] {
      var rest, k := ks[..|ks| - 1], ks[|ks| - 1];
      HistoryIsMostRecent(rest, max);
      RecentIsByLastUse(rest);
      ServedTake(Recent(rest), k, max);
    }
  }

  /** Serving a key commutes with cutting the list to capacity. */
  lemma ServedTake(r: seq<Key>, k: Key, max: nat)
    requires Distinct(r) && max > 0
    ensures ServedOne(Take(r, max), k, max) == Take([k] + Without(r, k), max)
  {
    var cut := Take(r, max);
    if k in cut {
      var i := IndexOf(cut, k);
      WithoutAt(cut, i);
      WithoutAt(r, i);
      TakeMoved(r, i, max);
    } else if k in r {
      var i := IndexOf(r, k);
      TakenAt(r, i, max);
      TakeBehind(r, k, i, max);
    } else {
      TakeTwice(r, k, max);
    }
  }

  lemma TakenAt(r: seq<Key>, i: nat, max: nat)
    requires i < |r|
    ensures i < max ==> r[i] in Take(r, max)
  {
    if i < max {
      assert Take(r, max)[i] == r[i];
    }
  }

  lemma TakeMoved(r: seq<Key>, i: nat, max: nat)
    requires i < |Take(r, max)|
    ensures [r[i]] + (Take(r, max)[..i] + Take(r, max)[i + 1..]) == Take([r[i]] + (r[..i] + r[i + 1..]), max)
  {
  }

  lemma TakeBehind(r: seq<Key>, k: Key, i: nat, max: nat)
    requires max <= i < |r| && max > 0
    ensures Take([k] + Take(r, max), max) == Take([k] + (r[..i] + r[i + 1..]), max)
  {
  }

  lemma TakeTwice(r: seq<Key>, k: Key, max: nat)
    requires max > 0
    ensures Take([k] + Take(r, max), max) == Take([k] + r, max)
  {
  }

  /** A larger cache holds everything a smaller one holds, in the same order. */
  lemma LargerCacheContainsSmaller(ks: seq<Key>, small: nat, large: nat)
    requires 0 < small <= large
    ensures History(ks, small) <= History(ks, large)
  {
    HistoryIsMostRecent(ks, small);
    HistoryIsMostRecent(ks, large);
  }
}
