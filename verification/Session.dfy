/** The three index kinds behind one interface. */
module VectorIndexes {
  import opened Types
  import opened Ranking
  import opened Filters
  import Engine = Search
  import Ivf
  import Hnsw
  import LayerSearch

  datatype VectorIndex =
    | AsFlat(flat: Engine.FlatIndex)
    | AsIvf(ivf: Ivf.IvfIndex)
    | AsHnsw(hnsw: Hnsw.HnswIndex)
  {
    function Obj(): object {
      match this
      case AsFlat(i) => i
      case AsIvf(i) => i
      case AsHnsw(i) => i
    }

    /** `filed` are the vectors an IVF index has its ids filed under. */
    ghost predicate Ok(filed: map<Id, Vec>)
      reads Obj()
    {
      match this
      case AsFlat(i) => i.Valid()
      case AsIvf(i) => i.Valid(filed)
      case AsHnsw(i) => i.Valid()
    }

    /** Flat's list, IVF's map and pending set, HNSW's nodes without tombstones. */
    ghost function Live(): set<Id>
      reads Obj()
    {
      match this
      case AsFlat(i) => set id | id in i.ids
      case AsIvf(i) => i.LiveIds()
      case AsHnsw(i) => Hnsw.LiveIds(i.nodes)
    }
  }

  /** The ids that a well-formed index lists. */
  ghost function Listed(index: VectorIndex, filed: map<Id, Vec>): Option<set<Id>>
    reads index.Obj()
  {
    if index.Ok(filed) then Some(index.Live()) else None
  }

  /** What an index keeps of removed ids: only HNSW keeps anything, as tombstones. */
  ghost function Dead(index: VectorIndex): set<Id>
    reads index.Obj()
  {
    if index.AsHnsw? then set id | id in index.hnsw.nodes && index.hnsw.nodes[id].tombstone else {}
  }

  /** As created: nothing in it, not even a tombstone. */
  ghost predicate IsEmpty(index: VectorIndex)
    reads index.Obj()
  {
    index.Ok(map[]) &&
    match index
    case AsFlat(i) => i.ids == []
    case AsIvf(i) => i.centroids == []
    case AsHnsw(i) => i.nodes == map[]
  }

  lemma EmptyListsNothing(index: VectorIndex)
    requires IsEmpty(index)
    ensures Listed(index, map[]) == Some({}) && Dead(index) == {}
  {
    assert index.Live() == {};
  }

  /** Iterating a hash map: its keys in any order. */
  method HashOrder(keys: set<Id>) returns (order: seq<Id>)
    ensures Enumerates(order, keys)
  {
    order := [];
    var rest := keys;
    while rest != {}
      invariant rest <= keys && Enumerates(order, keys - rest)
      decreases |rest|
    {
      var id :| id in rest;
      order := order + [id];
      rest := rest - {id};
    }
    assert keys - rest == keys;
  }

  /** `insert`: the reader already holds the new vector.  IVF may cluster everything the reader holds. */
  method InsertVector(index: VectorIndex, id: Id, vector: Vec, vectors: map<Id, Vec>, layer: nat,
                      ghost filed: map<Id, Vec>, ghost live: set<Id>, ghost d: nat)
    returns (ghost now: map<Id, Vec>)
    requires Listed(index, filed) == Some(live) && Ivf.AllDim(vectors, d)
    requires live <= vectors.Keys && id in vectors && vectors[id] == vector
    modifies index.Obj()
    ensures index.Ok(now) && live + {id} <= index.Live() <= vectors.Keys
    ensures !index.AsIvf? ==> index.Live() == live + {id}
    ensures Dead(index) == old(Dead(index)) - {id}
  {
    now := filed;
    match index
    case AsFlat(flat) => flat.Insert(id);
    case AsIvf(ivf) => now := InsertIvf(ivf, id, vector, vectors, filed, d);
    case AsHnsw(hnsw) => InsertHnsw(hnsw, id, vector, vectors, layer);
  }

  method InsertHnsw(hnsw: Hnsw.HnswIndex, id: Id, vector: Vec, vectors: map<Id, Vec>, layer: nat)
    requires hnsw.Valid()
    modifies hnsw
    ensures hnsw.Valid() && Hnsw.LiveIds(hnsw.nodes) == old(Hnsw.LiveIds(hnsw.nodes)) + {id}
    ensures Dead(AsHnsw(hnsw)) == old(Dead(AsHnsw(hnsw))) - {id}
  {
    ghost var before := hnsw.nodes;
    hnsw.Insert(id, vector, vectors, layer);
    assert id in Hnsw.LiveIds(hnsw.nodes);
    assert hnsw.nodes.Keys == before.Keys + {id};
  }

  method InsertIvf(ivf: Ivf.IvfIndex, id: Id, vector: Vec, vectors: map<Id, Vec>, ghost filed: map<Id, Vec>,
                   ghost d: nat)
    returns (ghost now: map<Id, Vec>)
    requires ivf.Valid(filed) && Ivf.AllDim(vectors, d)
    requires ivf.LiveIds() <= vectors.Keys && id in vectors && vectors[id] == vector
    modifies ivf
    ensures ivf.Valid(now) && old(ivf.LiveIds()) + {id} <= ivf.LiveIds() <= vectors.Keys
  {
    var order := HashOrder(vectors.Keys);
    assert ivf.LiveIds() == filed.Keys;
    now := ivf.Insert(id, vector, vectors, order, filed, d);
  }

  /** When the reader holds the live ids and the new one, or the index is not IVF, exactly the new id is added. */
  method InsertOne(index: VectorIndex, id: Id, vector: Vec, vectors: map<Id, Vec>, layer: nat,
                   ghost filed: map<Id, Vec>, ghost live: set<Id>, ghost d: nat)
    returns (ghost now: map<Id, Vec>)
    requires Listed(index, filed) == Some(live) && Readable(index.AsHnsw?, vectors, live, id, vector, d)
    modifies index.Obj()
    ensures Listed(index, now) == Some(live + {id}) && Dead(index) == old(Dead(index)) - {id}
  {
    now := InsertVector(index, id, vector, vectors, layer, filed, live, d);
    assert index.Live() == live + {id};
  }

  ghost predicate Readable(hnsw: bool, vectors: map<Id, Vec>, live: set<Id>, id: Id, vector: Vec, d: nat) {
    && Ivf.AllDim(vectors, d) && live + {id} <= vectors.Keys && vectors[id] == vector
    && (!hnsw ==> vectors.Keys == live + {id})
  }

  /** `rebuild_index`: every vector is readable from the start, and ids go in one by one. */
  method FillIndex(index: VectorIndex, vectors: map<Id, Vec>, list: seq<Id>, layers: seq<nat>, ghost d: nat)
    returns (ghost filed: map<Id, Vec>)
    requires IsEmpty(index) && Firsts(list, |list|) == vectors.Keys && |layers| == |list|
    requires Ivf.AllDim(vectors, d)
    modifies index.Obj()
    ensures Listed(index, filed) == Some(vectors.Keys) && Dead(index) == {}
  {
    EmptyListsNothing(index);
    filed := map[];
    ghost var live: set<Id> := {};
    var i := 0;
    while i < |list|
      invariant 0 <= i <= |list| && Listed(index, filed) == Some(live) && Dead(index) == {}
      invariant Firsts(list, i) <= live <= vectors.Keys
    {
      assert list[i] in vectors by { FirstsGrow(list, i + 1, |list|); }
      filed, live := InsertReadable(index, list[i], vectors, layers[i], filed, live, d);
      i := i + 1;
    }
    assert live == vectors.Keys;
  }

  /** One more id, while the reader holds everything; IVF may cluster all of it at once. */
  method InsertReadable(index: VectorIndex, id: Id, vectors: map<Id, Vec>, layer: nat, ghost filed: map<Id, Vec>,
                        ghost live: set<Id>, ghost d: nat)
    returns (ghost now: map<Id, Vec>, ghost after: set<Id>)
    requires Listed(index, filed) == Some(live) && live <= vectors.Keys && id in vectors && Ivf.AllDim(vectors, d)
    modifies index.Obj()
    ensures Listed(index, now) == Some(after) && live + {id} <= after <= vectors.Keys
    ensures Dead(index) == old(Dead(index)) - {id}
  {
    now := InsertVector(index, id, vectors[id], vectors, layer, filed, live, d);
    after := index.Live();
  }

  /** The reader after the first n of a list have been copied. */
  function Copied(vectors: map<Id, Vec>, list: seq<Id>, n: nat): map<Id, Vec>
    requires n <= |list| && Firsts(list, n) <= vectors.Keys
  {
    if n == 0 then map[] else Copied(vectors, list, n - 1)[list[n - 1] := vectors[list[n - 1]]]
  }

  lemma {:induction false} CopiedIs(vectors: map<Id, Vec>, list: seq<Id>, n: nat, d: nat)
    requires n <= |list| && Firsts(list, n) <= vectors.Keys && Ivf.AllDim(vectors, d)
    ensures Copied(vectors, list, n).Keys == Firsts(list, n) && Ivf.AllDim(Copied(vectors, list, n), d)
  {
    if n > 0 { CopiedIs(vectors, list, n - 1, d); }
  }

  lemma NextCopied(vectors: map<Id, Vec>, list: seq<Id>, i: nat)
    requires i < |list| && Firsts(list, |list|) == vectors.Keys
    ensures list[i] in vectors && Firsts(list, i) <= Firsts(list, i + 1) <= vectors.Keys
    ensures Copied(vectors, list, i + 1) == Copied(vectors, list, i)[list[i] := vectors[list[i]]]
  {
    FirstsGrow(list, i, i + 1);
    FirstsGrow(list, i + 1, |list|);
  }

  /** `compact`: the reader holds the vectors copied so far. */
  method FillGrowing(index: VectorIndex, vectors: map<Id, Vec>, list: seq<Id>, layers: seq<nat>, ghost d: nat)
    returns (ghost filed: map<Id, Vec>)
    requires IsEmpty(index) && Firsts(list, |list|) == vectors.Keys && |layers| == |list|
    requires Ivf.AllDim(vectors, d)
    modifies index.Obj()
    ensures Listed(index, filed) == Some(vectors.Keys) && Dead(index) == {}
  {
    EmptyListsNothing(index);
    filed := map[];
    var reader: map<Id, Vec> := map[];
    var i := 0;
    while i < |list|
      invariant 0 <= i <= |list| && Firsts(list, i) <= vectors.Keys && reader == Copied(vectors, list, i)
      invariant Listed(index, filed) == Some(Firsts(list, i)) && Dead(index) == {}
    {
      reader, filed := CopyNext(index, vectors, list, i, reader, layers[i], filed, d);
      i := i + 1;
    }
  }

  /** One more id, once the reader holds its vector too. */
  method CopyNext(index: VectorIndex, vectors: map<Id, Vec>, list: seq<Id>, i: nat, reader: map<Id, Vec>, layer: nat,
                  ghost filed: map<Id, Vec>, ghost d: nat)
    returns (next: map<Id, Vec>, ghost now: map<Id, Vec>)
    requires i < |list| && Firsts(list, |list|) == vectors.Keys && Firsts(list, i) <= vectors.Keys
    requires Ivf.AllDim(vectors, d) && reader == Copied(vectors, list, i)
    requires Listed(index, filed) == Some(Firsts(list, i))
    modifies index.Obj()
    ensures Firsts(list, i + 1) <= vectors.Keys && next == Copied(vectors, list, i + 1)
    ensures Listed(index, now) == Some(Firsts(list, i + 1)) && Dead(index) == old(Dead(index)) - {list[i]}
  {
    NextCopied(vectors, list, i);
    CopiedIs(vectors, list, i + 1, d);
    var id := list[i];
    next := reader[id := vectors[id]];
    now := InsertOne(index, id, vectors[id], next, layer, filed, Firsts(list, i), d);
  }

  method RemoveVector(index: VectorIndex, id: Id, ghost filed: map<Id, Vec>, ghost live: set<Id>)
    returns (ghost now: map<Id, Vec>)
    requires Listed(index, filed) == Some(live)
    modifies index.Obj()
    ensures Listed(index, now) == Some(live - {id})
  {
    now := filed;
    match index {
      case AsFlat(flat) => flat.Remove(id);
      case AsIvf(ivf) =>
        ivf.Remove(id, filed);
        now := filed - {id};
      case AsHnsw(hnsw) => hnsw.Remove(id);
    }
    assert index.Live() == live - {id};
  }

  /** What the three kinds of index return for the best n, as each of them promises it. */
  ghost predicate FoundBy(index: VectorIndex, query: Vec, n: nat, effort: nat, vectors: map<Id, Vec>,
                          filter: Option<Conditions>, metadatas: map<Id, Metadata>, ids: seq<Id>)
    reads index.Obj()
  {
    match index
    case AsFlat(i) => TopOf(i.ids, ids, n, ScoreIn(i.score, query, vectors))
    case AsIvf(i) => FoundByProbing(i.score, query, i.centroids, i.lists, n, effort, vectors, ids)
    case AsHnsw(i) => FoundInGraph(i.nodes, i.dist, i.start, query, n, effort, vectors, filter, metadatas, ids)
  }

  ghost function ScoreIn(score: Score, query: Vec, vectors: map<Id, Vec>): Id -> real {
    (id: Id) => if id in vectors then score(query, vectors[id]) else 0.0
  }

  ghost predicate FoundByProbing(score: Score, query: Vec, centroids: seq<Vec>, lists: seq<seq<Id>>, n: nat,
                                 effort: nat, vectors: map<Id, Vec>, ids: seq<Id>) {
    exists visit :: Ivf.ProbesBest(score, query, centroids, effort, visit)
      && TopOf(Ivf.Candidates(lists, visit), ids, n, ScoreIn(score, query, vectors))
  }

  ghost predicate FoundInGraph(g: LayerSearch.Graph, dist: (Vec, Vec) -> real, start: Option<Id>, query: Vec, n: nat,
                               effort: nat, vectors: map<Id, Vec>, filter: Option<Conditions>,
                               metadatas: map<Id, Metadata>, ids: seq<Id>) {
    if start.None? || !Hnsw.Passes(vectors, filter, metadatas, start.value) then ids == []
    else
      var width := if effort > n then effort else n;
      Hnsw.BottomOk(g, dist, query, vectors, filter, metadatas, start.value, ids, n, width)
  }

  /** With a vector for every live id, only an index that was never clustered refuses a search, and hits are live. */
  method SearchIndex(index: VectorIndex, query: Vec, k: nat, effort: nat, vectors: map<Id, Vec>,
                     filter: Option<Conditions>, metadatas: map<Id, Metadata>, ghost filed: map<Id, Vec>,
                     ghost live: set<Id>)
    returns (r: Result<seq<Id>, Engine.SearchError>)
    requires Listed(index, filed) == Some(live) && live <= vectors.Keys
    ensures r.Err? <==> index.AsIvf? && index.ivf.centroids == []
    ensures r.Err? ==> r.error == Engine.NotInitialized
    ensures r.Ok? ==> |r.value| <= k && forall id :: id in r.value ==> id in live
    ensures r.Ok? ==> FoundBy(index, query, k, effort, vectors, filter, metadatas, r.value)
    ensures index.AsFlat? ==> r == Ok(Best(index.flat.ids, Engine.Rank(index.flat.score, query, vectors), k))
  {
    match index
    case AsFlat(flat) =>
      r := flat.Search(query, k, vectors);
      Engine.BestMembers(flat.ids, Engine.Rank(flat.score, query, vectors), k);
      SameScore(flat.ids, r.value, k, flat.score, query, vectors);
    case AsIvf(ivf) =>
      ghost var visit;
      r, visit := ivf.Search(query, k, vectors, effort);
      if ivf.centroids != [] {
        IvfHits(ivf, query, k, vectors, effort, filed);
        SameScore(Ivf.Candidates(ivf.lists, visit), r.value, k, ivf.score, query, vectors);
      }
    case AsHnsw(hnsw) =>
      r := hnsw.Search(query, k, effort, vectors, filter, metadatas);
  }

  lemma SameScore(all: seq<Id>, best: seq<Id>, k: nat, score: Score, query: Vec, vectors: map<Id, Vec>)
    requires TopOf(all, best, k, (id: Id) => if id in vectors then score(query, vectors[id]) else 0.0)
    ensures TopOf(all, best, k, ScoreIn(score, query, vectors))
  {}

  lemma IvfHits(ivf: Ivf.IvfIndex, query: Vec, k: nat, vectors: map<Id, Vec>, nprobe: nat, filed: map<Id, Vec>)
    requires ivf.Valid(filed) && ivf.centroids != [] && ivf.LiveIds() <= vectors.Keys
    ensures var found := Ivf.Candidates(ivf.lists, Ivf.Probed(ivf.score, query, ivf.centroids, nprobe));
            && (forall id :: id in found ==> id in vectors)
            && forall id :: id in Best(found, Engine.Rank(ivf.score, query, vectors), k) ==> id in ivf.LiveIds()
  {
    var found := Ivf.Candidates(ivf.lists, Ivf.Probed(ivf.score, query, ivf.centroids, nprobe));
    Ivf.ProbedIsBest(ivf.score, query, ivf.centroids, nprobe);
    Ivf.CandidatesMembers(ivf.lists, ivf.cluster, Ivf.Probed(ivf.score, query, ivf.centroids, nprobe));
    Engine.BestMembers(found, Engine.Rank(ivf.score, query, vectors), k);
  }
}

/** What the stored documents, the vector index and the caches agree on between public operations. */
module Session {
  import opened Types
  import opened Filters
  import opened Cache
  import opened VectorIndexes
  import Ivf
  import Engine = Search

  /** What must agree: the index's live ids, the caches, and what the pointer index reads back. */
  datatype Held = Held(live: set<Id>, cache: Cached, docs: map<Id, Document>)

  /** Settings that never change: only HNSW leaves the vectors of deleted documents in the cache. */
  datatype Setup = Setup(hnsw: bool, enabled: bool, maxSize: nat, dim: nat)

  /**
   * The ids on which they disagree: live but not stored or stored but not live, a document under another id or
   * of another dimension, a missing, foreign or stale vector, or metadata that is not the document's own.
   */
  ghost function Disagreements(h: Held, s: Setup): set<Id> {
    (h.live - h.docs.Keys) + (h.docs.Keys - h.live)
    + BadVectors(h.cache.vectors, h.docs, s) + BadMetadata(h.cache.queue.metadata, h.docs, s.enabled)
  }

  ghost function BadVectors(vectors: map<Id, Vec>, docs: map<Id, Document>, s: Setup): set<Id> {
    (set id | id in docs
       && !(docs[id].id == id && |docs[id].vector| == s.dim && id in vectors && vectors[id] == docs[id].vector))
    + (set id | id in vectors && !(|vectors[id]| == s.dim && (!s.hnsw ==> id in docs)))
  }

  ghost function BadMetadata(metadata: map<Id, Metadata>, docs: map<Id, Document>, enabled: bool): set<Id> {
    set id | id in metadata && !(enabled && id in docs && metadata[id] == docs[id].metadata)
  }

  function WithVector(h: Held, id: Id, vector: Vec): Held {
    h.(cache := h.cache.(vectors := h.cache.vectors[id := vector]))
  }

  function WithMetadata(h: Held, id: Id, value: map<string, MetadataValue>, s: Setup): Held {
    h.(cache := h.cache.(queue := if s.enabled then Put(h.cache.queue, id, value, s.maxSize) else h.cache.queue))
  }

  function WithDocument(h: Held, doc: Document): Held { h.(docs := h.docs[doc.id := doc]) }

  /** Storing, caching and indexing one document. */
  function WithAll(h: Held, doc: Document, s: Setup): Held {
    var cached := WithMetadata(WithVector(WithDocument(h, doc), doc.id, doc.vector), doc.id, doc.metadata, s);
    cached.(live := h.live + {doc.id})
  }

  function Without(h: Held, id: Id, s: Setup): Held {
    var vectors := if s.hnsw then h.cache.vectors else h.cache.vectors - {id};
    Held(h.live - {id}, Cached(vectors, Dropped(h.cache.queue, id)), h.docs - {id})
  }

  lemma Agreement(h: Held, s: Setup)
    requires Disagreements(h, s) == {}
    ensures h.live == h.docs.Keys <= h.cache.vectors.Keys && (!s.hnsw ==> h.docs.Keys == h.cache.vectors.Keys)
    ensures Coherent(h.cache, h.docs) && Ivf.AllDim(h.cache.vectors, s.dim)
    ensures forall id :: id in h.docs ==> h.docs[id].id == id && |h.docs[id].vector| == s.dim
  {
    forall id ensures
      && (id in h.live <==> id in h.docs)
      && (id in h.docs ==> h.docs[id].id == id && |h.docs[id].vector| == s.dim && id in h.cache.vectors)
      && (id in h.docs && id in h.cache.vectors ==> h.cache.vectors[id] == h.docs[id].vector)
      && (id in h.cache.vectors ==> |h.cache.vectors[id]| == s.dim && (!s.hnsw ==> id in h.docs))
      && (id in h.cache.queue.metadata ==> id in h.docs && h.cache.queue.metadata[id] == h.docs[id].metadata)
    {
      assert id !in Disagreements(h, s);
    }
  }

  lemma PuttingKeeps(q: Queue, docs: map<Id, Document>, doc: Document, s: Setup)
    requires BadMetadata(q.metadata, docs, s.enabled) == {}
    ensures var now := if s.enabled then Put(q, doc.id, doc.metadata, s.maxSize) else q;
            BadMetadata(now.metadata, docs[doc.id := doc], s.enabled) == {}
  {
    PutOnlyAdds(q, doc.id, doc.metadata, s.maxSize);
    var now, later := if s.enabled then Put(q, doc.id, doc.metadata, s.maxSize) else q, docs[doc.id := doc];
    forall id ensures id !in BadMetadata(now.metadata, later, s.enabled) {
      assert id !in BadMetadata(q.metadata, docs, s.enabled);
    }
  }

  lemma VectorKeeps(vectors: map<Id, Vec>, docs: map<Id, Document>, doc: Document, s: Setup)
    requires BadVectors(vectors, docs, s) == {} && |doc.vector| == s.dim
    ensures BadVectors(vectors[doc.id := doc.vector], docs[doc.id := doc], s) == {}
  {
    var now, later := vectors[doc.id := doc.vector], docs[doc.id := doc];
    forall id ensures id !in BadVectors(now, later, s) { assert id !in BadVectors(vectors, docs, s); }
  }

  lemma Parts(h: Held, s: Setup)
    ensures Disagreements(h, s) == {} <==>
      h.live == h.docs.Keys && BadVectors(h.cache.vectors, h.docs, s) == {}
        && BadMetadata(h.cache.queue.metadata, h.docs, s.enabled) == {}
  {}

  lemma StoringKeeps(h: Held, doc: Document, s: Setup)
    requires Disagreements(h, s) == {} && |doc.vector| == s.dim
    ensures Disagreements(WithAll(h, doc, s), s) == {}
  {
    Parts(h, s);
    PuttingKeeps(h.cache.queue, h.docs, doc, s);
    VectorKeeps(h.cache.vectors, h.docs, doc, s);
    assert h.docs[doc.id := doc].Keys == h.docs.Keys + {doc.id};
    Parts(WithAll(h, doc, s), s);
  }

  /** By the time the index is told, the cache can be read for every live id and the new one. */
  lemma StoringReadable(h: Held, doc: Document, s: Setup)
    requires Disagreements(h, s) == {} && |doc.vector| == s.dim
    ensures Readable(s.hnsw, WithAll(h, doc, s).cache.vectors, h.live, doc.id, doc.vector, s.dim)
    ensures doc.id in h.docs ==>
      Readable(s.hnsw, WithAll(h, doc, s).cache.vectors, h.live - {doc.id}, doc.id, doc.vector, s.dim)
    ensures doc.id in h.docs ==> h.live - {doc.id} + {doc.id} == h.live + {doc.id}
  {
    Agreement(h, s);
  }

  /** With the cache on, the document's metadata is in it afterwards. */
  lemma StoringCaches(h: Held, doc: Document, s: Setup)
    ensures s.enabled && s.maxSize > 0 && Fits(h.cache.queue, s.maxSize) ==>
      doc.id in WithAll(h, doc, s).cache.queue.metadata
  {
    if s.maxSize > 0 && Fits(h.cache.queue, s.maxSize) { PutIsLast(h.cache.queue, doc.id, doc.metadata, s.maxSize); }
  }

  /** Caching metadata alone suffices when the vector has not changed. */
  lemma MetadataKeeps(h: Held, doc: Document, s: Setup)
    requires Disagreements(h, s) == {} && doc.id in h.docs && doc.vector == h.docs[doc.id].vector
    ensures Disagreements(WithMetadata(WithDocument(h, doc), doc.id, doc.metadata, s), s) == {}
  {
    Agreement(h, s);
    StoringKeeps(h, doc, s);
    assert h.cache.vectors[doc.id := doc.vector] == h.cache.vectors;
    assert h.live + {doc.id} == h.live;
    assert WithAll(h, doc, s) == WithMetadata(WithDocument(h, doc), doc.id, doc.metadata, s);
  }

  lemma DeletingKeeps(h: Held, id: Id, s: Setup)
    requires Disagreements(h, s) == {}
    ensures Disagreements(Without(h, id, s), s) == {}
  {
    var now := Without(h, id, s);
    forall x ensures x !in Disagreements(now, s) { assert x !in Disagreements(h, s); }
  }

  lemma ClearingKeeps(h: Held, s: Setup)
    requires Disagreements(h, s) == {}
    ensures Disagreements(h.(cache := h.cache.(queue := EMPTY)), s) == {}
  {
    var now := h.(cache := h.cache.(queue := EMPTY));
    forall x ensures x !in Disagreements(now, s) { assert x !in Disagreements(h, s); }
  }

  function VectorsOf(docs: map<Id, Document>): (r: map<Id, Vec>)
    ensures r.Keys == docs.Keys
  {
    map id | id in docs :: docs[id].vector
  }

  lemma RefilledAgrees(docs: map<Id, Document>, list: seq<Id>, s: Setup)
    requires Firsts(list, |list|) == docs.Keys
    requires forall id :: id in docs ==> docs[id].id == id && |docs[id].vector| == s.dim
    ensures Disagreements(Held(docs.Keys, Refilled(docs, list, |list|, s.enabled, s.maxSize), docs), s) == {}
  {
    RefilledIs(docs, list, |list|, s.enabled, s.maxSize);
    if !s.enabled { NothingCached(docs, list, |list|, s.maxSize); }
  }

  lemma {:induction false} NothingCached(docs: map<Id, Document>, list: seq<Id>, n: nat, maxSize: nat)
    requires n <= |list|
    ensures Refilled(docs, list, n, false, maxSize).queue == EMPTY
  {
    if n > 0 { NothingCached(docs, list, n - 1, maxSize); }
  }

  lemma ListSize(list: seq<Id>, keys: set<Id>)
    requires Enumerates(list, keys)
    ensures |list| == |keys|
  {
    DistinctSize<Id>(list);
    var members: set<Id> := set x: Id | x in list;
    assert members == keys;
  }

  class Session {
    const cache: CacheManager
    const dim: nat
    var docs: map<Id, Document>
    var index: VectorIndex
    ghost var live: set<Id>
    ghost var filed: map<Id, Vec>

    ghost function Setting(): Setup reads this { Setup(index.AsHnsw?, cache.enabled, cache.maxSize, dim) }

    ghost function Now(): Held reads this, cache { Held(live, cache.View(), docs) }

    /** Index and caches are those of `h`, and these agree. */
    ghost predicate Holds(h: Held)
      reads this, cache, index.Obj()
    {
      && Listed(index, filed) == Some(live) && live == h.live && cache.View() == h.cache
      && Disagreements(h, Setting()) == {}
    }

    /** The vector index lists exactly the stored ids, and the caches hold the documents' own values. */
    ghost predicate Agrees()
      reads this, cache, index.Obj()
    {
      Holds(Now())
    }

    /** A new collection: everything is empty. */
    constructor (cache: CacheManager, dim: nat, index: VectorIndex)
      requires cache.View() == Cached(map[], EMPTY) && IsEmpty(index)
      ensures Agrees() && docs == map[] && this.cache == cache && this.index == index && this.dim == dim
    {
      EmptyListsNothing(index);
      this.cache, this.dim, this.index, docs, live, filed := cache, dim, index, map[], {}, map[];
    }

    method CacheDocument(doc: Document)
      modifies cache
      ensures cache.View() == PutDocument(old(cache.View()), doc.id, doc, cache.enabled, cache.maxSize)
    {
      cache.PutVector(doc.id, doc.vector);
      cache.PutMetadata(doc.id, doc.metadata);
    }

    /** Caches a document and gives its vector to the index. */
    method IndexDocument(doc: Document, layer: nat, ghost h: Held) returns (ghost after: Held)
      requires Holds(h) && |doc.vector| == dim
      modifies cache, index.Obj(), `filed, `live
      ensures after == WithAll(h, doc, Setting()) && Holds(after)
    {
      after := WithAll(h, doc, Setting());
      StoringKeeps(h, doc, Setting());
      StoringReadable(h, doc, Setting());
      CacheDocument(doc);
      filed := InsertOne(index, doc.id, doc.vector, cache.vectors, layer, filed, live, dim);
      live := live + {doc.id};
    }

    method InsertInternal(doc: Document, layer: nat)
      requires Agrees() && |doc.vector| == dim
      modifies this, cache, index.Obj()
      ensures Agrees() && index == old(index) && docs == old(docs)[doc.id := doc]
      ensures cache.View() == WithAll(old(Now()), doc, old(Setting())).cache
      ensures cache.enabled && cache.maxSize > 0 && old(Fits(cache.View().queue, cache.maxSize)) ==>
        doc.id in cache.metadata
    {
      ghost var h := Now();
      StoringCaches(h, doc, Setting());
      docs := docs[doc.id := doc];
      ghost var after := IndexDocument(doc, layer, h);
    }

    method DeleteInternal(id: Id)
      requires Agrees()
      modifies this, cache, index.Obj()
      ensures Agrees() && index == old(index) && docs == old(docs) - {id}
      ensures cache.View() == Without(old(Now()), id, old(Setting())).cache
    {
      ghost var h := Now();
      docs := docs - {id};
      DropFromIndexAndCache(id, h);
    }

    method DropFromIndexAndCache(id: Id, ghost h: Held)
      requires Holds(h)
      modifies cache, index.Obj(), `filed, `live
      ensures Holds(Without(h, id, Setting()))
    {
      DeletingKeeps(h, id, Setting());
      filed := RemoveVector(index, id, filed, live);
      live := live - {id};
      cache.Remove(id, !index.AsHnsw?);
    }

    /** The new documents are stored first; cache and index then take them one by one. */
    method InsertBatch(batch: seq<Document>, layers: seq<nat>)
      requires Agrees() && |layers| == |batch| && forall i :: 0 <= i < |batch| ==> |batch[i].vector| == dim
      modifies this, cache, index.Obj()
      ensures Agrees() && index == old(index) && docs == Stored(old(docs), batch, |batch|)
    {
      ghost var h := Now();
      StoreAll(batch);
      ghost var after := IndexAll(batch, layers, h);
      BatchStored(h, batch, Setting());
    }

    method StoreAll(batch: seq<Document>)
      modifies `docs
      ensures docs == Stored(old(docs), batch, |batch|)
    {
      ghost var before := docs;
      var i := 0;
      while i < |batch|
        invariant 0 <= i <= |batch| && docs == Stored(before, batch, i)
      {
        docs := docs[batch[i].id := batch[i]];
        i := i + 1;
      }
    }

    /** `h` is what held before the batch was stored. */
    method IndexAll(batch: seq<Document>, layers: seq<nat>, ghost h: Held) returns (ghost after: Held)
      requires |layers| == |batch| && forall i :: 0 <= i < |batch| ==> |batch[i].vector| == dim
      requires Holds(h)
      modifies cache, index.Obj(), `filed, `live
      ensures after == WithBatch(h, batch, 0, Setting()) && Holds(after)
    {
      after := h;
      ghost var s := Setting();
      var i := 0;
      while i < |batch|
        invariant 0 <= i <= |batch| && Holds(after) && Setting() == s
        invariant WithBatch(after, batch, i, s) == WithBatch(h, batch, 0, s)
      {
        after := IndexDocument(batch[i], layers[i], after);
        i := i + 1;
      }
    }

    method Upsert(doc: Document, layer: nat)
      requires Agrees() && |doc.vector| == dim
      modifies this, cache, index.Obj()
      ensures Agrees() && index == old(index) && docs == old(docs)[doc.id := doc]
    {
      Removing(docs, doc.id);
      if doc.id in docs { Forget(doc.id); }
      InsertInternal(doc, layer);
    }

    method Forget(id: Id)
      requires Agrees()
      modifies this, cache, index.Obj()
      ensures Agrees() && index == old(index) && docs == old(docs) - {id}
    {
      DeleteInternal(id);
    }

    method Delete(id: Id) returns (deleted: bool)
      requires Agrees()
      modifies this, cache, index.Obj()
      ensures Agrees() && index == old(index) && docs == old(docs) - {id} && deleted == (id in old(docs))
      ensures |docs| + (if deleted then 1 else 0) == |old(docs)|
    {
      deleted := id in docs;
      Removing(docs, id);
      if deleted { Forget(id); }
    }

    /** Ids that are not stored, and repeats, are skipped. */
    method DeleteBatch(ids: seq<Id>) returns (count: nat)
      requires Agrees()
      modifies this, cache, index.Obj()
      ensures Agrees() && index == old(index) && docs == old(docs) - set id | id in ids
      ensures |docs| + count == |old(docs)|
    {
      count := 0;
      var i := 0;
      LessRestIs(docs, ids, 0);
      assert ids[0..] == ids;
      while i < |ids|
        invariant 0 <= i <= |ids| && Agrees() && index == old(index)
          && LessRest(docs, ids, i) == LessRest(old(docs), ids, 0)
        invariant |docs| + count == |old(docs)|
      {
        var deleted := Delete(ids[i]);
        if deleted { count := count + 1; }
        i := i + 1;
      }
    }

    method UpdateMetadata(id: Id, metadata: map<string, MetadataValue>) returns (found: bool)
      requires Agrees()
      modifies this, cache
      ensures Agrees() && index == old(index) && found == (id in old(docs))
      ensures docs == if found then old(docs)[id := old(docs)[id].(metadata := metadata)] else old(docs)
    {
      if id !in docs { return false; }
      var doc := docs[id].(metadata := metadata);
      OwnId(Now(), id, Setting());
      StoreMetadata(doc);
      found := true;
    }

    method StoreMetadata(doc: Document)
      requires Agrees() && doc.id in docs && doc.vector == docs[doc.id].vector
      modifies this, cache
      ensures Agrees() && index == old(index) && docs == old(docs)[doc.id := doc]
    {
      ghost var next := WithMetadata(WithDocument(Now(), doc), doc.id, doc.metadata, Setting());
      MetadataKeeps(Now(), doc, Setting());
      docs := docs[doc.id := doc];
      cache.PutMetadata(doc.id, doc.metadata);
      assert cache.View() == next.cache && Now() == next;
    }

    /** The cache takes the new vector before the index forgets the old one. */
    method UpdateVector(id: Id, vector: Vec, layer: nat) returns (found: bool)
      requires Agrees() && |vector| == dim
      modifies this, cache, index.Obj()
      ensures Agrees() && index == old(index) && found == (id in old(docs))
      ensures docs == if found then old(docs)[id := old(docs)[id].(vector := vector)] else old(docs)
    {
      if id !in docs { return false; }
      var doc := docs[id].(vector := vector);
      OwnId(Now(), id, Setting());
      StoreVector(doc, layer);
      found := true;
    }

    method StoreVector(doc: Document, layer: nat)
      requires Agrees() && doc.id in docs && |doc.vector| == dim
      modifies this, cache, index.Obj()
      ensures Agrees() && index == old(index) && docs == old(docs)[doc.id := doc]
    {
      ghost var h := Now();
      StoringKeeps(h, doc, Setting());
      StoringReadable(h, doc, Setting());
      docs := docs[doc.id := doc];
      CacheAndReindex(doc, layer, h);
    }

    method CacheAndReindex(doc: Document, layer: nat, ghost h: Held)
      requires Listed(index, filed) == Some(live) && live == h.live && cache.View() == h.cache
      requires Readable(index.AsHnsw?, WithAll(h, doc, Setting()).cache.vectors, live - {doc.id}, doc.id, doc.vector,
                        dim)
      requires live - {doc.id} + {doc.id} == live + {doc.id}
      modifies cache, index.Obj(), `filed, `live
      ensures Listed(index, filed) == Some(live) && Now() == WithAll(h, doc, Setting()).(docs := docs)
    {
      CacheDocument(doc);
      Reindex(doc.id, doc.vector, layer);
    }

    /** Remove, then insert under the new vector. */
    method Reindex(id: Id, vector: Vec, layer: nat)
      requires Listed(index, filed) == Some(live)
      requires Readable(index.AsHnsw?, cache.vectors, live - {id}, id, vector, dim)
      requires live - {id} + {id} == live + {id}
      modifies index.Obj(), `filed, `live
      ensures Listed(index, filed) == Some(live) && live == old(live) + {id}
    {
      filed := RemoveVector(index, id, filed, live);
      filed := InsertOne(index, id, vector, cache.vectors, layer, filed, live - {id}, dim);
      live := live + {id};
    }

    /** Rebuilds index and caches from the stored documents; `empty` is the new, empty index. */
    method RebuildIndex(empty: VectorIndex, layers: seq<nat>)
      requires Agrees() && IsEmpty(empty) && |layers| == |docs|
      modifies this, cache, empty.Obj()
      ensures Agrees() && index == empty && docs == old(docs)
      ensures Listed(index, filed) == Some(docs.Keys) && Dead(index) == {}
    {
      var list := DocumentOrder();
      ghost var now := FillIndex(empty, VectorsOf(docs), list, layers, dim);
      Install(empty, list, now);
    }

    /** The index and cache side of compaction, which copies the documents one by one. */
    method RebuildForCompaction(empty: VectorIndex, layers: seq<nat>)
      requires Agrees() && IsEmpty(empty) && |layers| == |docs|
      modifies this, cache, empty.Obj()
      ensures Agrees() && index == empty && docs == old(docs)
      ensures Listed(index, filed) == Some(docs.Keys) && Dead(index) == {}
    {
      var list := DocumentOrder();
      ghost var now := FillGrowing(empty, VectorsOf(docs), list, layers, dim);
      Install(empty, list, now);
    }

    method DocumentOrder() returns (list: seq<Id>)
      requires Agrees()
      ensures |list| == |docs| && Firsts(list, |list|) == docs.Keys && Ivf.AllDim(VectorsOf(docs), dim)
      ensures forall id :: id in docs ==> docs[id].id == id && |docs[id].vector| == dim
    {
      list := HashOrder(docs.Keys);
      FirstsAre(list, |list|, docs.Keys);
      ListSize(list, docs.Keys);
      assert |docs| == |docs.Keys|;
      Agreement(Now(), Setting());
    }

    method Install(empty: VectorIndex, list: seq<Id>, ghost now: map<Id, Vec>)
      requires Listed(empty, now) == Some(docs.Keys) && Dead(empty) == {} && Firsts(list, |list|) == docs.Keys
      requires forall id :: id in docs ==> docs[id].id == id && |docs[id].vector| == dim
      modifies this, cache
      ensures Agrees() && index == empty && docs == old(docs)
      ensures Listed(index, filed) == Some(docs.Keys) && Dead(index) == {}
    {
      index, live, filed := empty, docs.Keys, now;
      RefilledAgrees(docs, list, Setting());
      Refill(list);
    }

    /** Every stored record can be read. */
    method Refill(list: seq<Id>)
      modifies cache
      ensures cache.View() == Refilled(docs, list, |list|, cache.enabled, cache.maxSize)
    {
      var failed := cache.Rebuild(docs, {}, list);
    }

    /** Evicting the metadata cache, as the byte budget does, disturbs nothing. */
    method ClearMetadataCache()
      requires Agrees()
      modifies cache
      ensures Agrees() && cache.View() == old(cache.View()).(queue := EMPTY)
    {
      ClearingKeeps(Now(), Setting());
      cache.ClearMetadata();
    }

    /**
     * A search in a session never meets a missing document or vector; only an IVF index that has not been
     * clustered yet refuses.  The index finds `ids`, its best `asked`, and the hits are made of those: each is a
     * stored document as it is now, and passes the filter.  Over Flat the hits are the exact best k if and only
     * if the candidates were enough, as they are without a filter or when asked for as many as there are.
     */
    method Search(query: Vec, k: nat, effort: nat, score: Score, filter: Option<Conditions>, overfetch: nat,
                  override: Option<nat>)
      returns (r: Result<seq<Engine.Hit>, Engine.SearchError>, ghost ids: seq<Id>, ghost asked: nat)
      requires Agrees()
      ensures r.Err? <==> index.AsIvf? && index.ivf.centroids == []
      ensures r.Err? ==> r.error == Engine.NotInitialized
      ensures Engine.Asked(k, filter, overfetch, override, asked)
      ensures r.Ok? ==> FoundBy(index, query, asked, effort, cache.vectors, filter, cache.metadata, ids)
      ensures r.Ok? ==> Engine.ResultOf(ids, docs, query, k, score, filter, r.value)
      ensures r.Ok? ==> |r.value| <= k && forall hit :: hit in r.value ==>
        Engine.Passing(docs, filter, hit.id) && Engine.IsStored(docs, query, score, hit)
      ensures index.AsFlat? && index.flat.score == score ==>
        && Enumerates(index.flat.ids, docs.Keys) && r.Ok?
        && Engine.FlatOk(index.flat.ids, docs, VectorsOf(docs), query, k, score, filter, asked, r.value)
    {
      var n := Engine.SearchK(k, filter.Some?, overfetch, override);
      Agreement(Now(), Setting());
      var neighbors := SearchIndex(index, query, n, effort, cache.vectors, filter, cache.metadata, filed, live);
      asked, ids := n, if neighbors.Ok? then neighbors.value else [];
      Engine.AskedIs(k, filter, overfetch, override);
      if neighbors.Err? { return Err(neighbors.error), ids, asked; }
      r := Engine.ScoreFilterTruncate(neighbors.value, docs, query, k, score, filter);
      if index.AsFlat? {
        FlatVectors(Now(), Setting());
        ListSize(index.flat.ids, docs.Keys);
        assert |docs| == |docs.Keys|;
        Engine.FlatIsExact(index.flat.ids, docs, cache.vectors, query, k, index.flat.score, filter, n);
      }
    }
  }

  /** With Flat and IVF the cache holds the vectors of the stored documents and no others. */
  lemma FlatVectors(h: Held, s: Setup)
    requires Disagreements(h, s) == {} && !s.hnsw
    ensures h.cache.vectors == VectorsOf(h.docs)
  {
    Agreement(h, s);
  }

  lemma OwnId(h: Held, id: Id, s: Setup)
    requires Disagreements(h, s) == {} && id in h.docs
    ensures h.docs[id].id == id
  {
    Agreement(h, s);
  }

  /** Storing, caching and indexing the documents from the i-th on. */
  ghost function WithBatch(h: Held, batch: seq<Document>, i: nat, s: Setup): Held
    requires i <= |batch|
    decreases |batch| - i
  {
    if i == |batch| then h else WithBatch(WithAll(h, batch[i], s), batch, i + 1, s)
  }

  lemma BatchStored(h: Held, batch: seq<Document>, s: Setup)
    ensures WithBatch(h, batch, 0, s).docs == Stored(h.docs, batch, |batch|)
  {
    BatchStoredFrom(h, h.docs, batch, 0, s);
  }

  lemma {:induction false} BatchStoredFrom(h: Held, docs: map<Id, Document>, batch: seq<Document>, i: nat, s: Setup)
    requires i <= |batch| && h.docs == Stored(docs, batch, i)
    ensures WithBatch(h, batch, i, s).docs == Stored(docs, batch, |batch|)
    decreases |batch| - i
  {
    if i < |batch| { BatchStoredFrom(WithAll(h, batch[i], s), docs, batch, i + 1, s); }
  }

  /** What is left when the ids from the i-th on are removed one by one. */
  ghost function LessRest(docs: map<Id, Document>, ids: seq<Id>, i: nat): map<Id, Document>
    requires i <= |ids|
    decreases |ids| - i
  {
    if i == |ids| then docs else LessRest(docs - {ids[i]}, ids, i + 1)
  }

  lemma Removing(docs: map<Id, Document>, id: Id)
    ensures |docs - {id}| + (if id in docs then 1 else 0) == |docs|
    ensures id !in docs ==> docs - {id} == docs
    ensures forall doc: Document :: doc.id == id ==> (docs - {id})[id := doc] == docs[id := doc]
  {
    var less := docs - {id};
    if id in docs {
      assert docs == less[id := docs[id]];
    } else {
      assert less == docs;
    }
  }

  lemma {:induction false} LessRestIs(docs: map<Id, Document>, ids: seq<Id>, i: nat)
    requires i <= |ids|
    ensures LessRest(docs, ids, i) == docs - set id | id in ids[i..]
    decreases |ids| - i
  {
    if i < |ids| {
      var rest := ids[i + 1..];
      LessRestIs(docs - {ids[i]}, ids, i + 1);
      assert ids[i..] == [ids[i]] + rest;
      assert (set id | id in ids[i..]) == {ids[i]} + set id | id in rest;
      assert docs - (set id | id in ids[i..]) == docs - {ids[i]} - set id | id in rest;
    }
  }
}
