/** The vector and metadata caches of a collection; the metadata side is a bounded recency list. */
module Cache {
  import opened Types
  import opened Ranking

  /** The last n elements. */
  function LastN<T>(xs: seq<T>, n: nat): (r: seq<T>)
    ensures |r| == if n < |xs| then n else |xs|
  {
    if n < |xs| then xs[|xs| - n..] else xs
  }

  /** Writing an id moves it to the back. */
  function Rewritten(order: seq<Id>, id: Id): seq<Id> { Filter(order, Not(id)) + [id] }

  function Restrict(metadata: map<Id, Metadata>, order: seq<Id>): map<Id, Metadata> {
    map id | id in order && id in metadata :: metadata[id]
  }

  /** The metadata side: a recency queue and the map it orders. */
  datatype Queue = Queue(order: seq<Id>, metadata: map<Id, Metadata>)

  const EMPTY := Queue([], map[])

  /** The queue lists the metadata keys without repeats, and there are at most `maxSize` of them. */
  ghost predicate Fits(q: Queue, maxSize: nat) { Enumerates(q.order, q.metadata.Keys) && |q.metadata| <= maxSize }

  function Put(q: Queue, id: Id, value: Metadata, maxSize: nat): Queue {
    Limited(Queue(Rewritten(q.order, id), q.metadata[id := value]), maxSize)
  }

  function Limited(q: Queue, maxSize: nat): Queue { if maxSize == 0 then EMPTY else Trimmed(q, maxSize) }

  /** Drops from the front while the map is over the limit. */
  function Trimmed(q: Queue, maxSize: nat): Queue
    decreases |q.order|
  {
    if |q.metadata| > maxSize && q.order != []
      then Trimmed(Queue(q.order[1..], q.metadata - {q.order[0]}), maxSize)
      else q
  }

  function Dropped(q: Queue, id: Id): Queue { Queue(Filter(q.order, Not(id)), q.metadata - {id}) }

  /** Both sides of the cache after caching the first n listed documents, starting empty. */
  datatype Cached = Cached(vectors: map<Id, Vec>, queue: Queue)

  function PutDocument(c: Cached, id: Id, doc: Document, enabled: bool, maxSize: nat): Cached {
    Cached(c.vectors[id := doc.vector], if enabled then Put(c.queue, id, doc.metadata, maxSize) else c.queue)
  }

  function Refilled(docs: map<Id, Document>, list: seq<Id>, n: nat, enabled: bool, maxSize: nat): Cached
    requires n <= |list|
  {
    if n == 0 then Cached(map[], EMPTY) else
      var before := Refilled(docs, list, n - 1, enabled, maxSize);
      if list[n - 1] in docs then PutDocument(before, list[n - 1], docs[list[n - 1]], enabled, maxSize) else before
  }

  /** Every cached entry of a stored document is the document's own, and metadata is cached for nothing else. */
  ghost predicate Coherent(c: Cached, docs: map<Id, Document>) {
    && (forall id :: id in c.vectors && id in docs ==> c.vectors[id] == docs[id].vector)
    && (forall id :: id in c.queue.metadata ==> id in docs && c.queue.metadata[id] == docs[id].metadata)
  }

  class CacheManager {
    const enabled: bool
    const maxSize: nat
    var vectors: map<Id, Vec>
    var metadata: map<Id, Metadata>
    var order: seq<Id>

    ghost function View(): Cached reads this { Cached(vectors, Queue(order, metadata)) }

    constructor (enabled: bool, maxSize: nat)
      ensures View() == Cached(map[], EMPTY) && this.enabled == enabled && this.maxSize == maxSize
    {
      this.enabled, this.maxSize := enabled, maxSize;
      vectors, metadata, order := map[], map[], [];
    }

    method PutVector(id: Id, vector: Vec)
      modifies `vectors
      ensures vectors == old(vectors)[id := vector]
    {
      vectors := vectors[id := vector];
    }

    method PutMetadata(id: Id, value: Metadata)
      modifies `metadata, `order
      ensures View().queue == if enabled then Put(old(View().queue), id, value, maxSize) else old(View().queue)
      ensures enabled && maxSize > 0 && old(Fits(View().queue, maxSize)) ==>
        id in metadata && metadata[id] == value && order != [] && order[|order| - 1] == id
    {
      if !enabled { return; }
      ghost var was := View().queue;
      Enqueue(id, value);
      if maxSize > 0 && Fits(was, maxSize) { PutIsLast(was, id, value, maxSize); }
    }

    method Enqueue(id: Id, value: Metadata)
      modifies `metadata, `order
      ensures View().queue == Put(old(View().queue), id, value, maxSize)
    {
      order := Retain(order, Not(id));
      metadata := metadata[id := value];
      order := order + [id];
      EnforceItemLimit();
    }

    method EnforceItemLimit()
      modifies `metadata, `order
      ensures View().queue == Limited(old(View().queue), maxSize)
    {
      if maxSize == 0 {
        metadata, order := map[], [];
        return;
      }
      while |metadata| > maxSize && order != []
        invariant Trimmed(View().queue, maxSize) == Trimmed(old(View().queue), maxSize)
        decreases |order|
      {
        metadata := metadata - {order[0]};
        order := order[1..];
      }
    }

    method Remove(id: Id, removeVector: bool)
      modifies this
      ensures vectors == if removeVector then old(vectors) - {id} else old(vectors)
      ensures View().queue == Dropped(old(View().queue), id)
    {
      if removeVector { vectors := vectors - {id}; }
      metadata := metadata - {id};
      order := Retain(order, Not(id));
    }

    method ClearMetadata()
      modifies `metadata, `order
      ensures View().queue == EMPTY
    {
      metadata, order := map[], [];
    }

    /**
     * Refills both caches in the order the index lists the ids: into a new cache, which takes over only when every
     * record could be read.
     */
    method Rebuild(docs: map<Id, Document>, unreadable: set<Id>, list: seq<Id>) returns (failed: Option<Id>)
      modifies this
      ensures failed.Some? <==> exists id :: id in list && id in unreadable
      ensures failed.Some? ==> failed.value in list && failed.value in unreadable && View() == old(View())
      ensures failed.None? ==> View() == Refilled(docs, list, |list|, enabled, maxSize) && Fits(View().queue, maxSize)
      ensures failed.None? && enabled && Distinct(list) && (forall id :: id in list ==> id in docs) ==>
        order == if maxSize < |list| then list[|list| - maxSize..] else list
    {
      var cache;
      failed, cache := RefillNew(docs, unreadable, list);
      if failed.Some? { return; }
      AllRefilled(docs, list, enabled, maxSize);
      vectors, metadata, order := cache.vectors, cache.metadata, cache.order;
    }

    /** Puts every listed document into a new cache, up to the first record that cannot be read. */
    method RefillNew(docs: map<Id, Document>, unreadable: set<Id>, list: seq<Id>)
      returns (failed: Option<Id>, cache: CacheManager)
      ensures fresh(cache)
      ensures failed.Some? ==> failed.value in list && failed.value in unreadable
      ensures failed.None? ==> forall id :: id in list ==> id !in unreadable
      ensures failed.None? ==> cache.View() == Refilled(docs, list, |list|, enabled, maxSize)
    {
      cache := new CacheManager(enabled, maxSize);
      var i := 0;
      while i < |list|
        invariant 0 <= i <= |list| && fresh(cache)
        invariant forall j :: 0 <= j < i ==> list[j] !in unreadable
        invariant cache.View() == Refilled(docs, list, i, enabled, maxSize)
        invariant cache.enabled == enabled && cache.maxSize == maxSize
      {
        var id := list[i];
        if id in unreadable { return Some(id), cache; }
        if id in docs {
          cache.PutVector(id, docs[id].vector);
          cache.PutMetadata(id, docs[id].metadata);
        }
        i := i + 1;
      }
      failed := None;
    }

    /**
     * Rebuilds when the counts differ or some stored id is missing; by counting, the keys then agree.  An
     * unreadable record matters only to a rebuild, and then leaves the cache as it was.
     */
    method EnsureConsistent(docs: map<Id, Document>, unreadable: set<Id>, list: seq<Id>) returns (failed: Option<Id>)
      requires Enumerates(list, docs.Keys + unreadable)
      modifies this
      ensures failed.None? <==> old(vectors.Keys) == docs.Keys + unreadable || unreadable == {}
      ensures failed.None? ==> vectors.Keys == docs.Keys + unreadable
      ensures failed.Some? || old(vectors.Keys) == docs.Keys + unreadable ==> View() == old(View())
      ensures failed.Some? ==> failed.value in unreadable
      ensures old(Coherent(View(), docs)) ==> Coherent(View(), docs)
      ensures old(Fits(View().queue, maxSize)) ==> Fits(View().queue, maxSize)
    {
      var complete := IsComplete(docs.Keys + unreadable, list);
      if complete { return None; }
      assert forall id :: id in unreadable ==> id in list;
      failed := Rebuild(docs, unreadable, list);
      if failed.None? {
        FirstsAre(list, |list|, docs.Keys + unreadable);
        RefilledIs(docs, list, |list|, enabled, maxSize);
      } else {
        assert failed.value in unreadable;
      }
    }

    /** The count first, then one id after the other. */
    method IsComplete(keys: set<Id>, list: seq<Id>) returns (complete: bool)
      requires Enumerates(list, keys)
      ensures complete <==> vectors.Keys == keys
    {
      assert |vectors| == |vectors.Keys|;
      if |vectors| != |keys| { return false; }
      FirstsAre(list, |list|, keys);
      complete := HasVectors(list);
      if complete { SubsetSize(keys, vectors.Keys); }
    }

    method HasVectors(list: seq<Id>) returns (complete: bool)
      ensures complete <==> Firsts(list, |list|) <= vectors.Keys
    {
      var i := 0;
      while i < |list|
        invariant 0 <= i <= |list| && Firsts(list, i) <= vectors.Keys
      {
        FirstsGrow(list, i + 1, |list|);
        if list[i] !in vectors { return false; }
        i := i + 1;
      }
      return true;
    }
  }

  // ----- what the queue keeps

  /** A put keeps the queue in step with the map, and evicts from the least recently written end only. */
  lemma PutIs(q: Queue, id: Id, value: Metadata, maxSize: nat)
    requires Fits(q, maxSize)
    ensures Fits(Put(q, id, value, maxSize), maxSize)
    ensures Put(q, id, value, maxSize).order == LastN(Rewritten(q.order, id), maxSize)
    ensures Put(q, id, value, maxSize).metadata
      == Restrict(q.metadata[id := value], LastN(Rewritten(q.order, id), maxSize))
  {
    var order, metadata := Rewritten(q.order, id), q.metadata[id := value];
    RewrittenEnumerates(q.order, q.metadata.Keys, id);
    assert metadata.Keys == q.metadata.Keys + {id};
    if maxSize == 0 {
      assert LastN(order, 0) == [];
      assert Restrict(metadata, []) == map[];
    } else {
      TrimmedIs(Queue(order, metadata), maxSize);
    }
  }

  lemma RewrittenEnumerates(order: seq<Id>, keys: set<Id>, id: Id)
    requires Enumerates(order, keys)
    ensures Enumerates(Rewritten(order, id), keys + {id})
  {
    FilterDistinct(order, Not(id));
  }

  lemma DroppedFits(q: Queue, id: Id, maxSize: nat)
    requires Fits(q, maxSize)
    ensures Fits(Dropped(q, id), maxSize)
  {
    RemoveKeepsQueue(q.metadata, q.order, id, maxSize);
  }

  /** Whatever a put leaves cached was cached before, or is what was put. */
  lemma {:induction false} TrimmedOnlyDrops(q: Queue, maxSize: nat)
    ensures Trimmed(q, maxSize).metadata.Keys <= q.metadata.Keys
    ensures forall id :: id in Trimmed(q, maxSize).metadata ==> Trimmed(q, maxSize).metadata[id] == q.metadata[id]
    decreases |q.order|
  {
    if |q.metadata| > maxSize && q.order != [] {
      TrimmedOnlyDrops(Queue(q.order[1..], q.metadata - {q.order[0]}), maxSize);
    }
  }

  lemma PutOnlyAdds(q: Queue, id: Id, value: Metadata, maxSize: nat)
    ensures var now := Put(q, id, value, maxSize).metadata;
            forall x :: x in now ==> if x == id then now[x] == value else x in q.metadata && now[x] == q.metadata[x]
  {
    TrimmedOnlyDrops(Queue(Rewritten(q.order, id), q.metadata[id := value]), maxSize);
  }

  /** What is put is there afterwards, as the most recent entry. */
  lemma PutIsLast(q: Queue, id: Id, value: Metadata, maxSize: nat)
    requires Fits(q, maxSize) && maxSize > 0
    ensures var now := Put(q, id, value, maxSize);
            && id in now.metadata && now.metadata[id] == value
            && now.order != [] && now.order[|now.order| - 1] == id
  {
    PutIs(q, id, value, maxSize);
    var all := Rewritten(q.order, id);
    assert all[|all| - 1] == id;
  }

  /** Refilling with distinct documents leaves the metadata of the last of them, in their order. */
  lemma AllRefilled(docs: map<Id, Document>, list: seq<Id>, enabled: bool, maxSize: nat)
    ensures var queue := Refilled(docs, list, |list|, enabled, maxSize).queue;
            && Fits(queue, maxSize)
            && (enabled && Distinct(list) && (forall id :: id in list ==> id in docs) ==>
                  queue.order == if maxSize < |list| then list[|list| - maxSize..] else list)
  {
    RefilledFits(docs, list, |list|, enabled, maxSize);
    if enabled && Distinct(list) && (forall id :: id in list ==> id in docs) { OrderRefilled(docs, list, maxSize); }
  }

  lemma OrderRefilled(docs: map<Id, Document>, list: seq<Id>, maxSize: nat)
    requires Distinct(list) && forall id :: id in list ==> id in docs
    ensures Refilled(docs, list, |list|, true, maxSize).queue.order
      == if maxSize < |list| then list[|list| - maxSize..] else list
  {
    var n := |list|;
    RefilledOrder(docs, list, n, maxSize);
    assert list[..n] == list;
  }

  lemma {:induction false} RefilledOrder(docs: map<Id, Document>, list: seq<Id>, n: nat, maxSize: nat)
    requires n <= |list| && Distinct(list) && forall id :: id in list ==> id in docs
    ensures Refilled(docs, list, n, true, maxSize).queue.order == LastN(list[..n], maxSize)
  {
    if n > 0 {
      var id, front := list[n - 1], list[..n - 1];
      assert id in list && list[..n] == front + [id];
      RefilledOrder(docs, list, n - 1, maxSize);
      var before := RefilledStep(docs, list, n, maxSize);
      NotInFront(list, n - 1);
      PutAppends(before, front, id, docs[id].metadata, maxSize);
    }
  }

  lemma NotInFront(list: seq<Id>, i: nat)
    requires Distinct(list) && i < |list|
    ensures list[i] !in list[..i]
  {}

  lemma RefilledStep(docs: map<Id, Document>, list: seq<Id>, n: nat, maxSize: nat) returns (before: Queue)
    requires 0 < n <= |list| && list[n - 1] in docs
    ensures before == Refilled(docs, list, n - 1, true, maxSize).queue && Fits(before, maxSize)
    ensures Refilled(docs, list, n, true, maxSize).queue
      == Put(before, list[n - 1], docs[list[n - 1]].metadata, maxSize)
  {
    before := Refilled(docs, list, n - 1, true, maxSize).queue;
    RefilledFits(docs, list, n - 1, true, maxSize);
  }

  lemma PutAppends(q: Queue, before: seq<Id>, id: Id, value: Metadata, maxSize: nat)
    requires Fits(q, maxSize) && q.order == LastN(before, maxSize) && id !in before
    ensures Put(q, id, value, maxSize).order == LastN(before + [id], maxSize)
  {
    PutIs(q, id, value, maxSize);
    KeepAll(q.order, Not(id));
    LastNSnoc(before, id, maxSize);
  }

  lemma LastNSnoc(xs: seq<Id>, x: Id, n: nat)
    ensures LastN(LastN(xs, n) + [x], n) == LastN(xs + [x], n)
  {}

  /** Rebuilding caches every listed vector, and only entries that are the documents' own. */
  lemma {:induction false} RefilledIs(docs: map<Id, Document>, list: seq<Id>, n: nat, enabled: bool, maxSize: nat)
    requires n <= |list| && Firsts(list, n) <= docs.Keys
    ensures Refilled(docs, list, n, enabled, maxSize).vectors.Keys == Firsts(list, n)
    ensures Coherent(Refilled(docs, list, n, enabled, maxSize), docs)
  {
    if n > 0 {
      RefilledIs(docs, list, n - 1, enabled, maxSize);
      PutOnlyAdds(Refilled(docs, list, n - 1, enabled, maxSize).queue, list[n - 1], docs[list[n - 1]].metadata,
                  maxSize);
    }
  }

  lemma {:induction false} RefilledFits(docs: map<Id, Document>, list: seq<Id>, n: nat, enabled: bool, maxSize: nat)
    requires n <= |list|
    ensures Fits(Refilled(docs, list, n, enabled, maxSize).queue, maxSize)
  {
    if n > 0 {
      RefilledFits(docs, list, n - 1, enabled, maxSize);
      if list[n - 1] in docs {
        PutIs(Refilled(docs, list, n - 1, enabled, maxSize).queue, list[n - 1], docs[list[n - 1]].metadata, maxSize);
      }
    }
  }

  lemma SizeOfKeys(order: seq<Id>, metadata: map<Id, Metadata>)
    requires Enumerates(order, metadata.Keys)
    ensures |metadata| == |order|
  {
    DistinctSize<Id>(order);
    var members: set<Id> := set x: Id | x in order;
    assert |members| == |order|;
    assert members == metadata.Keys;
    assert |metadata.Keys| == |metadata|;
  }

  lemma {:induction false} TrimmedIs(q: Queue, maxSize: nat)
    requires Enumerates(q.order, q.metadata.Keys)
    ensures Trimmed(q, maxSize).order == LastN(q.order, maxSize)
    ensures Trimmed(q, maxSize).metadata == Restrict(q.metadata, LastN(q.order, maxSize))
    ensures Fits(Trimmed(q, maxSize), maxSize)
    decreases |q.order|
  {
    SizeOfKeys(q.order, q.metadata);
    if |q.metadata| > maxSize {
      var rest, fewer := q.order[1..], q.metadata - {q.order[0]};
      DropFirst(q.metadata, q.order);
      TrimmedIs(Queue(rest, fewer), maxSize);
      LastNOfRest(q.order, rest, maxSize);
      RestrictTwice(q.metadata, rest, LastN(rest, maxSize));
    } else {
      RestrictToKeys(q.metadata, q.metadata, q.order);
    }
  }

  lemma LastNOfRest(order: seq<Id>, rest: seq<Id>, n: nat)
    requires |order| > n && rest == order[1..]
    ensures LastN(rest, n) == LastN(order, n)
    ensures forall x :: x in LastN(rest, n) ==> x in rest
  {}

  lemma DropFirst(metadata: map<Id, Metadata>, order: seq<Id>)
    requires Enumerates(order, metadata.Keys) && order != []
    ensures Enumerates(order[1..], (metadata - {order[0]}).Keys)
    ensures metadata - {order[0]} == Restrict(metadata, order[1..])
  {
    var fewer := metadata - {order[0]};
    RestEnumerates(order, order[1..], metadata.Keys);
    assert fewer.Keys == metadata.Keys - {order[0]};
    RestrictToKeys(metadata, fewer, order[1..]);
  }

  lemma RestEnumerates(order: seq<Id>, rest: seq<Id>, keys: set<Id>)
    requires order != [] && Enumerates(order, keys) && rest == order[1..]
    ensures Enumerates(rest, keys - {order[0]})
  {
    forall i, j | 0 <= i < j < |rest| ensures rest[i] != rest[j] {
      assert order[i + 1] == rest[i] && order[j + 1] == rest[j];
    }
    forall x | x in rest ensures x in keys && x != order[0] {
      var i :| 0 <= i < |rest| && rest[i] == x;
      assert order[i + 1] == x;
    }
  }

  lemma RestrictToKeys(metadata: map<Id, Metadata>, fewer: map<Id, Metadata>, order: seq<Id>)
    requires Enumerates(order, fewer.Keys) && fewer.Keys <= metadata.Keys
    requires forall id :: id in fewer ==> fewer[id] == metadata[id]
    ensures fewer == Restrict(metadata, order)
  {}

  lemma RestrictTwice(metadata: map<Id, Metadata>, outer: seq<Id>, inner: seq<Id>)
    requires forall x :: x in inner ==> x in outer
    ensures Restrict(Restrict(metadata, outer), inner) == Restrict(metadata, inner)
  {}

  lemma RemoveKeepsQueue(metadata: map<Id, Metadata>, order: seq<Id>, id: Id, maxSize: nat)
    requires Enumerates(order, metadata.Keys) && |metadata| <= maxSize
    ensures Enumerates(Filter(order, Not(id)), (metadata - {id}).Keys) && |metadata - {id}| <= maxSize
  {
    var less := metadata - {id};
    assert less.Keys == metadata.Keys - {id};
    FilterDistinct(order, Not(id));
    FewerKeys(metadata, less);
  }

  lemma FewerKeys(all: map<Id, Metadata>, less: map<Id, Metadata>)
    requires less.Keys <= all.Keys
    ensures |less| <= |all|
  {
    SubsetSize(less.Keys, all.Keys);
    assert |all| == |all.Keys| && |less| == |less.Keys|;
  }

  // ----- the recency list over a run of puts, removals and clears

  datatype CacheOp = Write(id: Id, value: Metadata) | Drop(id: Id) | Clear

  /** The ids written and not dropped since, ordered by their last write. */
  function Recent(ops: seq<CacheOp>): seq<Id> {
    if ops == [] then [] else Touched(Recent(ops[..|ops| - 1]), ops[|ops| - 1])
  }

  function Touched(before: seq<Id>, op: CacheOp): seq<Id> {
    match op
    case Write(id, _) => Rewritten(before, id)
    case Drop(id) => Filter(before, Not(id))
    case Clear => []
  }

  function Do(q: Queue, op: CacheOp, maxSize: nat): Queue {
    match op
    case Write(id, value) => Put(q, id, value, maxSize)
    case Drop(id) => Dropped(q, id)
    case Clear => EMPTY
  }

  /** The queue after a run on an empty cache. */
  function QueueAfter(ops: seq<CacheOp>, maxSize: nat): Queue {
    if ops == [] then EMPTY else Do(QueueAfter(ops[..|ops| - 1], maxSize), ops[|ops| - 1], maxSize)
  }

  predicate EndsWith<T(==)>(xs: seq<T>, ys: seq<T>) { |ys| <= |xs| && xs[|xs| - |ys|..] == ys }

  lemma {:induction false} FilterAbsent(xs: seq<Id>, id: Id)
    requires id !in xs
    ensures Filter(xs, Not(id)) == xs
  {
    if xs != [] { FilterAbsent(xs[1..], id); }
  }

  lemma LastNOfSuffix(xs: seq<Id>, ys: seq<Id>, n: nat)
    requires |ys| >= n
    ensures LastN(xs + ys, n) == LastN(ys, n)
  {}

  /** Rewriting commutes with keeping only the last n. */
  lemma RewriteOfLastN(order: seq<Id>, id: Id, n: nat)
    requires Distinct(order)
    ensures LastN(Rewritten(LastN(order, n), id), n) == LastN(Rewritten(order, id), n)
  {
    if n < |order| {
      var cut := |order| - n;
      var head, tail := order[..cut], order[cut..];
      assert order == head + tail;
      FilterPrefix(head, tail, Not(id));
      assert Rewritten(order, id) == Filter(head, Not(id)) + Rewritten(tail, id);
      if id in tail {
        FilterOne(tail, id);
        LastNOfSuffix(Filter(head, Not(id)), Rewritten(tail, id), n);
      } else {
        FilterAbsent(tail, id);
        LastNOfSuffix(Filter(head, Not(id)), Rewritten(tail, id), n);
      }
    }
  }

  /** A duplicate-free list loses at most one element. */
  lemma {:induction false} FilterOne(xs: seq<Id>, id: Id)
    requires Distinct(xs)
    ensures |Filter(xs, Not(id))| == if id in xs then |xs| - 1 else |xs|
  {
    if xs != [] {
      FilterOne(xs[1..], id);
      if xs[0] == id { assert id !in xs[1..]; }
    }
  }

  lemma {:induction false} RecentDistinct(ops: seq<CacheOp>)
    ensures Distinct(Recent(ops))
  {
    if ops != [] {
      var before := Recent(ops[..|ops| - 1]);
      RecentDistinct(ops[..|ops| - 1]);
      match ops[|ops| - 1]
      case Write(id, _) => AppendDistinct(before, id);
      case Drop(id) => FilterDistinct(before, Not(id));
      case Clear =>
    }
  }

  lemma AppendDistinct(xs: seq<Id>, id: Id)
    requires Distinct(xs)
    ensures Distinct(Rewritten(xs, id))
  {
    FilterDistinct(xs, Not(id));
    var others := Filter(xs, Not(id));
    forall i | 0 <= i < |others| ensures others[i] != id { assert others[i] in others; }
  }

  lemma RewriteEndsWith(xs: seq<Id>, ys: seq<Id>, id: Id, n: nat)
    requires EndsWith(xs, ys)
    ensures EndsWith(Rewritten(xs, id), LastN(Rewritten(ys, id), n))
  {
    FilterEndsWith(xs, ys, id);
    var f, g := Filter(xs, Not(id)), Filter(ys, Not(id));
    assert EndsWith(f + [id], g + [id]);
  }

  lemma FilterEndsWith(xs: seq<Id>, ys: seq<Id>, id: Id)
    requires EndsWith(xs, ys)
    ensures EndsWith(Filter(xs, Not(id)), Filter(ys, Not(id)))
  {
    var head := xs[..|xs| - |ys|];
    assert xs == head + ys;
    FilterPrefix(head, ys, Not(id));
  }

  /**
   * After any run the queue fits, and it is the tail of the ids by last write: whatever was evicted had
   * been written before everything still cached.
   */
  lemma {:induction false} EvictsLeastRecent(ops: seq<CacheOp>, maxSize: nat)
    ensures Fits(QueueAfter(ops, maxSize), maxSize)
    ensures EndsWith(Recent(ops), QueueAfter(ops, maxSize).order)
  {
    if ops != [] {
      EvictsLeastRecent(ops[..|ops| - 1], maxSize);
      StepEvictsLeastRecent(Recent(ops[..|ops| - 1]), QueueAfter(ops[..|ops| - 1], maxSize), ops[|ops| - 1], maxSize);
    }
  }

  lemma StepEvictsLeastRecent(before: seq<Id>, q: Queue, op: CacheOp, maxSize: nat)
    requires Fits(q, maxSize) && EndsWith(before, q.order)
    ensures Fits(Do(q, op, maxSize), maxSize) && EndsWith(Touched(before, op), Do(q, op, maxSize).order)
  {
    match op
    case Write(id, value) => WriteEvictsLeastRecent(before, q, id, value, maxSize);
    case Drop(id) =>
      DroppedFits(q, id, maxSize);
      FilterEndsWith(before, q.order, id);
    case Clear =>
  }

  lemma WriteEvictsLeastRecent(before: seq<Id>, q: Queue, id: Id, value: Metadata, maxSize: nat)
    requires Fits(q, maxSize) && EndsWith(before, q.order)
    ensures Fits(Put(q, id, value, maxSize), maxSize)
    ensures EndsWith(Rewritten(before, id), Put(q, id, value, maxSize).order)
  {
    PutIs(q, id, value, maxSize);
    RewriteEndsWith(before, q.order, id, maxSize);
  }

  /** After puts alone the queue is exactly the maxSize most recently written ids. */
  lemma {:induction false} QueueIsMostRecent(ops: seq<CacheOp>, maxSize: nat)
    requires forall op :: op in ops ==> op.Write?
    ensures QueueAfter(ops, maxSize).order == LastN(Recent(ops), maxSize)
  {
    if ops != [] {
      var front, last := ops[..|ops| - 1], ops[|ops| - 1];
      assert last in ops;
      QueueIsMostRecent(front, maxSize);
      EvictsLeastRecent(front, maxSize);
      PutIs(QueueAfter(front, maxSize), last.id, last.value, maxSize);
      RecentDistinct(front);
      RewriteOfLastN(Recent(front), last.id, maxSize);
    }
  }

  /** The value last written under an id and not dropped since. */
  function LastValue(ops: seq<CacheOp>, id: Id): Option<Metadata> {
    if ops == [] then None
    else
      var before := LastValue(ops[..|ops| - 1], id);
      match ops[|ops| - 1]
      case Write(x, value) => if x == id then Some(value) else before
      case Drop(x) => if x == id then None else before
      case Clear => None
  }

  /** Whatever is still cached is the value written last. */
  lemma {:induction false} CachedIsLastWritten(ops: seq<CacheOp>, maxSize: nat, id: Id)
    requires id in QueueAfter(ops, maxSize).metadata
    ensures LastValue(ops, id) == Some(QueueAfter(ops, maxSize).metadata[id])
  {
    if ops != [] {
      var front, last := ops[..|ops| - 1], ops[|ops| - 1];
      EvictsLeastRecent(front, maxSize);
      match last
      case Write(x, value) =>
        PutIs(QueueAfter(front, maxSize), x, value, maxSize);
        if x != id { CachedIsLastWritten(front, maxSize, id); }
      case Drop(x) => CachedIsLastWritten(front, maxSize, id);
      case Clear =>
    }
  }
}
