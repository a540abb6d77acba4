/** The HNSW graph: inserts with pruning, tombstoning removes, and layered search. */
module Hnsw {
  import opened Types
  import opened Ranking
  import opened Filters
  import opened LayerSearch
  import SearchEngine = Search

  type Metas = map<Id, Metadata>

  function DistanceKey(dist: (Vec, Vec) -> real, query: Vec, vectors: map<Id, Vec>): Id -> real {
    (id: Id) => if id in vectors then dist(query, vectors[id]) else 0.0
  }

  /** A vector the reader has, whose cached metadata - if any - passes the filter. */
  predicate Admitted(vectors: map<Id, Vec>, filter: Option<Conditions>, metadatas: Metas, id: Id) {
    id in vectors && (filter.Some? && id in metadatas ==> Matches(filter.value, metadatas[id]))
  }

  function QueryAt(g: Graph, dist: (Vec, Vec) -> real, query: Vec, vectors: map<Id, Vec>, filter: Option<Conditions>,
                   metadatas: Metas, entries: seq<Id>, width: nat, level: nat): Query
  {
    Query(g, level, DistanceKey(dist, query, vectors), (id: Id) => Admitted(vectors, filter, metadatas, id), entries,
          width)
  }

  // ----- the shape of the graph

  predicate IsLive(g: Graph, id: Id) { id in g && !g[id].tombstone }

  function LiveIds(g: Graph): set<Id> { set id | id in g && !g[id].tombstone }

  /** m_max connections at layer 0, m above. */
  function Cap(m: nat, mMax: nat, level: nat): nat { if level == 0 then mMax else m }

  ghost predicate Degrees(g: Graph, m: nat, mMax: nat) {
    forall id, l :: id in g && 0 <= l < |g[id].connections| ==> |g[id].connections[l]| <= Cap(m, mMax, l)
  }

  ghost predicate Targets(g: Graph, allowed: set<Id>) {
    forall id, l, t :: id in g && 0 <= l < |g[id].connections| && t in g[id].connections[l] ==> t in allowed
  }

  ghost predicate NoSelfEdges(g: Graph) {
    forall id, l :: id in g && 0 <= l < |g[id].connections| ==> id !in g[id].connections[l]
  }

  /** `g` is `g0` with edges added and pruned in layers `level` and above, towards old nodes or the new id. */
  ghost predicate Relinked(g0: Graph, g: Graph, id: Id, level: nat) {
    && g.Keys == g0.Keys
    && (forall n :: n in g ==> g[n].tombstone == g0[n].tombstone && |g[n].connections| == |g0[n].connections|)
    && (forall n, l :: n in g && 0 <= l < |g[n].connections| && l < level ==>
          g[n].connections[l] == g0[n].connections[l])
    && Targets(g, g0.Keys + {id})
    && (NoSelfEdges(g0) && id !in g0 ==> NoSelfEdges(g))
  }

  // ----- choosing neighbours

  function Usable(g: Graph, vectors: map<Id, Vec>): Id -> bool { (id: Id) => !IsTombstone(g, id) && id in vectors }

  /** `select_neighbors`: everything if it fits, else the m closest live ids with a vector. */
  function Selected(g: Graph, candidates: seq<Id>, m: nat, key: Id -> real, vectors: map<Id, Vec>): seq<Id> {
    if |candidates| <= m then candidates
    else Best(Filter(candidates, Usable(g, vectors)), key, m)
  }

  lemma SelectedFits(g: Graph, candidates: seq<Id>, m: nat, key: Id -> real, vectors: map<Id, Vec>)
    ensures |Selected(g, candidates, m, key, vectors)| <= m
    ensures forall id :: id in Selected(g, candidates, m, key, vectors) ==> id in candidates
  {
    if |candidates| > m {
      var keep := Usable(g, vectors);
      SearchEngine.BestMembers(Filter(candidates, keep), key, m);
      FilterMembers(candidates, keep);
    }
  }

  /**
   * What becomes of a list with a limit.  A list that fits stays as it is.  Of one that does not, the live ids with
   * vectors are kept, closest first, up to the limit: none that is left out is closer to `from` than one kept.
   */
  ghost predicate Kept(g: Graph, all: seq<Id>, list: seq<Id>, limit: nat, from: Vec, dist: (Vec, Vec) -> real,
                       vectors: map<Id, Vec>) {
    if |all| <= limit then list == all
    else
      && multiset(list) <= multiset(all) && |list| <= limit
      && (forall x :: x in list ==> x in vectors && !(x in g && g[x].tombstone))
      && (forall i, j :: 0 <= i < j < |list| ==>
            list[i] in vectors && list[j] in vectors && dist(from, vectors[list[i]]) <= dist(from, vectors[list[j]]))
      && forall x :: LeftOut(g, all, list, x, vectors) ==>
           |list| == limit &&
           forall y :: y in list ==> y in vectors && dist(from, vectors[y]) <= dist(from, vectors[x])
  }

  /** A live id with a vector that occurs less often than before. */
  ghost predicate LeftOut(g: Graph, all: seq<Id>, list: seq<Id>, x: Id, vectors: map<Id, Vec>) {
    x in vectors && !(x in g && g[x].tombstone) && multiset(list)[x] < multiset(all)[x]
  }

  lemma SelectedIsKept(g: Graph, all: seq<Id>, limit: nat, from: Vec, dist: (Vec, Vec) -> real, vectors: map<Id, Vec>)
    ensures Kept(g, all, Selected(g, all, limit, DistanceKey(dist, from, vectors), vectors), limit, from, dist, vectors)
  {
    if |all| > limit {
      var list := Selected(g, all, limit, DistanceKey(dist, from, vectors), vectors);
      CutFits(g, all, limit, DistanceKey(dist, from, vectors), vectors);
      forall i, j | 0 <= i < j < |list|
        ensures list[i] in vectors && list[j] in vectors
        ensures dist(from, vectors[list[i]]) <= dist(from, vectors[list[j]])
      {
        assert list[i] in list && list[j] in list;
        assert DistanceKey(dist, from, vectors)(list[i]) <= DistanceKey(dist, from, vectors)(list[j]);
      }
      forall x | LeftOut(g, all, list, x, vectors)
        ensures |list| == limit &&
                forall y :: y in list ==> y in vectors && dist(from, vectors[y]) <= dist(from, vectors[x])
      {
        CutIsCloser(g, all, limit, DistanceKey(dist, from, vectors), vectors, x);
        NoneIsFarther(list, limit, from, dist, vectors, x);
      }
    }
  }

  lemma CutFits(g: Graph, all: seq<Id>, limit: nat, key: Id -> real, vectors: map<Id, Vec>)
    requires |all| > limit
    ensures var list := Selected(g, all, limit, key, vectors);
            && multiset(list) <= multiset(all) && |list| <= limit && Ascending(list, key)
            && forall x :: x in list ==> x in vectors && !(x in g && g[x].tombstone)
  {
    BestIsBest(Filter(all, Usable(g, vectors)), key, limit);
    SelectedUsable(g, all, limit, key, vectors);
    FilterCounts(all, Usable(g, vectors));
  }

  lemma CutIsCloser(g: Graph, all: seq<Id>, limit: nat, key: Id -> real, vectors: map<Id, Vec>, x: Id)
    requires |all| > limit && LeftOut(g, all, Selected(g, all, limit, key, vectors), x, vectors)
    ensures var list := Selected(g, all, limit, key, vectors);
            |list| == limit && forall i :: 0 <= i < |list| ==> key(list[i]) <= key(x)
  {
    var usable, list := Filter(all, Usable(g, vectors)), Selected(g, all, limit, key, vectors);
    BestIsBest(usable, key, limit);
    FilterCounts(all, Usable(g, vectors));
    assert Usable(g, vectors)(x) && x in multiset(usable) - multiset(list);
    if |list| == |usable| { SameSizeSame(list, usable); }
  }

  lemma NoneIsFarther(list: seq<Id>, limit: nat, from: Vec, dist: (Vec, Vec) -> real, vectors: map<Id, Vec>, x: Id)
    requires x in vectors && forall y :: y in list ==> y in vectors
    requires forall i :: 0 <= i < |list| ==>
      DistanceKey(dist, from, vectors)(list[i]) <= DistanceKey(dist, from, vectors)(x)
    ensures forall y :: y in list ==> dist(from, vectors[y]) <= dist(from, vectors[x])
  {
    forall y | y in list ensures dist(from, vectors[y]) <= dist(from, vectors[x]) {
      var i :| 0 <= i < |list| && list[i] == y;
      assert DistanceKey(dist, from, vectors)(list[i]) <= DistanceKey(dist, from, vectors)(x);
    }
  }

  lemma SameSizeSame(part: seq<Id>, all: seq<Id>)
    requires multiset(part) <= multiset(all) && |part| == |all|
    ensures multiset(part) == multiset(all)
  {
    var rest := multiset(all) - multiset(part);
    assert multiset(all) == multiset(part) + rest;
    assert |multiset(all)| == |all| && |multiset(part)| == |part|;
  }

  lemma {:induction false} FilterCounts(xs: seq<Id>, keep: Id -> bool)
    ensures multiset(Filter(xs, keep)) <= multiset(xs)
    ensures forall x :: keep(x) ==> multiset(Filter(xs, keep))[x] == multiset(xs)[x]
  {
    if xs != [] {
      FilterCounts(xs[1..], keep);
      assert xs == [xs[0]] + xs[1..];
    }
  }

  method SelectNeighbors(g: Graph, candidates: seq<Id>, m: nat, dist: (Vec, Vec) -> real, vectors: map<Id, Vec>,
                         query: Vec)
    returns (r: seq<Id>)
    ensures r == Selected(g, candidates, m, DistanceKey(dist, query, vectors), vectors)
    ensures Kept(g, candidates, r, m, query, dist, vectors)
    ensures |r| <= m && forall id :: id in r ==> id in candidates
  {
    var key := DistanceKey(dist, query, vectors);
    SelectedFits(g, candidates, m, key, vectors);
    SelectedIsKept(g, candidates, m, query, dist, vectors);
    if |candidates| <= m { return candidates; }
    var usable := Retain(candidates, Usable(g, vectors));
    r := SortBy(usable, key);
    if m < |r| { r := r[..m]; }
  }

  /** A list too long to keep whole gives way to its closest usable members: none left out is closer than one kept. */
  lemma SelectedClosest(g: Graph, candidates: seq<Id>, m: nat, key: Id -> real, vectors: map<Id, Vec>, kept: Id,
                        out: Id)
    requires |candidates| > m && kept in Selected(g, candidates, m, key, vectors)
    requires out in candidates && Usable(g, vectors)(out) && out !in Selected(g, candidates, m, key, vectors)
    ensures |Selected(g, candidates, m, key, vectors)| == m && key(kept) <= key(out)
    ensures kept in candidates && Usable(g, vectors)(kept)
  {
    SelectedFits(g, candidates, m, key, vectors);
    SelectedUsable(g, candidates, m, key, vectors);
    var usable := Filter(candidates, Usable(g, vectors));
    var best := Best(usable, key, m);
    InFilter(candidates, Usable(g, vectors), out);
    BestIsBest(usable, key, m);
    assert out in multiset(usable) && out !in multiset(best);
    var rest := multiset(usable) - multiset(best);
    assert multiset(usable) == multiset(best) + rest && out in rest;
    assert |rest| == |usable| - |best| && |rest| > 0;
    var i :| 0 <= i < |best| && best[i] == kept;
    assert key(best[i]) <= key(out);
  }

  /** A list that had to be cut, or was usable as it stood, is usable; and then it is empty only if it has to be. */
  lemma SelectedUsable(g: Graph, candidates: seq<Id>, m: nat, key: Id -> real, vectors: map<Id, Vec>)
    ensures |candidates| > m || (forall id :: id in candidates ==> Usable(g, vectors)(id)) ==>
      forall id :: id in Selected(g, candidates, m, key, vectors) ==> Usable(g, vectors)(id)
    ensures (forall id :: id in candidates ==> Usable(g, vectors)(id)) ==>
      (Selected(g, candidates, m, key, vectors) == [] <==> candidates == [] || m == 0)
  {
    var keep := Usable(g, vectors);
    if |candidates| > m {
      var usable := Filter(candidates, keep);
      FilterMembers(candidates, keep);
      SearchEngine.BestMembers(usable, key, m);
      BestIsBest(usable, key, m);
      if forall id :: id in candidates ==> keep(id) { KeepAll(candidates, keep); }
    }
  }

  lemma SelectedDistinct(g: Graph, candidates: seq<Id>, m: nat, key: Id -> real, vectors: map<Id, Vec>)
    requires Distinct(candidates)
    ensures Distinct(Selected(g, candidates, m, key, vectors))
  {
    var usable := Filter(candidates, Usable(g, vectors));
    FilterDistinct(candidates, Usable(g, vectors));
    SortSorts(usable, key);
    PermutationDistinct(SortBy(usable, key), usable);
  }

  /** Selection only asks which nodes are tombstones. */
  lemma SelectedSame(g0: Graph, g: Graph, candidates: seq<Id>, m: nat, key: Id -> real, vectors: map<Id, Vec>)
    requires forall id :: IsTombstone(g, id) == IsTombstone(g0, id)
    ensures Selected(g, candidates, m, key, vectors) == Selected(g0, candidates, m, key, vectors)
  {
    FilterSame(candidates, Usable(g, vectors), Usable(g0, vectors));
  }

  // ----- the new node's own lists

  /** What a search of one layer may return: the first ids met, as many as the beam holds, closest first. */
  ghost predicate LayerHits(q: Query, hits: seq<Id>) {
    && Distinct(hits) && PathsEndIn(q, hits) && (forall id :: id in hits ==> id in q.g && q.Live(id))
    && exists found: seq<Id> :: Discovered(q, found) && multiset(hits) == multiset(Take(found, q.Capacity()))
         && Ascending(hits, q.key)
  }

  /** Unless the beam is full, every live id at the end of a near path is a hit. */
  ghost predicate PathsEndIn(q: Query, hits: seq<Id>) {
    |hits| < q.width ==> forall p :: NearPath(q, p, hits) && q.Live(p[|p| - 1]) ==> p[|p| - 1] in hits
  }

  /** One list: the selection from the hits of its layer, searched in the graph as it was before the insert. */
  ghost predicate ChosenAt(k: Linking, g0: Graph, vector: Vec, ef: nat, entries: seq<Id>, hits: seq<Id>, list: seq<Id>,
                           level: nat) {
    && LayerHits(QueryAt(g0, k.dist, vector, k.vectors, None, map[], entries, ef, level), hits)
    && Kept(g0, hits, list, if level == 0 then k.mMax else k.m, vector, k.dist, k.vectors)
  }

  /** The lists from `above` up; each layer is entered at the hits of the one above it. */
  ghost predicate Chosen(k: Linking, g0: Graph, vector: Vec, ef: nat, lists: seq<seq<Id>>, hits: seq<seq<Id>>,
                         above: nat) {
    |hits| == |lists| + 1 &&
    forall l :: above <= l < |lists| ==> ChosenAt(k, g0, vector, ef, hits[l + 1], hits[l], lists[l], l)
  }

  /** All the lists of a new node whose top layer is entered at `entries`. */
  ghost predicate NewLists(k: Linking, g0: Graph, vector: Vec, ef: nat, lists: seq<seq<Id>>, entries: seq<Id>) {
    exists hits :: Chosen(k, g0, vector, ef, lists, hits, 0) && hits[|lists|] == entries
  }

  /** Live ids with vectors; there are some exactly when `some` says so. */
  ghost predicate Usables(g: Graph, vectors: map<Id, Vec>, list: seq<Id>, some: bool) {
    (list != [] <==> some) && forall t :: t in list ==> IsLive(g, t) && t in vectors
  }

  /** The lists from `above` up name live nodes with vectors, and are empty only where nothing may be linked. */
  ghost predicate ListsUsable(k: Linking, g0: Graph, lists: seq<seq<Id>>, above: nat, some: bool) {
    forall l :: above <= l < |lists| ==> Usables(g0, k.vectors, lists[l], some && Cap(k.m, k.mMax, l) > 0)
  }

  /** An insert between two layers: those from `above` up are done, and the next one is entered at `current`. */
  ghost predicate Inserting(k: Linking, g0: Graph, vector: Vec, ef: nat, now: Progress, current: seq<Id>, above: nat,
                           some: bool) {
    && LayersDone(k, g0, now.g, now.lists, above) && ListsUsable(k, g0, now.lists, above, some)
    && Chosen(k, g0, vector, ef, now.lists, now.hits, above) && above <= |now.lists| && now.hits[above] == current
    && Distinct(current) && (forall e :: e in current ==> IsLive(g0, e))
    && ((exists e :: e in current && e in k.vectors) <==> some)
  }

  lemma InsertingAtTop(k: Linking, g0: Graph, vector: Vec, ef: nat, layer: nat, entries: seq<Id>, some: bool)
    requires Degrees(g0, k.m, k.mMax) && Targets(g0, g0.Keys)
    requires Distinct(entries) && forall e :: e in entries ==> IsLive(g0, e)
    requires some <==> exists e :: e in entries && e in k.vectors
    ensures Inserting(k, g0, vector, ef, Progress(g0, seq(layer + 1, _ => []), seq(layer + 2, _ => entries)), entries,
                      layer + 1, some)
  {
    RelinkedSelf(g0, k.id);
    var none: seq<seq<Id>> := seq(layer + 1, _ => []);
    assert forall l: nat :: l >= layer + 1 ==> LayerLinked(k, g0, g0, l, NeighborsAt(none, l));
  }

  /** The lists of a new node in a graph with entry point `start`. */
  ghost predicate NewNode(k: Linking, g0: Graph, vector: Vec, ef: nat, lists: seq<seq<Id>>, start: Id,
                          entries: seq<Id>) {
    NewLists(k, g0, vector, ef, lists, entries) && ListsUsable(k, g0, lists, 0, start in k.vectors)
  }

  lemma PartIsUsable(g: Graph, vectors: map<Id, Vec>, list: seq<Id>, part: seq<Id>, some: bool)
    requires Usables(g, vectors, list, some) && forall n :: n in part ==> n in list
    ensures forall n :: n in part ==> n in vectors && n in g
  {}

  lemma ListUsable(k: Linking, g0: Graph, vector: Vec, hits: seq<Id>, level: nat, some: bool, list: seq<Id>)
    requires Usables(g0, k.vectors, hits, some)
    requires Kept(g0, hits, list, if level == 0 then k.mMax else k.m, vector, k.dist, k.vectors)
    ensures Usables(g0, k.vectors, list, some && Cap(k.m, k.mMax, level) > 0)
  {
    var limit := Cap(k.m, k.mMax, level);
    if |hits| > limit {
      forall t | t in list ensures t in hits {
        assert t in multiset(list);
        assert t in multiset(hits);
      }
      assert hits[0] in hits && hits[0] in multiset(hits);
      if list == [] { assert LeftOut(g0, hits, list, hits[0], k.vectors); }
    }
  }

  /** A selection in the middle of an insert is one in the graph as it was: only tombstones matter. */
  lemma SelectedIsChosen(k: Linking, g0: Graph, g: Graph, vector: Vec, ef: nat, entries: seq<Id>, hits: seq<Id>,
                         level: nat)
    requires forall id :: IsTombstone(g, id) == IsTombstone(g0, id)
    requires LayerHits(QueryAt(g0, k.dist, vector, k.vectors, None, map[], entries, ef, level), hits)
    ensures var key := DistanceKey(k.dist, vector, k.vectors);
            var list := Selected(g, hits, Cap(k.m, k.mMax, level), key, k.vectors);
            ChosenAt(k, g0, vector, ef, entries, hits, list, level)
  {
    var cap, key := Cap(k.m, k.mMax, level), DistanceKey(k.dist, vector, k.vectors);
    SelectedSame(g0, g, hits, cap, key, k.vectors);
    SelectedIsKept(g0, hits, cap, vector, k.dist, k.vectors);
  }

  lemma ChosenOneMore(k: Linking, g0: Graph, vector: Vec, ef: nat, lists: seq<seq<Id>>, hits: seq<seq<Id>>,
                      level: nat, list: seq<Id>, found: seq<Id>)
    requires level < |lists| && Chosen(k, g0, vector, ef, lists, hits, level + 1)
    requires ChosenAt(k, g0, vector, ef, hits[level + 1], found, list, level)
    ensures Chosen(k, g0, vector, ef, lists[level := list], hits[level := found], level)
  {}

  lemma InsertingOneMore(k: Linking, g0: Graph, vector: Vec, ef: nat, now: Progress, entries: seq<Id>, level: nat,
                         some: bool, g: Graph, list: seq<Id>, found: seq<Id>)
    requires level < |now.lists| && Inserting(k, g0, vector, ef, now, entries, level + 1, some)
    requires LayersDone(k, g0, g, now.lists[level := list], level)
    requires Distinct(found) && Usables(g0, k.vectors, found, some)
    requires ChosenAt(k, g0, vector, ef, entries, found, list, level)
    ensures Inserting(k, g0, vector, ef, Progress(g, now.lists[level := list], now.hits[level := found]), found, level,
                      some)
  {
    ListUsable(k, g0, vector, found, level, some, list);
    ChosenOneMore(k, g0, vector, ef, now.lists, now.hits, level, list, found);
    HasMember(found);
  }

  /** The same for the list that was selected. */
  lemma NextLayer(k: Linking, g0: Graph, vector: Vec, ef: nat, now: Progress, entries: seq<Id>, level: nat, some: bool,
                  g: Graph, list: seq<Id>, found: seq<Id>)
    requires level < |now.lists| && Inserting(k, g0, vector, ef, now, entries, level + 1, some)
    requires LayersDone(k, g0, g, now.lists[level := list], level)
    requires Distinct(found) && Usables(g0, k.vectors, found, some)
    requires LayerHits(QueryAt(g0, k.dist, vector, k.vectors, None, map[], entries, ef, level), found)
    requires list == Selected(now.g, found, Cap(k.m, k.mMax, level), DistanceKey(k.dist, vector, k.vectors), k.vectors)
    ensures Inserting(k, g0, vector, ef, Progress(g, now.lists[level := list], now.hits[level := found]), found, level,
                      some)
  {
    SelectedIsChosen(k, g0, now.g, vector, ef, entries, found, level);
    InsertingOneMore(k, g0, vector, ef, now, entries, level, some, g, list, found);
  }

  // ----- linking back

  function WithEdges(g: Graph, n: Id, level: nat, edges: seq<Id>): Graph
    requires n in g && level < |g[n].connections|
  {
    g[n := g[n].(connections := g[n].connections[level := edges])]
  }

  lemma WithEdgesDegrees(g: Graph, n: Id, level: nat, edges: seq<Id>, m: nat, mMax: nat)
    requires Degrees(g, m, mMax) && n in g && level < |g[n].connections| && |edges| <= Cap(m, mMax, level)
    ensures Degrees(WithEdges(g, n, level, edges), m, mMax)
  {
    var h := WithEdges(g, n, level, edges);
    forall i, l | i in h && 0 <= l < |h[i].connections| ensures |h[i].connections[l]| <= Cap(m, mMax, l) {
      if i != n || l != level { assert h[i].connections[l] == g[i].connections[l]; }
    }
  }

  lemma WithEdgesRelinks(g0: Graph, g: Graph, id: Id, n: Id, level: nat, edges: seq<Id>)
    requires Relinked(g0, g, id, level) && n in g && level < |g[n].connections|
    requires forall t :: t in edges ==> t in g[n].connections[level] || t == id
    requires id !in g0 ==> n != id
    ensures Relinked(g0, WithEdges(g, n, level, edges), id, level)
  {
    var h := WithEdges(g, n, level, edges);
    forall i, l | i in h && 0 <= l < |h[i].connections|
      ensures l < level ==> h[i].connections[l] == g0[i].connections[l]
      ensures i != n || l != level ==> h[i].connections[l] == g[i].connections[l]
    {
      if i != n || l != level { assert h[i].connections[l] == g[i].connections[l]; }
    }
    assert h[n].connections[level] == edges;
  }

  /** The graph, the new node's lists and the hits of each layer in the middle of an insert. */
  datatype Progress = Progress(g: Graph, lists: seq<seq<Id>>, hits: seq<seq<Id>>)

  /** What an insert works with. */
  datatype Linking = Linking(id: Id, dist: (Vec, Vec) -> real, vectors: map<Id, Vec>, m: nat, mMax: nat)

  /** In one layer exactly the neighbours' lists have changed, each to its pruned form (the new id's own apart). */
  ghost predicate LayerLinked(k: Linking, g0: Graph, g: Graph, level: nat, neighbors: set<Id>) {
    forall n :: n in g0 && n in g && n != k.id && level < |g0[n].connections| && level < |g[n].connections| ==>
      var before, now := g0[n].connections[level], g[n].connections[level];
      if n in neighbors && n in k.vectors then Relisted(k, g0, n, level, before + [k.id], now) else now == before
  }

  /** What a neighbour's list becomes once the new id has been added: pruned if it is now too long for its layer. */
  ghost predicate Relisted(k: Linking, g0: Graph, n: Id, level: nat, all: seq<Id>, list: seq<Id>)
    requires n in k.vectors
  {
    Kept(g0, all, list, if level == 0 then k.mMax else k.m, k.vectors[n], k.dist, k.vectors)
  }

  ghost predicate OtherLayersKept(g: Graph, h: Graph, level: nat) {
    && h.Keys == g.Keys && (forall n :: n in g ==> |h[n].connections| == |g[n].connections|)
    && forall n, l :: n in g && 0 <= l < |g[n].connections| && l != level ==> h[n].connections[l] == g[n].connections[l]
  }

  lemma LinkedOneMore(k: Linking, g0: Graph, g: Graph, level: nat, done: set<Id>, n: Id, edges: seq<Id>)
    requires LayerLinked(k, g0, g, level, done) && Relinked(g0, g, k.id, level) && n !in done
    requires n in g && level < |g[n].connections| && n in k.vectors
    requires n != k.id ==> Relisted(k, g0, n, level, g0[n].connections[level] + [k.id], edges)
    ensures LayerLinked(k, g0, WithEdges(g, n, level, edges), level, done + {n})
  {
    var h := WithEdges(g, n, level, edges);
    forall x | x in g0 && x in h && x != n ensures h[x] == g[x] {}
    assert h[n].connections[level] == edges;
  }

  lemma OneLayerChanges(g: Graph, n: Id, level: nat, edges: seq<Id>)
    requires n in g && level < |g[n].connections|
    ensures OtherLayersKept(g, WithEdges(g, n, level, edges), level)
  {
    var h := WithEdges(g, n, level, edges);
    forall x, l | x in g && 0 <= l < |g[x].connections| && l != level
      ensures h[x].connections[l] == g[x].connections[l]
    {
      if x != n { assert h[x] == g[x]; }
    }
  }

  /** `h` is `base` after one layer has been linked back from the neighbours `done`. */
  ghost predicate LinkedSoFar(k: Linking, g0: Graph, base: Graph, h: Graph, level: nat, done: set<Id>) {
    && Relinked(g0, h, k.id, level) && Degrees(h, k.m, k.mMax)
    && LayerLinked(k, g0, h, level, done) && OtherLayersKept(base, h, level)
  }

  /** One neighbour's list gets the new id and is pruned if it is now too long. */
  function LinkedBack(k: Linking, g: Graph, n: Id, level: nat): Graph
    requires n in k.vectors
  {
    if n !in g || level >= |g[n].connections| then g
    else
      var key := DistanceKey(k.dist, k.vectors[n], k.vectors);
      var all := g[n].connections[level] + [k.id];
      WithEdges(g, n, level, Selected(g, all, Cap(k.m, k.mMax, level), key, k.vectors))
  }

  function LinkedBackFrom(k: Linking, g: Graph, neighbors: seq<Id>, i: nat, level: nat): Graph
    requires i <= |neighbors| && forall n :: n in neighbors ==> n in k.vectors
    decreases |neighbors| - i
  {
    if i == |neighbors| then g else LinkedBackFrom(k, LinkedBack(k, g, neighbors[i], level), neighbors, i + 1, level)
  }

  method LinkBack(k: Linking, g: Graph, n: Id, level: nat) returns (h: Graph)
    requires n in k.vectors
    ensures h == LinkedBack(k, g, n, level)
  {
    if n !in g || level >= |g[n].connections| { return g; }
    var edges := g[n].connections[level] + [k.id];
    if |edges| > Cap(k.m, k.mMax, level) {
      edges := SelectNeighbors(g, edges, Cap(k.m, k.mMax, level), k.dist, k.vectors, k.vectors[n]);
    }
    h := WithEdges(g, n, level, edges);
  }

  method LinkAll(k: Linking, g: Graph, neighbors: seq<Id>, level: nat) returns (h: Graph)
    requires forall n :: n in neighbors ==> n in k.vectors
    ensures h == LinkedBackFrom(k, g, neighbors, 0, level)
  {
    h := g;
    var i := 0;
    while i < |neighbors|
      invariant 0 <= i <= |neighbors|
      invariant LinkedBackFrom(k, h, neighbors, i, level) == LinkedBackFrom(k, g, neighbors, 0, level)
    {
      h := LinkBack(k, h, neighbors[i], level);
      i := i + 1;
    }
  }

  /** Linking back from one neighbour changes exactly its list in that layer, as `Relisted` says. */
  lemma LinkBackKeeps(k: Linking, g0: Graph, base: Graph, g: Graph, n: Id, level: nat, done: set<Id>)
    requires LinkedSoFar(k, g0, base, g, level, done)
    requires n !in done && n in k.vectors && (k.id !in g0 ==> n != k.id)
    ensures LinkedSoFar(k, g0, base, LinkedBack(k, g, n, level), level, done + {n})
  {
    if n in g && level < |g[n].connections| {
      var all, cap := g[n].connections[level] + [k.id], Cap(k.m, k.mMax, level);
      var key := DistanceKey(k.dist, k.vectors[n], k.vectors);
      var edges := Selected(g, all, cap, key, k.vectors);
      SelectedSame(g0, g, all, cap, key, k.vectors);
      SelectedFits(g, all, cap, key, k.vectors);
      SelectedIsKept(g0, all, cap, k.vectors[n], k.dist, k.vectors);
      LinkedOneMore(k, g0, g, level, done, n, edges);
      OneLayerChanges(g, n, level, edges);
      WithEdgesDegrees(g, n, level, edges, k.m, k.mMax);
      WithEdgesRelinks(g0, g, k.id, n, level, edges);
      KeptTwice(base, g, WithEdges(g, n, level, edges), level);
    }
  }

  lemma KeptTwice(a: Graph, b: Graph, c: Graph, level: nat)
    requires OtherLayersKept(a, b, level) && OtherLayersKept(b, c, level)
    ensures OtherLayersKept(a, c, level)
  {}

  lemma {:induction false} LinkAllKeeps(k: Linking, g0: Graph, base: Graph, g: Graph, neighbors: seq<Id>, i: nat,
                                        level: nat)
    requires i <= |neighbors| && LinkedSoFar(k, g0, base, g, level, Firsts(neighbors, i))
    requires Distinct(neighbors) && forall n :: n in neighbors ==> n in k.vectors && n in g0
    ensures LinkedSoFar(k, g0, base, LinkedBackFrom(k, g, neighbors, i, level), level, Firsts(neighbors, |neighbors|))
    decreases |neighbors| - i
  {
    if i < |neighbors| {
      var n := neighbors[i];
      assert n in neighbors;
      NotBefore(neighbors, i);
      LinkBackKeeps(k, g0, base, g, n, level, Firsts(neighbors, i));
      LinkAllKeeps(k, g0, base, LinkedBack(k, g, n, level), neighbors, i + 1, level);
    }
  }

  lemma NotBefore(list: seq<Id>, i: nat)
    requires Distinct(list) && i < |list|
    ensures list[i] !in Firsts(list, i)
  {
    FirstsHave(list, i);
  }

  /** A search in an untouched layer that enters at nodes finds only nodes. */
  lemma FoundAreNodes(g0: Graph, g: Graph, id: Id, q: Query, found: seq<Id>)
    requires Targets(g0, g0.Keys) && Relinked(g0, g, id, q.level + 1) && q.g == g
    requires forall e :: e in q.entries ==> e in g0
    requires forall x :: x in found ==> Reachable(q, x)
    ensures forall x :: x in found ==> x in g0
  {
    forall x | x in found ensures x in g0 {
      forall i, t | i in g0.Keys && t in Edges(q.g, i, q.level) ensures t in g0.Keys {
        assert g[i].connections[q.level] == g0[i].connections[q.level];
      }
      ReachableStaysIn(q, x, g0.Keys);
    }
  }

  lemma TakeMembers(result: seq<Id>, found: seq<Id>, n: nat)
    requires multiset(result) == multiset(Take(found, n)) && Distinct(found)
    ensures Distinct(result) && |result| <= n && forall x :: x in result <==> x in Take(found, n)
    ensures forall x :: x in result ==> x in found
  {
    var head := Take(found, n);
    assert |result| == |multiset(result)| == |head|;
    forall x ensures x in result <==> x in head {
      assert x in result <==> x in multiset(result);
      assert x in head <==> x in multiset(head);
    }
    forall x | x in result ensures x in found { assert x in head; }
    PermutationDistinct(result, head);
  }

  lemma {:induction false} PermutationDistinct(a: seq<Id>, b: seq<Id>)
    requires multiset(a) == multiset(b) && Distinct(b)
    ensures Distinct(a)
  {
    forall i, j | 0 <= i < j < |a| ensures a[i] != a[j] {
      if a[i] == a[j] {
        var l, x, mid, r := a[..i], a[i], a[i + 1..j], a[j + 1..];
        assert a == l + [x] + mid + [x] + r;
        assert multiset(a)[x] >= 2;
        OccursOnce(b, x);
        assert false;
      }
    }
  }

  lemma {:induction false} OccursOnce(b: seq<Id>, x: Id)
    requires Distinct(b)
    ensures multiset(b)[x] <= 1
  {
    if b != [] {
      assert b == [b[0]] + b[1..];
      OccursOnce(b[1..], x);
      if b[0] == x { assert x !in b[1..]; assert x !in multiset(b[1..]); }
    }
  }

  /** Half-linked lists of other layers do not show in a search. */
  lemma OldLayerHits(g0: Graph, q: Query, found: seq<Id>, hits: seq<Id>)
    requires Discovered(q, found) && Distinct(hits) && forall id :: id in hits ==> id in g0 && q.Live(id)
    requires multiset(hits) == multiset(Take(found, q.Capacity())) && Ascending(hits, q.key)
    requires |found| < q.width ==>
      forall p :: NearPath(q, p, hits) && q.Live(p[|p| - 1]) ==> p[|p| - 1] in found && p[|p| - 1] in hits
    requires SameLayer(q, q.(g := g0))
    ensures LayerHits(q.(g := g0), hits)
  {
    DiscoveredSame(q, q.(g := g0), found);
    StartSame(q, q.(g := g0));
    assert |hits| == |multiset(hits)| == |Take(found, q.Capacity())|;
    OldPaths(g0, q, hits);
  }

  lemma OldPaths(g0: Graph, q: Query, hits: seq<Id>)
    requires SameLayer(q, q.(g := g0)) && PathsEndIn(q, hits)
    ensures PathsEndIn(q.(g := g0), hits)
  {
    var q0 := q.(g := g0);
    forall p | |hits| < q.width && NearPath(q0, p, hits) && q0.Live(p[|p| - 1]) ensures p[|p| - 1] in hits {
      forall i | 0 <= i < |p| - 1 ensures p[i + 1] in Edges(q.g, p[i], q.level) {
        assert p[i + 1] in Edges(q0.g, p[i], q.level);
      }
      assert NearPath(q, p, hits) && q.Live(p[|p| - 1]);
    }
  }

  /** What a search in the middle of an insert returns. */
  lemma SearchedMidway(g0: Graph, id: Id, q: Query, found: seq<Id>, result: seq<Id>, vectors: map<Id, Vec>)
    requires Targets(g0, g0.Keys) && Relinked(g0, q.g, id, q.level + 1)
    requires (forall x :: q.admits(x) <==> x in vectors) && forall e :: e in q.entries ==> IsLive(g0, e)
    requires Discovered(q, found) && q.LiveEntries() <= found && Distinct(found)
    requires forall x :: x in found ==> q.Live(x) && Reachable(q, x)
    requires multiset(result) == multiset(Take(found, q.Capacity())) && Ascending(result, q.key)
    requires |found| < q.width ==>
      forall p :: NearPath(q, p, result) && q.Live(p[|p| - 1]) ==> p[|p| - 1] in found && p[|p| - 1] in result
    ensures Distinct(result) && Usables(g0, vectors, result, exists e :: e in q.entries && e in vectors)
    ensures LayerHits(q.(g := g0), result)
  {
    FoundAreNodes(g0, q.g, id, q, found);
    TakeMembers(result, found, q.Capacity());
    HitsUsable(g0, q, found, result, vectors);
    SameAsOld(g0, id, q);
    OldLayerHits(g0, q, found, result);
  }

  lemma SameAsOld(g0: Graph, id: Id, q: Query)
    requires Relinked(g0, q.g, id, q.level + 1)
    ensures SameLayer(q, q.(g := g0))
  {
    forall n ensures Edges(g0, n, q.level) == Edges(q.g, n, q.level) && IsTombstone(g0, n) == IsTombstone(q.g, n) {
      if n in g0 && q.level < |g0[n].connections| {
        assert q.g[n].connections[q.level] == g0[n].connections[q.level];
      }
    }
  }

  lemma LiveMidway(g0: Graph, g: Graph, id: Id, level: nat, n: Id)
    requires Relinked(g0, g, id, level + 1) && IsLive(g0, n)
    ensures !IsTombstone(g, n)
  {}

  lemma OneEntry(q: Query, result: seq<Id>, found: seq<Id>, entry: Id)
    requires |q.entries| == 1 && q.entries[0] == entry && !IsTombstone(q.g, entry)
    requires q.LiveEntries() <= found && (forall id :: id in found ==> Reachable(q, id))
    requires multiset(result) == multiset(Take(found, q.Capacity()))
    ensures q.width == 1 ==> result == if q.admits(entry) then q.entries else []
  {
    assert q.entries == [entry];
    EntrySearch(q, result, found, entry);
  }

  lemma HasMember(xs: seq<Id>)
    ensures xs != [] ==> exists x :: x in xs
  {
    if xs != [] { assert xs[0] in xs; }
  }

  lemma HitsUsable(g0: Graph, q: Query, found: seq<Id>, result: seq<Id>, vectors: map<Id, Vec>)
    requires forall id :: q.admits(id) <==> id in vectors
    requires forall id :: IsTombstone(q.g, id) == IsTombstone(g0, id)
    requires forall e :: e in q.entries ==> IsLive(g0, e)
    requires q.LiveEntries() <= found && forall id :: id in found ==> q.Live(id) && Reachable(q, id) && id in g0
    requires forall id :: id in result <==> id in Take(found, q.Capacity())
    ensures Usables(g0, vectors, result, exists e :: e in q.entries && e in vectors)
  {
    var live := (id: Id) => q.Live(id);
    if e :| e in q.entries && e in vectors {
      InFilter(q.entries, live, e);
      assert found != [] && q.Capacity() > 0;
      assert found[0] in Take(found, q.Capacity());
    } else {
      assert forall id :: !Reachable(q, id);
      HasMember(found);
      assert Take(found, q.Capacity()) == [];
      HasMember(result);
    }
    forall t | t in result ensures t in found { assert t in Take(found, q.Capacity()); }
  }

  /** What every reachable graph keeps. */
  ghost predicate GraphOk(g: Graph, start: Option<Id>, maxLevel: int, m: nat, mMax: nat) {
    && Degrees(g, m, mMax) && Targets(g, g.Keys)
    && EntryOk(g, start, maxLevel)
  }

  /** The entry point is a live node whenever there is one, and `maxLevel` bounds every live node's top layer. */
  ghost predicate EntryOk(g: Graph, start: Option<Id>, maxLevel: int) {
    && (forall id :: id in g ==> g[id].connections != [])
    && (start.None? <==> LiveIds(g) == {})
    && (start.Some? ==> IsLive(g, start.value))
    && forall id :: IsLive(g, id) ==> |g[id].connections| - 1 <= maxLevel
  }

  class HnswIndex {
    const m: nat
    const mMax: nat
    const efConstruction: nat
    const dist: (Vec, Vec) -> real
    var nodes: Graph
    var maxLevel: int
    var start: Option<Id>

    ghost predicate Valid()
      reads this
    {
      GraphOk(nodes, start, maxLevel, m, mMax)
    }

    constructor (m: nat, mMax: nat, efConstruction: nat, dist: (Vec, Vec) -> real)
      ensures Valid() && nodes == map[] && this.m == m && this.mMax == mMax && this.efConstruction == efConstruction
        && this.dist == dist
    {
      this.m, this.mMax, this.efConstruction, this.dist := m, mMax, efConstruction, dist;
      nodes, maxLevel, start := map[], -1, None;
    }

    /** One layer search without a filter, in the graph `g` as it is in the middle of an insert. */
    method SearchGraph(g0: Graph, g: Graph, query: Vec, entries: seq<Id>, width: nat, level: nat,
                       vectors: map<Id, Vec>, id: Id)
      returns (result: seq<Id>)
      requires Distinct(entries) && (forall e :: e in entries ==> IsLive(g0, e))
      requires Targets(g0, g0.Keys) && Relinked(g0, g, id, level + 1)
      ensures Distinct(result) && Usables(g0, vectors, result, exists e :: e in entries && e in vectors)
      ensures LayerHits(QueryAt(g0, dist, query, vectors, None, map[], entries, width, level), result)
      ensures width == 1 && |entries| == 1 ==> result == if entries[0] in vectors then entries else []
    {
      var q := QueryAt(g, dist, query, vectors, None, map[], entries, width, level);
      ghost var found;
      result, found := SearchLayer(q);
      SearchedMidway(g0, id, q, found, result, vectors);
      if |entries| == 1 {
        LiveMidway(g0, g, id, level, entries[0]);
        OneEntry(q, result, found, entries[0]);
      }
    }

    /** Links the new id in every layer from its own down to 0; earlier layers' lists wait in `pending`. */
    method LinkLayers(k: Linking, vector: Vec, layer: nat, entries: seq<Id>, ghost some: bool)
      returns (g: Graph, pending: seq<seq<Id>>, ghost hits: seq<seq<Id>>)
      requires k.dist == dist && k.m == m && k.mMax == mMax && Degrees(nodes, m, mMax) && Targets(nodes, nodes.Keys)
      requires Distinct(entries) && forall e :: e in entries ==> IsLive(nodes, e)
      requires some <==> exists e :: e in entries && e in k.vectors
      ensures |pending| == layer + 1 && |hits| == layer + 2 && hits[layer + 1] == entries
      ensures Inserting(k, nodes, vector, efConstruction, Progress(g, pending, hits), hits[0], 0, some)
    {
      ghost var ef := efConstruction;
      g, pending := nodes, seq(layer + 1, _ => []);
      hits := seq(layer + 2, _ => entries);
      var current := entries;
      var above := layer + 1;
      InsertingAtTop(k, nodes, vector, ef, layer, entries, some);
      while above > 0
        invariant 0 <= above <= layer + 1 == |pending| && |hits| == layer + 2 && hits[layer + 1] == entries
        invariant Inserting(k, nodes, vector, ef, Progress(g, pending, hits), current, above, some)
        decreases above
      {
        g, pending, current, hits := LinkLayer(k, vector, g, pending, current, above - 1, hits, some);
        above := above - 1;
      }
    }

    /** One layer: search it, select neighbours, link them both ways. */
    method LinkLayer(k: Linking, vector: Vec, g: Graph, pending: seq<seq<Id>>, entries: seq<Id>, level: nat,
                     ghost hits: seq<seq<Id>>, ghost some: bool)
      returns (g': Graph, pending': seq<seq<Id>>, current: seq<Id>, ghost hits': seq<seq<Id>>)
      requires k.dist == dist && k.m == m && k.mMax == mMax && Targets(nodes, nodes.Keys) && level < |pending|
      requires Inserting(k, nodes, vector, efConstruction, Progress(g, pending, hits), entries, level + 1, some)
      ensures |pending'| == |pending| && hits' == hits[level := current]
      ensures Inserting(k, nodes, vector, efConstruction, Progress(g', pending', hits'), current, level, some)
    {
      var neighbors;
      current, neighbors := ChooseNeighbors(k, vector, g, entries, level);
      PartIsUsable(nodes, k.vectors, current, neighbors, some);
      g', pending' := LinkedLayer(k, g, pending, level, neighbors);
      hits' := hits[level := current];
      NextLayer(k, nodes, vector, efConstruction, Progress(g, pending, hits), entries, level, some, g', neighbors,
                current);
    }

    method ChooseNeighbors(k: Linking, vector: Vec, g: Graph, entries: seq<Id>, level: nat)
      returns (current: seq<Id>, neighbors: seq<Id>)
      requires k.dist == dist && k.m == m && k.mMax == mMax && Targets(nodes, nodes.Keys)
      requires Relinked(nodes, g, k.id, level + 1) && Distinct(entries) && forall e :: e in entries ==> IsLive(nodes, e)
      ensures Distinct(current) && Usables(nodes, k.vectors, current, exists e :: e in entries && e in k.vectors)
      ensures LayerHits(QueryAt(nodes, k.dist, vector, k.vectors, None, map[], entries, efConstruction, level), current)
      ensures neighbors
        == Selected(g, current, Cap(k.m, k.mMax, level), DistanceKey(k.dist, vector, k.vectors), k.vectors)
      ensures Distinct(neighbors) && |neighbors| <= Cap(k.m, k.mMax, level)
      ensures forall n :: n in neighbors ==> n in current
    {
      current := SearchGraph(nodes, g, vector, entries, efConstruction, level, k.vectors, k.id);
      neighbors := SelectOnce(k, vector, g, current, Cap(m, mMax, level));
    }

    method SelectOnce(k: Linking, vector: Vec, g: Graph, hits: seq<Id>, limit: nat) returns (neighbors: seq<Id>)
      requires Distinct(hits)
      ensures neighbors == Selected(g, hits, limit, DistanceKey(k.dist, vector, k.vectors), k.vectors)
      ensures Distinct(neighbors) && |neighbors| <= limit && forall n :: n in neighbors ==> n in hits
    {
      neighbors := SelectNeighbors(g, hits, limit, k.dist, k.vectors, vector);
      SelectedDistinct(g, hits, limit, DistanceKey(k.dist, vector, k.vectors), k.vectors);
    }

    /** The edges of one layer, in both directions. */
    method LinkedLayer(k: Linking, g: Graph, pending: seq<seq<Id>>, level: nat, neighbors: seq<Id>)
      returns (g': Graph, pending': seq<seq<Id>>)
      requires level < |pending| && LayersDone(k, nodes, g, pending, level + 1)
      requires Distinct(neighbors) && |neighbors| <= Cap(k.m, k.mMax, level)
      requires forall n :: n in neighbors ==> n in k.vectors && n in nodes
      ensures pending' == pending[level := neighbors] && LayersDone(k, nodes, g', pending', level)
    {
      Untouched(k, nodes, g, level);
      RelinkedLower(nodes, g, k.id, level);
      g' := LinkAll(k, g, neighbors, level);
      assert LinkedSoFar(k, nodes, g, g, level, {});
      LinkAllKeeps(k, nodes, g, g, neighbors, 0, level);
      LinkedOneLayer(k, nodes, g, g', pending, level, neighbors);
      pending' := pending[level := neighbors];
    }

    /** The searches of width 1 from the top layer down to the one above the new node's. */
    method Descend(id: Id, vector: Vec, vectors: map<Id, Vec>, layer: nat) returns (current: seq<Id>)
      requires Targets(nodes, nodes.Keys) && start.Some? && IsLive(nodes, start.value)
      ensures current == if layer < maxLevel && start.value !in vectors then [] else [start.value]
    {
      current := [start.value];
      RelinkedSelf(nodes, id);
      var level := maxLevel;
      while level > layer
        invariant level == maxLevel || layer <= level < maxLevel
        invariant current == if level < maxLevel && start.value !in vectors then [] else [start.value]
        decreases level - layer
      {
        current := SearchGraph(nodes, nodes, vector, current, 1, level, vectors, id);
        level := level - 1;
      }
    }

    /** Where the top layer of a new node is entered: a missing vector stops the descent, if there is one. */
    function EntryFor(vectors: map<Id, Vec>, layer: nat): seq<Id>
      reads `start, `maxLevel
      requires start.Some?
    {
      if layer < maxLevel && start.value !in vectors then [] else [start.value]
    }

    /** The graph with the new node linked in, when there already is an entry point. */
    method LinkedGraph(id: Id, vector: Vec, vectors: map<Id, Vec>, layer: nat) returns (h: Graph)
      requires Valid() && start.Some?
      ensures var top := layer > maxLevel;
              GraphOk(h, if top then Some(id) else start, if top then layer else maxLevel, m, mMax)
      ensures Inserted(nodes, h, id, layer) && Linked(Linking(id, dist, vectors, m, mMax), nodes, h)
      ensures NewNode(Linking(id, dist, vectors, m, mMax), nodes, vector, efConstruction, h[id].connections,
                      start.value, EntryFor(vectors, layer))
    {
      var k := Linking(id, dist, vectors, m, mMax);
      var current := Descend(id, vector, vectors, layer);
      ghost var hits;
      var g, pending;
      assert start.value in vectors ==> current[0] in current;
      g, pending, hits := LinkLayers(k, vector, layer, current, start.value in vectors);
      h := g[id := Node(pending, false)];
      Added(nodes, start, maxLevel, g, id, pending, layer, m, mMax);
      LinkedStays(k, nodes, g, pending);
    }

    /** The first node has nothing to link to. */
    method GraphWith(id: Id, vector: Vec, vectors: map<Id, Vec>, layer: nat) returns (h: Graph)
      requires Valid()
      ensures var top := start.None? || layer > maxLevel;
              GraphOk(h, if top then Some(id) else start, if top then layer else maxLevel, m, mMax)
      ensures Inserted(nodes, h, id, layer) && Linked(Linking(id, dist, vectors, m, mMax), nodes, h)
      ensures start.None? ==> h[id].connections == seq(layer + 1, _ => [])
      ensures start.Some? ==> NewNode(Linking(id, dist, vectors, m, mMax), nodes, vector, efConstruction,
                                      h[id].connections, start.value, EntryFor(vectors, layer))
    {
      if start == None {
        FirstNode(nodes, id, layer, m, mMax);
        FirstIsLinked(Linking(id, dist, vectors, m, mMax), nodes, layer);
        h := nodes[id := Node(seq(layer + 1, _ => []), false)];
      } else {
        h := LinkedGraph(id, vector, vectors, layer);
      }
    }

    /**
     * `layer` is the level drawn for the new node.  Its lists are selected from the hits of each layer's search, so
     * with an entry point that has a vector every list that may hold anything does.
     */
    method Insert(id: Id, vector: Vec, vectors: map<Id, Vec>, layer: nat)
      requires Valid()
      modifies this
      ensures Valid() && Inserted(old(nodes), nodes, id, layer)
      ensures start == if old(start).None? || layer > old(maxLevel) then Some(id) else old(start)
      ensures maxLevel == if old(start).None? || layer > old(maxLevel) then layer else old(maxLevel)
      ensures Linked(Linking(id, dist, vectors, m, mMax), old(nodes), nodes)
      ensures old(start).None? ==> nodes[id].connections == seq(layer + 1, _ => [])
      ensures old(start).Some? ==>
        NewNode(Linking(id, dist, vectors, m, mMax), old(nodes), vector, efConstruction, nodes[id].connections,
                old(start).value, old(EntryFor(vectors, layer)))
    {
      nodes := GraphWith(id, vector, vectors, layer);
      if start == None || layer > maxLevel {
        maxLevel, start := layer, Some(id);
      }
    }

    /** Tombstones the node; if it was the entry point, any live node takes over. */
    method Remove(id: Id)
      requires Valid()
      modifies this
      ensures Valid() && Removed(old(nodes), nodes, id)
    {
      if id !in nodes { return; }
      ghost var before := nodes;
      nodes := nodes[id := nodes[id].(tombstone := true)];
      TombstonedGraph(before, start, maxLevel, id, m, mMax);
      if start == Some(id) {
        start, maxLevel := FindEntry();
      }
    }

    method FindEntry() returns (entry: Option<Id>, top: int)
      requires forall id :: id in nodes ==> nodes[id].connections != []
      ensures EntryOk(nodes, entry, top)
    {
      entry, top := None, -1;
      var todo := nodes.Keys;
      while todo != {}
        invariant todo <= nodes.Keys
        invariant entry.Some? ==> IsLive(nodes, entry.value)
        invariant entry.None? ==> forall id :: IsLive(nodes, id) ==> id in todo
        invariant forall id :: IsLive(nodes, id) && id !in todo ==> |nodes[id].connections| - 1 <= top
        decreases |todo|
      {
        var id :| id in todo;
        todo := todo - {id};
        if !nodes[id].tombstone {
          if entry.None? { entry := Some(id); }
          if |nodes[id].connections| - 1 > top { top := |nodes[id].connections| - 1; }
        }
      }
      if entry.Some? { assert entry.value in LiveIds(nodes); }
    }

    /** The width-1 searches through the upper layers: whatever the query, they return the entry point itself. */
    method DescendToBottom(query: Vec, vectors: map<Id, Vec>, filter: Option<Conditions>, metadatas: Metas)
      returns (current: seq<Id>)
      requires Valid() && start.Some?
      ensures current ==
        if maxLevel >= 1 && !Admitted(vectors, filter, metadatas, start.value) then [] else [start.value]
    {
      current := [start.value];
      var level := maxLevel;
      while level >= 1
        invariant level <= maxLevel && (level < maxLevel ==> maxLevel >= 1)
        invariant current ==
          if level < maxLevel && !Admitted(vectors, filter, metadatas, start.value) then [] else [start.value]
        decreases level
      {
        var q := QueryAt(nodes, dist, query, vectors, filter, metadatas, current, 1, level);
        ghost var found;
        current, found := SearchLayer(q);
        EntrySearch(q, current, found, start.value);
        level := level - 1;
      }
    }

    /**
     * `search`.  Without an entry point there is nothing; an entry point without a vector is an error; an entry
     * point that fails the filter hides the whole graph; otherwise the hits are those of layer 0, entered at
     * the entry point.
     */
    method Search(query: Vec, k: nat, ef: nat, vectors: map<Id, Vec>, filter: Option<Conditions>, metadatas: Metas)
      returns (r: Result<seq<Id>, SearchEngine.SearchError>)
      requires Valid()
      ensures start.None? ==> r == Ok([])
      ensures start.Some? && start.value !in vectors ==> r == Err(SearchEngine.MissingEntryPoint)
      ensures start.Some? && start.value in vectors && !Passes(vectors, filter, metadatas, start.value) ==>
        r == Ok([])
      ensures start.Some? && start.value in vectors && k > 0 ==>
        r.Ok? && (r.value == [] <==> !Passes(vectors, filter, metadatas, start.value))
      ensures start.Some? && Passes(vectors, filter, metadatas, start.value) ==>
        r.Ok? && BottomOk(nodes, dist, query, vectors, filter, metadatas, start.value, r.value, k,
                          if ef > k then ef else k)
      ensures r.Ok? ==> Answers(nodes, dist, query, vectors, filter, metadatas, r.value, k)
      ensures r.Ok? && start.Some? && k > 0 && (|LiveIds(nodes)| < ef || |LiveIds(nodes)| < k) ==>
        NothingMissed(nodes, dist, query, vectors, filter, metadatas, start.value, r.value, k)
    {
      if start == None { return Ok([]); }
      if start.value !in vectors { return Err(SearchEngine.MissingEntryPoint); }
      var current := DescendToBottom(query, vectors, filter, metadatas);
      var hits := SearchBottom(query, current, k, if ef > k then ef else k, vectors, filter, metadatas);
      r := Ok(hits);
    }

    /** The search of layer 0, entered where the descent ended. */
    method SearchBottom(query: Vec, current: seq<Id>, k: nat, width: nat, vectors: map<Id, Vec>,
                        filter: Option<Conditions>, metadatas: Metas)
      returns (hits: seq<Id>)
      requires Valid() && start.Some? && k <= width && (current == [start.value] || current == [])
      requires Admitted(vectors, filter, metadatas, start.value) ==> current == [start.value]
      ensures !Admitted(vectors, filter, metadatas, start.value) ==> hits == []
      ensures Admitted(vectors, filter, metadatas, start.value) ==>
        BottomOk(nodes, dist, query, vectors, filter, metadatas, start.value, hits, k, width)
    {
      var q := QueryAt(nodes, dist, query, vectors, filter, metadatas, current, width, 0);
      var nearest;
      ghost var found;
      nearest, found := SearchLayer(q);
      BottomDone(nodes, dist, query, vectors, filter, metadatas, q, nearest, found, start.value, k);
      hits := DropTombstones(nearest);
      if |hits| > k { hits := hits[..k]; }
    }

    method DropTombstones(list: seq<Id>) returns (kept: seq<Id>)
      ensures (forall id :: id in list ==> !IsTombstone(nodes, id)) ==> kept == list
      ensures kept == Filter(list, NotTombstone(nodes))
    {
      kept := Retain(list, NotTombstone(nodes));
      if forall id :: id in list ==> !IsTombstone(nodes, id) { KeepAll(list, NotTombstone(nodes)); }
    }
  }

  /** The new id is live, with `layer + 1` lists; nothing else changes liveness or height; no self-edge appears. */
  ghost predicate Inserted(g0: Graph, g: Graph, id: Id, layer: nat) {
    && LiveIds(g) == LiveIds(g0) + {id} && OthersKept(g0, g, id) && |g[id].connections| == layer + 1
    && (NoSelfEdges(g0) && id !in g0 ==> NoSelfEdges(g))
  }

  /** Only the new id's node appears or changes its liveness or height. */
  ghost predicate OthersKept(g0: Graph, g: Graph, id: Id) {
    g.Keys == g0.Keys + {id} &&
    forall n :: n in g0 && n != id ==>
      g[n].tombstone == g0[n].tombstone && |g[n].connections| == |g0[n].connections|
  }

  /** The new node's neighbours in layer l. */
  ghost function NeighborsAt(pending: seq<seq<Id>>, l: nat): set<Id> {
    if l < |pending| then Firsts(pending[l], |pending[l]|) else {}
  }

  ghost predicate LinkedAbove(k: Linking, g0: Graph, g: Graph, pending: seq<seq<Id>>, above: nat) {
    forall l: nat :: l >= above ==> LayerLinked(k, g0, g, l, NeighborsAt(pending, l))
  }

  /** In every layer exactly the new node's neighbours have new lists, each with the new id added and then pruned. */
  ghost predicate Linked(k: Linking, g0: Graph, g: Graph) {
    k.id in g && LinkedAbove(k, g0, g, g[k.id].connections, 0)
  }

  /** All layers from `above` up are linked, and the new node's own lists are within bounds and name nodes. */
  ghost predicate LayersDone(k: Linking, g0: Graph, g: Graph, pending: seq<seq<Id>>, above: nat) {
    && Relinked(g0, g, k.id, above) && Degrees(g, k.m, k.mMax) && LinkedAbove(k, g0, g, pending, above)
    && forall l :: 0 <= l < |pending| ==> |pending[l]| <= Cap(k.m, k.mMax, l) && forall t :: t in pending[l] ==> t in g0
  }

  lemma Untouched(k: Linking, g0: Graph, g: Graph, level: nat)
    requires Relinked(g0, g, k.id, level + 1)
    ensures LayerLinked(k, g0, g, level, {})
  {}

  lemma LinkedOneLayer(k: Linking, g0: Graph, g: Graph, h: Graph, pending: seq<seq<Id>>, level: nat, neighbors: seq<Id>)
    requires level < |pending| && LinkedAbove(k, g0, g, pending, level + 1)
    requires LayerLinked(k, g0, h, level, Firsts(neighbors, |neighbors|)) && OtherLayersKept(g, h, level)
    ensures LinkedAbove(k, g0, h, pending[level := neighbors], level)
  {
    var now := pending[level := neighbors];
    forall l: nat | l >= level ensures LayerLinked(k, g0, h, l, NeighborsAt(now, l)) {
      if l > level {
        assert LayerLinked(k, g0, g, l, NeighborsAt(pending, l)) && NeighborsAt(now, l) == NeighborsAt(pending, l);
        OtherLayer(k, g0, g, h, level, l, NeighborsAt(now, l));
      }
    }
  }

  lemma OtherLayer(k: Linking, g0: Graph, g: Graph, h: Graph, level: nat, l: nat, neighbors: set<Id>)
    requires LayerLinked(k, g0, g, l, neighbors) && OtherLayersKept(g, h, level) && l != level
    ensures LayerLinked(k, g0, h, l, neighbors)
  {}

  lemma LinkedStays(k: Linking, g0: Graph, g: Graph, pending: seq<seq<Id>>)
    requires LinkedAbove(k, g0, g, pending, 0)
    ensures Linked(k, g0, g[k.id := Node(pending, false)])
  {
    var h := g[k.id := Node(pending, false)];
    forall l: nat ensures LayerLinked(k, g0, h, l, NeighborsAt(pending, l)) {
      assert LayerLinked(k, g0, g, l, NeighborsAt(pending, l));
    }
  }

  lemma FirstIsLinked(k: Linking, g: Graph, layer: nat)
    ensures Linked(k, g, g[k.id := Node(seq(layer + 1, _ => []), false)])
  {
    var h := g[k.id := Node(seq(layer + 1, _ => []), false)];
    forall l: nat ensures LayerLinked(k, g, h, l, NeighborsAt(h[k.id].connections, l)) {
      assert NeighborsAt(h[k.id].connections, l) == {};
    }
  }

  lemma Added(g0: Graph, start: Option<Id>, maxLevel: int, g: Graph, id: Id, pending: seq<seq<Id>>, layer: nat, m: nat,
              mMax: nat)
    requires GraphOk(g0, start, maxLevel, m, mMax) && start.Some?
    requires Relinked(g0, g, id, 0) && Degrees(g, m, mMax) && |pending| == layer + 1
    requires forall l :: 0 <= l < |pending| ==>
      |pending[l]| <= Cap(m, mMax, l) && forall t :: t in pending[l] ==> t in g0
    ensures var h := g[id := Node(pending, false)];
            && (if layer > maxLevel then GraphOk(h, Some(id), layer, m, mMax) else GraphOk(h, start, maxLevel, m, mMax))
            && Inserted(g0, h, id, layer)
  {
    AddedNode(g0, g, id, pending, m, mMax);
    AddedEntry(g0, start, maxLevel, g, id, pending, layer);
  }

  lemma FirstNode(g: Graph, id: Id, layer: nat, m: nat, mMax: nat)
    requires Degrees(g, m, mMax) && Targets(g, g.Keys) && LiveIds(g) == {}
    requires forall n :: n in g ==> g[n].connections != []
    ensures var h := g[id := Node(seq(layer + 1, _ => []), false)];
            GraphOk(h, Some(id), layer, m, mMax) && Inserted(g, h, id, layer)
  {
    var h := g[id := Node(seq(layer + 1, _ => []), false)];
    forall n | n in h && n != id ensures !IsLive(h, n) { assert n !in LiveIds(g); }
  }

  lemma AddedEntry(g0: Graph, start: Option<Id>, maxLevel: int, g: Graph, id: Id, pending: seq<seq<Id>>, layer: nat)
    requires EntryOk(g0, start, maxLevel) && start.Some? && Relinked(g0, g, id, 0) && |pending| == layer + 1
    ensures var h := g[id := Node(pending, false)];
            && (if layer > maxLevel then EntryOk(h, Some(id), layer) else EntryOk(h, start, maxLevel))
            && OthersKept(g0, h, id)
  {
    var h := g[id := Node(pending, false)];
    assert id in LiveIds(h);
    forall n | IsLive(h, n) && n != id ensures IsLive(g0, n) && |h[n].connections| == |g0[n].connections| {
      assert h[n] == g[n];
    }
    forall n | n in h ensures h[n].connections != [] {
      if n != id { assert h[n] == g[n]; }
    }
  }

  lemma RelinkedSelf(g: Graph, id: Id)
    requires Targets(g, g.Keys)
    ensures forall level :: Relinked(g, g, id, level)
  {}

  lemma RelinkedLower(g0: Graph, g: Graph, id: Id, level: nat)
    requires Relinked(g0, g, id, level + 1)
    ensures Relinked(g0, g, id, level)
  {}

  lemma AddedNode(g0: Graph, g: Graph, id: Id, pending: seq<seq<Id>>, m: nat, mMax: nat)
    requires Relinked(g0, g, id, 0) && Degrees(g, m, mMax)
    requires forall l :: 0 <= l < |pending| ==>
      |pending[l]| <= Cap(m, mMax, l) && forall t :: t in pending[l] ==> t in g0
    ensures var h := g[id := Node(pending, false)];
            && Degrees(h, m, mMax) && Targets(h, h.Keys)
            && LiveIds(h) == LiveIds(g0) + {id}
            && (NoSelfEdges(g0) && id !in g0 ==> NoSelfEdges(h))
  {
    var h := g[id := Node(pending, false)];
    assert h.Keys == g0.Keys + {id};
    AddedLive(g0, g, id, pending);
    AddedNoSelf(g0, g, id, pending);
  }

  lemma AddedLive(g0: Graph, g: Graph, id: Id, pending: seq<seq<Id>>)
    requires Relinked(g0, g, id, 0)
    ensures LiveIds(g[id := Node(pending, false)]) == LiveIds(g0) + {id}
  {
    var h := g[id := Node(pending, false)];
    forall n | n in h && n != id ensures IsLive(h, n) <==> IsLive(g0, n) { assert h[n] == g[n]; }
  }

  lemma AddedNoSelf(g0: Graph, g: Graph, id: Id, pending: seq<seq<Id>>)
    requires Relinked(g0, g, id, 0)
    requires forall l, t :: 0 <= l < |pending| && t in pending[l] ==> t in g0
    ensures NoSelfEdges(g0) && id !in g0 ==> NoSelfEdges(g[id := Node(pending, false)])
  {
    var h := g[id := Node(pending, false)];
    forall n, l | NoSelfEdges(g0) && id !in g0 && n in h && 0 <= l < |h[n].connections|
      ensures n !in h[n].connections[l]
    {
      if n != id { assert h[n] == g[n]; }
    }
  }

  function NotTombstone(g: Graph): Id -> bool { (id: Id) => !IsTombstone(g, id) }

  ghost predicate Removed(g0: Graph, g: Graph, id: Id) {
    && LiveIds(g) == LiveIds(g0) - {id} && g.Keys == g0.Keys
    && forall n :: n in g ==> g[n].connections == g0[n].connections
  }

  lemma TombstonedGraph(g0: Graph, start: Option<Id>, maxLevel: int, id: Id, m: nat, mMax: nat)
    requires GraphOk(g0, start, maxLevel, m, mMax) && id in g0
    ensures var g := g0[id := g0[id].(tombstone := true)];
            && Removed(g0, g, id) && Degrees(g, m, mMax) && Targets(g, g.Keys)
            && (forall n :: n in g ==> g[n].connections != [])
            && (start != Some(id) ==> EntryOk(g, start, maxLevel))
  {
    var g := g0[id := g0[id].(tombstone := true)];
    assert g.Keys == g0.Keys;
    assert forall n :: n in g ==> g[n].connections == g0[n].connections;
    if start.Some? && start != Some(id) { assert start.value in LiveIds(g); }
    if start.None? { assert forall n :: IsLive(g, n) ==> n in LiveIds(g0); }
  }

  /**
   * At most k distinct live hits, closest first, reachable in the layer, the first of them a local optimum if the
   * width covers all live nodes.
   */
  ghost predicate HitsOk(q: Query, hits: seq<Id>, k: nat) {
    && |hits| <= k && Distinct(hits) && Ascending(hits, q.key)
    && (forall id :: id in hits ==> IsLive(q.g, id) && q.admits(id) && Reachable(q, id))
    && (k > 0 ==> hits != [])
    && (k > 0 && |LiveIds(q.g)| <= q.width ==> LocalOptimum(q, hits[0]))
  }

  /**
   * The hits are the k closest of the first ids met, as many as the beam holds; with a width of at least the
   * number of live nodes, of all ids met.
   */
  ghost predicate FirstMet(q: Query, hits: seq<Id>, k: nat) {
    exists found: seq<Id>, nearest: seq<Id> :: Discovered(q, found) && KeptSorted(q, found, nearest)
      && hits == Take(nearest, k)
  }

  ghost predicate KeptSorted(q: Query, found: seq<Id>, nearest: seq<Id>) {
    && multiset(nearest) == multiset(Take(found, q.Capacity())) && Ascending(nearest, q.key)
    && (|LiveIds(q.g)| <= q.width ==> multiset(nearest) == multiset(found))
  }

  /** A search that may only enter at one id: nothing if it is not admitted; the id itself if the width is 1. */
  lemma EntrySearch(q: Query, result: seq<Id>, found: seq<Id>, entry: Id)
    requires q.entries == [entry] || q.entries == []
    requires q.LiveEntries() <= found && (forall id :: id in found ==> Reachable(q, id))
    requires multiset(result) == multiset(Take(found, q.Capacity()))
    ensures q.entries == [] || !q.admits(entry) ==> result == []
    ensures q.entries == [entry] && q.Live(entry) ==>
      q.LiveEntries() == [entry] && q.Capacity() == if q.width > 1 then q.width else 1
    ensures q.entries == [entry] && q.Live(entry) && q.width == 1 ==> result == [entry]
  {
    var head := Take(found, q.Capacity());
    assert |result| == |multiset(result)| == |head|;
    if q.entries == [] || !q.admits(entry) {
      assert forall id :: !Reachable(q, id);
      assert forall i :: 0 <= i < |found| ==> found[i] in found;
    } else if q.Live(entry) {
      var live := (id: Id) => q.Live(id);
      assert q.entries[1..] == [] && Filter(q.entries[1..], live) == [];
      assert live(q.entries[0]) && Filter(q.entries, live) == [entry];
      if q.width == 1 {
        assert head == [entry];
        assert result[0] in multiset(result);
      }
    }
  }

  /** At most k live nodes, each once, that have a vector and whose cached metadata passes; the closest first. */
  ghost predicate Answers(g: Graph, dist: (Vec, Vec) -> real, query: Vec, vectors: map<Id, Vec>,
                          filter: Option<Conditions>, metadatas: Metas, hits: seq<Id>, k: nat) {
    && |hits| <= k && Distinct(hits)
    && (forall id :: id in hits ==> id in g && !g[id].tombstone && Passes(vectors, filter, metadatas, id))
    && forall i, j :: 0 <= i < j < |hits| ==>
         hits[i] in vectors && hits[j] in vectors && dist(query, vectors[hits[i]]) <= dist(query, vectors[hits[j]])
  }

  /** There is a vector, and no condition that cached metadata fails; an id without cached metadata passes. */
  ghost predicate Passes(vectors: map<Id, Vec>, filter: Option<Conditions>, metadatas: Metas, id: Id) {
    && id in vectors
    && (filter.Some? && id in metadatas ==>
          forall i :: 0 <= i < |filter.value| ==> Holds(filter.value[i], metadatas[id]))
  }

  /**
   * Along edges of the bottom layer, from the entry point to a live node: every id passes, removed ones too, and
   * all before the last are as close to the query as the best hit.
   */
  ghost predicate ClearPath(g: Graph, dist: (Vec, Vec) -> real, query: Vec, vectors: map<Id, Vec>,
                            filter: Option<Conditions>, metadatas: Metas, start: Id, p: seq<Id>, hits: seq<Id>) {
    && p != [] && p[0] == start && (forall i :: 0 <= i < |p| ==> Passes(vectors, filter, metadatas, p[i]))
    && (forall i :: 0 <= i < |p| - 1 ==>
          p[i] in g && |g[p[i]].connections| > 0 && p[i + 1] in g[p[i]].connections[0])
    && !(p[|p| - 1] in g && g[p[|p| - 1]].tombstone)
    && forall i :: 0 <= i < |p| - 1 && hits != [] ==>
         hits[0] in vectors && dist(query, vectors[p[i]]) <= dist(query, vectors[hits[0]])
  }

  /** The id is a hit, or there are k hits and none is farther. */
  ghost predicate Answered(dist: (Vec, Vec) -> real, query: Vec, vectors: map<Id, Vec>, hits: seq<Id>, k: nat, id: Id)
  {
    id in hits ||
    (|hits| == k && forall h :: h in hits ==>
       h in vectors && id in vectors && dist(query, vectors[h]) <= dist(query, vectors[id]))
  }

  /** A live node at the end of a clear path is a hit, unless there are k hits at least as close. */
  ghost predicate NothingMissed(g: Graph, dist: (Vec, Vec) -> real, query: Vec, vectors: map<Id, Vec>,
                                filter: Option<Conditions>, metadatas: Metas, start: Id, hits: seq<Id>, k: nat) {
    forall p :: ClearPath(g, dist, query, vectors, filter, metadatas, start, p, hits) ==>
      Answered(dist, query, vectors, hits, k, p[|p| - 1])
  }

  /** What the search of layer 0 from an admitted entry point returns. */
  ghost predicate BottomOk(g: Graph, dist: (Vec, Vec) -> real, query: Vec, vectors: map<Id, Vec>,
                           filter: Option<Conditions>, metadatas: Metas, start: Id, hits: seq<Id>, k: nat,
                           width: nat) {
    var q := QueryAt(g, dist, query, vectors, filter, metadatas, [start], width, 0);
    && HitsOk(q, hits, k) && FirstMet(q, hits, k)
    && Answers(g, dist, query, vectors, filter, metadatas, hits, k)
    && (k > 0 && |LiveIds(g)| < width ==>
          NothingMissed(g, dist, query, vectors, filter, metadatas, start, hits, k))
  }

  lemma BottomIsOk(g: Graph, dist: (Vec, Vec) -> real, query: Vec, vectors: map<Id, Vec>, filter: Option<Conditions>,
                   metadatas: Metas, q: Query, nearest: seq<Id>, found: seq<Id>, start: Id, k: nat)
    requires q == QueryAt(g, dist, query, vectors, filter, metadatas, [start], q.width, 0) && k <= q.width
    requires Targets(g, g.Keys) && start in g && q.Live(start) && Discovered(q, found) && Distinct(found)
    requires q.LiveEntries() <= found && forall id :: id in found ==> q.Live(id) && Reachable(q, id)
    requires multiset(nearest) == multiset(Take(found, q.Capacity())) && Ascending(nearest, q.key)
    requires |found| <= q.width && nearest != [] ==> LocalOptimum(q, nearest[0])
    requires |found| < q.width ==>
      forall p :: NearPath(q, p, nearest) && q.Live(p[|p| - 1]) ==> p[|p| - 1] in found && p[|p| - 1] in nearest
    ensures nearest != [] && forall id :: id in nearest ==> !IsTombstone(g, id)
    ensures BottomOk(g, dist, query, vectors, filter, metadatas, start, Take(nearest, k), k, q.width)
  {
    BottomHits(q, nearest, found, start, k);
    MetHits(q, nearest, found, k);
    HitsAnswer(g, dist, query, vectors, filter, metadatas, q, Take(nearest, k), k);
    if k > 0 && |LiveIds(g)| < q.width {
      FoundLive(q, found);
      FoundBounded(q, found);
      TakeMembers(nearest, found, q.Capacity());
      NoneMissed(g, dist, query, vectors, filter, metadatas, q, nearest, start, k);
    }
  }

  /** No tombstone is among the nearest, and an entry point that does not pass leaves nothing. */
  lemma BottomDone(g: Graph, dist: (Vec, Vec) -> real, query: Vec, vectors: map<Id, Vec>, filter: Option<Conditions>,
                   metadatas: Metas, q: Query, nearest: seq<Id>, found: seq<Id>, start: Id, k: nat)
    requires q.entries == [start] || q.entries == []
    requires Admitted(vectors, filter, metadatas, start) ==> q.entries == [start]
    requires q == QueryAt(g, dist, query, vectors, filter, metadatas, q.entries, q.width, 0) && k <= q.width
    requires Targets(g, g.Keys) && IsLive(g, start) && Discovered(q, found) && Distinct(found)
    requires q.LiveEntries() <= found && forall id :: id in found ==> q.Live(id) && Reachable(q, id)
    requires multiset(nearest) == multiset(Take(found, q.Capacity())) && Ascending(nearest, q.key)
    requires |found| <= q.width && nearest != [] ==> LocalOptimum(q, nearest[0])
    requires |found| < q.width ==>
      forall p :: NearPath(q, p, nearest) && q.Live(p[|p| - 1]) ==> p[|p| - 1] in found && p[|p| - 1] in nearest
    ensures forall id :: id in nearest ==> !IsTombstone(g, id)
    ensures !Admitted(vectors, filter, metadatas, start) ==> nearest == []
    ensures Admitted(vectors, filter, metadatas, start) ==>
      BottomOk(g, dist, query, vectors, filter, metadatas, start, Take(nearest, k), k, q.width)
  {
    EntrySearch(q, nearest, found, start);
    if Admitted(vectors, filter, metadatas, start) {
      BottomIsOk(g, dist, query, vectors, filter, metadatas, q, nearest, found, start, k);
    }
  }

  lemma HitsAnswer(g: Graph, dist: (Vec, Vec) -> real, query: Vec, vectors: map<Id, Vec>, filter: Option<Conditions>,
                   metadatas: Metas, q: Query, hits: seq<Id>, k: nat)
    requires q == QueryAt(g, dist, query, vectors, filter, metadatas, q.entries, q.width, 0) && HitsOk(q, hits, k)
    ensures Answers(g, dist, query, vectors, filter, metadatas, hits, k)
  {
    forall id | id in hits ensures id in g && !g[id].tombstone && Passes(vectors, filter, metadatas, id) {
      assert IsLive(q.g, id) && q.admits(id);
    }
    forall i, j | 0 <= i < j < |hits|
      ensures hits[i] in vectors && hits[j] in vectors
      ensures dist(query, vectors[hits[i]]) <= dist(query, vectors[hits[j]])
    {
      assert hits[i] in hits && hits[j] in hits;
      assert q.key(hits[i]) <= q.key(hits[j]);
    }
  }

  lemma ClearIsNear(g: Graph, dist: (Vec, Vec) -> real, query: Vec, vectors: map<Id, Vec>, filter: Option<Conditions>,
                    metadatas: Metas, q: Query, start: Id, p: seq<Id>, nearest: seq<Id>, hits: seq<Id>)
    requires q == QueryAt(g, dist, query, vectors, filter, metadatas, [start], q.width, 0)
    requires nearest != [] && hits != [] && hits[0] == nearest[0]
    requires ClearPath(g, dist, query, vectors, filter, metadatas, start, p, hits)
    ensures NearPath(q, p, nearest) && q.Live(p[|p| - 1])
  {
    forall i | 0 <= i < |p| ensures q.admits(p[i]) { assert Passes(vectors, filter, metadatas, p[i]); }
    forall i | 0 <= i < |p| - 1
      ensures p[i + 1] in Edges(q.g, p[i], q.level) && q.key(p[i]) <= q.key(nearest[0])
    {
      assert Passes(vectors, filter, metadatas, p[i]);
    }
  }

  lemma NoneMissed(g: Graph, dist: (Vec, Vec) -> real, query: Vec, vectors: map<Id, Vec>, filter: Option<Conditions>,
                   metadatas: Metas, q: Query, nearest: seq<Id>, start: Id, k: nat)
    requires q == QueryAt(g, dist, query, vectors, filter, metadatas, [start], q.width, 0)
    requires k > 0 && nearest != [] && Ascending(nearest, q.key) && (forall id :: id in nearest ==> q.admits(id))
    requires forall p :: NearPath(q, p, nearest) && q.Live(p[|p| - 1]) ==> p[|p| - 1] in nearest
    ensures NothingMissed(g, dist, query, vectors, filter, metadatas, start, Take(nearest, k), k)
  {
    var hits := Take(nearest, k);
    forall p | ClearPath(g, dist, query, vectors, filter, metadatas, start, p, hits)
      ensures Answered(dist, query, vectors, hits, k, p[|p| - 1])
    {
      ClearIsNear(g, dist, query, vectors, filter, metadatas, q, start, p, nearest, hits);
      InOrBehind(dist, query, vectors, q, nearest, k, p[|p| - 1]);
    }
  }

  lemma InOrBehind(dist: (Vec, Vec) -> real, query: Vec, vectors: map<Id, Vec>, q: Query, nearest: seq<Id>, k: nat,
                   id: Id)
    requires q.key == DistanceKey(dist, query, vectors) && Ascending(nearest, q.key) && id in nearest
    requires forall x :: x in nearest ==> x in vectors
    ensures Answered(dist, query, vectors, Take(nearest, k), k, id)
  {
    var i :| 0 <= i < |nearest| && nearest[i] == id;
    var hits := Take(nearest, k);
    if i < k {
      assert hits[i] == id;
    } else {
      forall h | h in hits ensures h in vectors && dist(query, vectors[h]) <= dist(query, vectors[id]) {
        var j :| 0 <= j < |hits| && hits[j] == h;
        assert nearest[j] == h && h in nearest && q.key(nearest[j]) <= q.key(nearest[i]);
      }
    }
  }

  /** Live, distinct ids cannot outnumber the live nodes. */
  lemma FoundBounded(q: Query, found: seq<Id>)
    requires Distinct(found) && forall id :: id in found ==> IsLive(q.g, id)
    ensures |found| <= |LiveIds(q.g)|
  {
    DistinctSize(found);
    SubsetSize((set id | id in found), LiveIds(q.g));
  }

  lemma FoundLive(q: Query, found: seq<Id>)
    requires Targets(q.g, q.g.Keys) && forall e :: e in q.entries ==> e in q.g
    requires forall id :: id in found ==> q.Live(id) && Reachable(q, id)
    ensures forall id :: id in found ==> IsLive(q.g, id)
  {
    forall id | id in found ensures id in q.g {
      ReachableStaysIn(q, id, q.g.Keys);
    }
  }

  lemma BottomHits(q: Query, nearest: seq<Id>, found: seq<Id>, entry: Id, k: nat)
    requires Targets(q.g, q.g.Keys) && q.entries == [entry] && entry in q.g && q.Live(entry) && k <= q.width
    requires q.LiveEntries() <= found && Distinct(found) && forall id :: id in found ==> q.Live(id) && Reachable(q, id)
    requires multiset(nearest) == multiset(Take(found, q.Capacity())) && Ascending(nearest, q.key)
    requires |found| <= q.width && nearest != [] ==> LocalOptimum(q, nearest[0])
    ensures HitsOk(q, if |nearest| > k then nearest[..k] else nearest, k)
    ensures nearest != []
    ensures forall id :: id in nearest ==> !IsTombstone(q.g, id)
  {
    EntrySearch(q, nearest, found, entry);
    FoundLive(q, found);
    TakeMembers(nearest, found, q.Capacity());
    if |LiveIds(q.g)| <= q.width { FoundBounded(q, found); }
    assert entry in Take(found, q.Capacity()) by { assert found[0] == q.LiveEntries()[0] == entry; }
    assert nearest != [] by { assert entry in nearest; }
    FrontOfHits(q, nearest, Take(nearest, k));
  }

  /** A front part of sorted, distinct hits is sorted and distinct. */
  lemma FrontOfHits(q: Query, nearest: seq<Id>, hits: seq<Id>)
    requires hits <= nearest && Distinct(nearest) && Ascending(nearest, q.key)
    ensures Distinct(hits) && Ascending(hits, q.key) && forall id :: id in hits ==> id in nearest
  {
    forall i, j | 0 <= i < j < |hits| ensures hits[i] != hits[j] && q.key(hits[i]) <= q.key(hits[j]) {
      assert hits[i] == nearest[i] && hits[j] == nearest[j];
    }
  }

  lemma MetHits(q: Query, nearest: seq<Id>, found: seq<Id>, k: nat)
    requires Targets(q.g, q.g.Keys) && (forall e :: e in q.entries ==> e in q.g)
    requires Discovered(q, found) && Distinct(found)
    requires forall id :: id in found ==> q.Live(id) && Reachable(q, id)
    requires multiset(nearest) == multiset(Take(found, q.Capacity())) && Ascending(nearest, q.key)
    ensures FirstMet(q, if |nearest| > k then nearest[..k] else nearest, k)
  {
    FoundLive(q, found);
    if |LiveIds(q.g)| <= q.width {
      FoundBounded(q, found);
      assert Take(found, q.Capacity()) == found;
    }
    assert KeptSorted(q, found, nearest);
    assert Take(nearest, k) == if |nearest| > k then nearest[..k] else nearest;
  }
}
