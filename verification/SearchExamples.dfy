/** Concrete inputs on which the search structures and the codecs fall short of what one would expect. */
module SearchExamples {
  import opened Types
  import opened Ranking
  import opened Filters
  import Engine = Search
  import KMeans
  import Ivf
  import opened LayerSearch
  import opened Hnsw
  import Scalar = ScalarQuantization
  import Product = ProductQuantization

  // ----- a closer neighbour that the beam never takes

  /** Entry 1 with two neighbours, farther from the query than both, and the last of them the closest. */
  function Fork(): Query {
    Query(map[1 := Node([[2, 3]], false), 2 := Node([[]], false), 3 := Node([[]], false)], 0,
          (id: Id) => if id == 1 then 3.0 else if id == 2 then 2.0 else 1.0, (id: Id) => true, [1], 2)
  }

  lemma ForkStart()
    ensures Start(Fork()) == Trail(Beam({1}, [1], [1]), [1])
  {
    var q := Fork();
    var one: seq<Id> := [1];
    var live := (id: Id) => q.Live(id);
    assert one[1..] == [] && q.admits(one[0]) && live(one[0]);
    assert Filter(one[1..], q.admits) == [] && Filter(one[1..], live) == [];
    assert Filter(one, q.admits) == one && Filter(one, live) == one;
    assert (set e | e in q.entries && q.admits(e)) == {1};
  }

  lemma ForkStep()
    ensures Step(Fork(), Start(Fork()), 0).found == [1, 2, 3]
  {
    var q := Fork();
    ForkStart();
    var t := Trail(Beam({1}, [], [1]), [1]);
    assert Without([1], 0) == [];
    assert Edges(q.g, 1, 0) == [2, 3];
    var t2 := Look(q, t, 2);
    assert t2.found == [1, 2] && t2.beam.visited == {1, 2};
    var t3 := Look(q, t2, 3);
    assert t3.found == [1, 2, 3];
    assert LookAll(q, t, [2, 3], 0) == LookAll(q, t2, [2, 3], 1) == LookAll(q, t3, [2, 3], 2) == t3;
  }

  /** Whatever order the queue takes its candidates in, 2 is met before 3. */
  lemma ForkDiscovers(found: seq<Id>)
    requires Discovered(Fork(), found)
    ensures [1, 2, 3] <= found
  {
    var q := Fork();
    var picks :| Legal(q, picks) && Stopped(q, Walked(q, picks).beam) && Walked(q, picks).found == found;
    ForkStart();
    assert 1 in Start(q).beam.candidates && !Beyond(q, Start(q).beam, 1);
    assert picks != [];
    FirstPick(q, picks);
    assert picks[..1] == [picks[0]] && [picks[0]][..0] == [];
    assert picks[0] == 0;
    ForkStep();
  }

  /** The closest live id is the entry point's neighbour, and is not returned. */
  method CloserNeighbourIsLost() returns (result: seq<Id>)
    ensures |result| == 2 && 3 !in result && Fork().Live(3) && 3 in Edges(Fork().g, 1, 0)
    ensures forall id :: id in result ==> Fork().key(3) < Fork().key(id)
  {
    ghost var found;
    result, found := SearchLayer(Fork());
    ForkKeeps(found, result);
  }

  lemma ForkKeeps(found: seq<Id>, result: seq<Id>)
    requires Discovered(Fork(), found) && multiset(result) == multiset(Take(found, Fork().Capacity()))
    ensures |result| == 2 && forall id :: id in result ==> id == 1 || id == 2
  {
    ForkDiscovers(found);
    ForkStart();
    var head := Take(found, 2);
    assert head == [1, 2] && Fork().Capacity() == 2;
    assert |result| == |multiset(result)| == |head|;
    forall id | id in result ensures id in head { assert id in multiset(result); }
  }

  // ----- a live node behind a removed one

  /** Positions on a line; 2 has been removed, and 3 can only be reached through it. */
  function Bridge(): Query {
    Query(map[1 := Node([[4, 2]], false), 2 := Node([[1, 3]], true), 3 := Node([[2, 1]], false),
              4 := Node([[1, 2]], false)], 0,
          (id: Id) => if id == 1 then 60.0 else if id == 2 then 40.0 else if id == 3 then 20.0 else 62.0,
          (id: Id) => id <= 4, [1], 4)
  }

  lemma BridgeEdges()
    ensures Edges(Bridge().g, 1, 0) == [4, 2] && Edges(Bridge().g, 2, 0) == [1, 3]
    ensures Edges(Bridge().g, 3, 0) == [2, 1] && Edges(Bridge().g, 4, 0) == [1, 2]
  {}

  /** Everything that can be reached lies among the four nodes. */
  lemma BridgeStays(id: Id)
    requires Reachable(Bridge(), id)
    ensures id == 1 || id == 2 || id == 3 || id == 4
  {
    BridgeEdges();
    ReachableStaysIn(Bridge(), id, {1, 2, 3, 4});
  }

  /** The removed node carries the search on: the closest live node comes first. */
  method RemovedNodeIsCrossed() returns (result: seq<Id>)
    ensures result != [] && result[0] == 3
  {
    ghost var found;
    result, found := SearchLayer(Bridge());
    BridgeFound(found, result);
  }

  lemma BridgeFound(found: seq<Id>, result: seq<Id>)
    requires Distinct(found) && Bridge().LiveEntries() <= found
    requires forall id :: id in found ==> Bridge().Live(id) && Reachable(Bridge(), id)
    requires multiset(result) == multiset(Take(found, Bridge().Capacity())) && Ascending(result, Bridge().key)
    requires |found| < Bridge().width ==>
      forall p :: NearPath(Bridge(), p, result) && Bridge().Live(p[|p| - 1]) ==>
        p[|p| - 1] in found && p[|p| - 1] in result
    ensures result != [] && result[0] == 3
  {
    BridgeFew(found);
    TakeMembers(result, found, Bridge().Capacity());
    forall id | id in result ensures id == 1 || id == 3 || id == 4 { assert id in found; }
    PathsMatter(result);
  }

  lemma BridgeFew(found: seq<Id>)
    requires Distinct(found) && forall id :: id in found ==> Bridge().Live(id) && Reachable(Bridge(), id)
    ensures |found| < 4 && forall id :: id in found ==> id == 1 || id == 3 || id == 4
  {
    forall id | id in found ensures id == 1 || id == 3 || id == 4 { BridgeStays(id); }
    AtMost(found, {1, 3, 4});
  }

  lemma AtMost(list: seq<Id>, ids: set<Id>)
    requires Distinct(list) && forall id :: id in list ==> id in ids
    ensures |list| <= |ids|
  {
    DistinctSize(list);
    SubsetSize((set id | id in list), ids);
  }

  lemma PathsMatter(result: seq<Id>)
    requires Ascending(result, Bridge().key) && forall id :: id in result ==> id == 1 || id == 3 || id == 4
    requires forall p :: NearPath(Bridge(), p, result) && Bridge().Live(p[|p| - 1]) ==> p[|p| - 1] in result
    ensures result != [] && result[0] == 3
  {
    var q := Bridge();
    var one: seq<Id> := [1];
    var p: seq<Id> := [1, 2, 3];
    assert NearPath(q, one, result) && q.Live(one[|one| - 1]);
    assert one[|one| - 1] in result;
    assert result[0] in result;
    if result[0] == 1 || result[0] == 4 {
      BridgePath(result);
      assert NearPath(q, p, result) && q.Live(p[|p| - 1]);
    }
    assert 3 in result;
    var i :| 0 <= i < |result| && result[i] == 3;
    assert q.key(result[0]) <= q.key(result[i]);
  }

  lemma BridgePath(result: seq<Id>)
    requires result != [] && (result[0] == 1 || result[0] == 4)
    ensures NearPath(Bridge(), [1, 2, 3], result)
  {
    var p: seq<Id> := [1, 2, 3];
    BridgeEdges();
    assert p[0 + 1] in Edges(Bridge().g, p[0], 0) && p[1 + 1] in Edges(Bridge().g, p[1], 0);
  }

  // ----- a new node with a nearby neighbour that has room

  function Line(): (Vec, Vec) -> real {
    (a: Vec, b: Vec) => if |a| == |b| == 1 then if a[0] < b[0] then b[0] - a[0] else a[0] - b[0] else 0.0
  }

  function Positions(): map<Id, Vec> { map[1 := [0.0], 2 := [90.0], 3 := [10.0]] }

  function Inserting(id: Id): Linking { Linking(id, Line(), Positions(), 4, 4) }

  /** In a small graph the entry point is among the neighbours of every new node. */
  lemma EntryIsLinked(k: Linking, g0: Graph, vector: Vec, lists: seq<seq<Id>>, entry: Id)
    requires k.m == 4 && k.mMax == 4 && |g0.Keys| <= 4 && |lists| == 1 && entry in g0 && !g0[entry].tombstone
    requires entry in k.vectors && NewLists(k, g0, vector, 8, lists, [entry])
    ensures entry in lists[0]
  {
    var hits :| Chosen(k, g0, vector, 8, lists, hits, 0) && hits[|lists|] == [entry];
    assert ChosenAt(k, g0, vector, 8, hits[0 + 1], hits[0], lists[0], 0);
    var q := QueryAt(g0, k.dist, vector, k.vectors, None, map[], [entry], 8, 0);
    AtMost(hits[0], g0.Keys);
    var p: seq<Id> := [entry];
    assert NearPath(q, p, hits[0]) && q.Live(p[|p| - 1]);
  }

  /** The third node is linked from the first, whose list has room, and is found through it. */
  method NewNodeIsFound() returns (r: Result<seq<Id>, Engine.SearchError>)
    ensures r == Ok([3])
  {
    ghost var none: seq<Id> := [];
    assert none + [2] == [2] && [2] + [3] == [2, 3] && {1} + {2} == {1, 2} && {1, 2} + {3} == {1, 2, 3};
    var index := InsertFirst();
    InsertNext(index, 2, {1}, none);
    InsertNext(index, 3, {1, 2}, [2]);
    r := index.Search([10.0], 1, 8, Positions(), None, map[]);
    LineAnswer(index.nodes, r.value);
  }

  method InsertFirst() returns (index: HnswIndex)
    ensures fresh(index) && index.Valid() && index.dist == Line()
    ensures index.m == 4 && index.mMax == 4 && index.efConstruction == 8
    ensures index.start == Some(1) && index.maxLevel == 0 && LiveIds(index.nodes) == {1} == index.nodes.Keys
    ensures index.nodes[1].connections == [[]]
  {
    index := new HnswIndex(4, 4, 8, Line());
    index.Insert(1, [0.0], Positions(), 0);
    assert 1 in LiveIds(index.nodes);
  }

  method InsertNext(index: HnswIndex, id: Id, ghost live: set<Id>, ghost links: seq<Id>)
    requires index.Valid() && index.dist == Line() && index.m == 4 && index.mMax == 4 && index.efConstruction == 8
    requires index.start == Some(1) && index.maxLevel == 0 && LiveIds(index.nodes) == live == index.nodes.Keys
    requires 1 in live && |live| <= 4 && |links| < 4 && index.nodes[1].connections == [links]
    requires id !in live && id in Positions()
    modifies index
    ensures index.Valid() && index.start == Some(1) && index.maxLevel == 0
    ensures LiveIds(index.nodes) == live + {id} == index.nodes.Keys
    ensures index.nodes[1].connections == [links + [id]]
  {
    ghost var g0 := index.nodes;
    index.Insert(id, Positions()[id], Positions(), 0);
    assert !g0[1].tombstone by { assert 1 in LiveIds(g0); }
    EntryIsLinked(Inserting(id), g0, Positions()[id], index.nodes[id].connections, 1);
    LinkedFromFirst(g0, index.nodes, id, links);
  }

  lemma LinkedFromFirst(g0: Graph, g: Graph, id: Id, links: seq<Id>)
    requires 1 in g0 && id != 1 && Linked(Inserting(id), g0, g) && OthersKept(g0, g, id)
    requires g0[1].connections == [links] && |links| < 4
    requires |g[id].connections| == 1 && 1 in g[id].connections[0]
    ensures g[1].connections == [links + [id]]
  {
    var list := g[id].connections[0];
    FirstsHave(list, |list|);
    assert LayerLinked(Inserting(id), g0, g, 0, NeighborsAt(g[id].connections, 0));
  }

  lemma LineAnswer(g: Graph, hits: seq<Id>)
    requires g.Keys == {1, 2, 3} == LiveIds(g) && g[1].connections == [[2, 3]]
    requires hits != [] && Answers(g, Line(), [10.0], Positions(), None, map[], hits, 1)
    requires NothingMissed(g, Line(), [10.0], Positions(), None, map[], 1, hits, 1)
    ensures hits == [3]
  {
    var p: seq<Id> := [1, 3];
    assert hits[0] in hits;
    assert 3 in LiveIds(g);
    assert p[|p| - 1] == 3 && (hits[0] != 3 ==> ClearPath(g, Line(), [10.0], Positions(), None, map[], 1, p, hits));
    EndIsAnswered(g, hits, p);
  }

  lemma EndIsAnswered(g: Graph, hits: seq<Id>, p: seq<Id>)
    requires p != [] && NothingMissed(g, Line(), [10.0], Positions(), None, map[], 1, hits, 1)
    ensures ClearPath(g, Line(), [10.0], Positions(), None, map[], 1, p, hits) ==>
      Answered(Line(), [10.0], Positions(), hits, 1, p[|p| - 1])
  {}

  // ----- a filter that the entry point fails

  const KIND_B := [Eq("kind", Text("b"))]

  function Kinds(): Metas { map[1 := map["kind" := Text("a")], 2 := map["kind" := Text("b")]] }

  method TwoNodes(vectors: map<Id, Vec>) returns (index: HnswIndex)
    ensures index.Valid() && LiveIds(index.nodes) == {1, 2} && index.start == Some(1)
  {
    index := new HnswIndex(2, 4, 8, (a: Vec, b: Vec) => 0.0);
    index.Insert(1, [0.0], vectors, 0);
    assert LiveIds(index.nodes) == {1} && index.start == Some(1) && index.maxLevel == 0;
    index.Insert(2, [1.0], vectors, 0);
  }

  /** Node 2 is live and passes the filter, but the search enters at node 1, which does not. */
  method FilteredEntryHidesAll() returns (r: Result<seq<Id>, Engine.SearchError>, live: set<Id>)
    ensures r == Ok([]) && live == {1, 2} && Matches(KIND_B, Kinds()[2])
  {
    var vectors := map[1 := [0.0], 2 := [1.0]];
    var index := TwoNodes(vectors);
    live := LiveIds(index.nodes);
    assert !Holds(KIND_B[0], Kinds()[1]);
    r := index.Search([1.0], 1, 8, vectors, Some(KIND_B), Kinds());
  }

  // ----- centroids that move, and the list that is probed

  function Apart(x: real, y: real): real { if x < y then y - x else x - y }

  /** The Euclidean similarity on a line. */
  function Near(): Score { (a: Vec, b: Vec) => if |a| == |b| == 1 then 1.0 / (1.0 + Apart(a[0], b[0])) else 0.0 }

  lemma CloserScoresHigher(x: real, y: real)
    requires x >= 0.0 && y >= 0.0
    ensures 1.0 / (1.0 + x) <= 1.0 / (1.0 + y) <==> y <= x
  {
    var p, q := 1.0 / (1.0 + x), 1.0 / (1.0 + y);
    Quotient(1.0, 1.0 + x);
    Quotient(1.0, 1.0 + y);
    assert p > 0.0 && q > 0.0;
    assert (1.0 + x) * p == 1.0 && (1.0 + y) * q == 1.0;
    Reciprocals(1.0 + x, 1.0 + y, p, q);
  }

  lemma Reciprocals(a: real, b: real, p: real, q: real)
    requires p > 0.0 && q > 0.0 && a * p == 1.0 && b * q == 1.0
    ensures p <= q <==> b <= a
  {
    var c := p * q;
    assert q == q * (a * p) == c * a;
    assert p == p * (b * q) == c * b;
    Scaled(c, b, a);
  }

  lemma Scaled(c: real, x: real, y: real)
    requires c > 0.0
    ensures c * x <= c * y <==> x <= y
  {
    if x <= y { assert c * (y - x) >= 0.0; } else { assert c * (x - y) > 0.0; }
  }

  lemma NearestOfTwo(v: real, a: real, b: real)
    ensures KMeans.Nearest(Near(), [v], [[a], [b]]) == if Apart(v, b) <= Apart(v, a) then 1 else 0
  {
    CloserScoresHigher(Apart(v, a), Apart(v, b));
    var cs: seq<Vec> := [[a], [b]];
    assert KMeans.NearestOf(Near(), [v], cs, 1) == 0;
    assert cs[0] == [a] && cs[1] == [b];
  }

  const POINTS: seq<Vec> := [[0.0], [1.0], [10.0]]

  function Sides(second: nat): seq<nat> { [0, second, 1] }

  /** 0 and 10 lie on either side, and 1 goes where it is closer. */
  lemma PointsAssigned(a: real, b: real)
    requires Apart(0.0, a) < Apart(0.0, b) && Apart(10.0, b) < Apart(10.0, a)
    ensures KMeans.Assign(Near(), POINTS, [[a], [b]]) == Sides(if Apart(1.0, b) <= Apart(1.0, a) then 1 else 0)
  {
    NearestOfTwo(0.0, a, b);
    NearestOfTwo(1.0, a, b);
    NearestOfTwo(10.0, a, b);
  }

  lemma GroupsOfPoints(second: nat)
    requires second <= 1
    ensures KMeans.Members(POINTS, Sides(second), 0) == if second == 0 then [[0.0], [1.0]] else [[0.0]]
    ensures KMeans.Members(POINTS, Sides(second), 1) == if second == 0 then [[10.0]] else [[1.0], [10.0]]
  {
    var a := Sides(second);
    assert KMeans.MembersOf(POINTS, a, 0, 0) == [] && KMeans.MembersOf(POINTS, a, 1, 0) == [];
    assert KMeans.MembersOf(POINTS, a, 0, 1) == [[0.0]] && KMeans.MembersOf(POINTS, a, 1, 1) == [];
    assert KMeans.MembersOf(POINTS, a, 0, 2) == if second == 0 then [[0.0], [1.0]] else [[0.0]];
    assert KMeans.MembersOf(POINTS, a, 1, 2) == if second == 0 then [] else [[1.0]];
  }

  lemma MeanOfOne(x: real)
    ensures KMeans.Mean([[x]], 1) == [x]
  {
    assert [[x]][1..] == [];
    assert KMeans.ColSum([[x]], 0) == x;
    assert KMeans.Mean([[x]], 1)[0] == x / 1.0;
  }

  lemma MeanOfTwo(x: real, y: real)
    ensures KMeans.Mean([[x], [y]], 1) == [(x + y) / 2.0]
  {
    var both: seq<Vec> := [[x], [y]];
    var one: seq<Vec> := [[y]];
    assert both[1..] == one && one[1..] == [];
    assert KMeans.ColSum(one, 0) == y && KMeans.ColSum(both, 0) == both[0][0] + KMeans.ColSum(both[1..], 0);
    assert KMeans.Mean(both, 1)[0] == (x + y) / 2.0;
  }

  /** One round from any two centroids on either side. */
  lemma RoundOfPoints(a: real, b: real)
    requires Apart(0.0, a) < Apart(0.0, b) && Apart(10.0, b) < Apart(10.0, a)
    ensures var next := KMeans.Round(Near(), POINTS, [[a], [b]], 1);
            next == if Apart(1.0, b) <= Apart(1.0, a) then [[0.0], [5.5]] else [[0.5], [10.0]]
  {
    var cs: seq<Vec> := [[a], [b]];
    var second := if Apart(1.0, b) <= Apart(1.0, a) then 1 else 0;
    PointsAssigned(a, b);
    GroupsOfPoints(second);
    KMeans.MovedAt(POINTS, Sides(second), cs, 1, 2, 0);
    KMeans.MovedAt(POINTS, Sides(second), cs, 1, 2, 1);
    MeanOfOne(0.0);
    MeanOfOne(10.0);
    MeanOfTwo(0.0, 1.0);
    MeanOfTwo(1.0, 10.0);
  }

  /** A centroid with members that moved far keeps the iteration going. */
  lemma StillMoving(cs: seq<Vec>, next: seq<Vec>, a: seq<nat>, k: nat)
    requires |cs| == |next| == 2 && |a| == 3 && k < 2 && KMeans.Members(POINTS, a, k) != []
    requires Near()(cs[k], next[k]) < 0.99
    ensures !KMeans.Settled(Near(), POINTS, a, cs, next)
  {}

  /** A round that moves the second centroid, then one that moves the first. */
  lemma PointsMove(fuel: nat)
    requires fuel > 1
    ensures KMeans.Iterate(Near(), POINTS, [[0.0], [1.0]], 1, fuel)
      == KMeans.Iterate(Near(), POINTS, [[0.0], [5.5]], 1, fuel - 1)
    ensures KMeans.Iterate(Near(), POINTS, [[0.0], [5.5]], 1, fuel)
      == KMeans.Iterate(Near(), POINTS, [[0.5], [10.0]], 1, fuel - 1)
  {
    MovesOn(1.0, [[0.0], [5.5]], 1, fuel);
    MovesOn(5.5, [[0.5], [10.0]], 0, fuel);
  }

  lemma MovesOn(b: real, next: seq<Vec>, k: nat, fuel: nat)
    requires fuel > 0
    requires (b == 1.0 && next == [[0.0], [5.5]] && k == 1) || (b == 5.5 && next == [[0.5], [10.0]] && k == 0)
    ensures KMeans.Iterate(Near(), POINTS, [[0.0], [b]], 1, fuel) == KMeans.Iterate(Near(), POINTS, next, 1, fuel - 1)
  {
    RoundOfPoints(0.0, b);
    PointsAssigned(0.0, b);
    GroupsOfPoints(k);
    var cs: seq<Vec> := [[0.0], [b]];
    StillMoving(cs, next, Sides(k), k);
    var n, last := KMeans.IterateStep(Near(), POINTS, cs, 1, fuel);
  }

  /** Two rounds move the centroids from the first two points to the means, and a third changes nothing. */
  lemma PointsSettle(fuel: nat)
    requires fuel == 3
    ensures KMeans.Iterate(Near(), POINTS, [[0.0], [1.0]], 1, fuel) == [[0.5], [10.0]]
  {
    PointsMove(fuel);
    PointsMove(fuel - 1);
    MeansStay(fuel - 2);
  }

  lemma {:induction false} MeansStay(fuel: nat)
    ensures KMeans.Iterate(Near(), POINTS, [[0.5], [10.0]], 1, fuel) == [[0.5], [10.0]]
  {
    if fuel > 0 {
      MeansStay(fuel - 1);
      RoundOfPoints(0.5, 10.0);
      var n, last := KMeans.IterateStep(Near(), POINTS, [[0.5], [10.0]], 1, fuel);
    }
  }

  function Points(): map<Id, Vec> { map[1 := [0.0], 2 := [1.0], 3 := [10.0]] }

  /** The first two points end in one list, and the list nearest to the query is the one searched. */
  method ClustersMove() returns (centroids: seq<Vec>, r: Result<seq<Id>, Engine.SearchError>)
    ensures centroids == [[0.5], [10.0]]
    ensures r.Ok? && |r.value| == 2 && 1 in r.value && 2 in r.value
  {
    var index := ClusterPoints();
    centroids := index.centroids;
    ghost var visit;
    r, visit := index.Search([0.4], 2, Points(), 1);
    PointsFiled(index.lists, index.cluster, visit, r.value);
  }

  method ClusterPoints() returns (index: Ivf.IvfIndex)
    ensures index.centroids == [[0.5], [10.0]] && index.score == Near()
    ensures Ivf.Partition(Near(), Points(), index.centroids, index.lists, index.cluster)
  {
    index := new Ivf.IvfIndex(2, 3, Near());
    var order: seq<Id> := [1, 2, 3];
    PointsGathered(order);
    index.BuildClusters(Points(), order, 1);
  }

  lemma PointsGathered(order: seq<Id>)
    requires order == [1, 2, 3]
    ensures Enumerates(order, Points().Keys) && Ivf.AllDim(Points(), 1)
    ensures var vs := Ivf.Gather(order, Points());
            var start := Take(vs, 2);
            && KMeans.SameDim(vs, 1) && KMeans.SameDim(start, 1)
            && KMeans.Iterate(Near(), vs, start, 1, 3) == [[0.5], [10.0]]
  {
    PointsInOrder(order);
    PointsSettle(3);
  }

  lemma PointsInOrder(order: seq<Id>)
    requires order == [1, 2, 3]
    ensures Enumerates(order, Points().Keys) && Ivf.AllDim(Points(), 1)
    ensures Ivf.Gather(order, Points()) == POINTS && Take(POINTS, 2) == [[0.0], [1.0]]
  {
    assert Points().Keys == {1, 2, 3};
  }

  /** 1 and 2 are filed under the first centroid, 3 under the second, and the first is the one nearer to 0.4. */
  lemma PointsFiled(lists: seq<seq<Id>>, cluster: map<Id, nat>, visit: seq<nat>, hits: seq<Id>)
    requires Ivf.Partition(Near(), Points(), [[0.5], [10.0]], lists, cluster)
    requires |visit| == 1 && visit[0] < 2
    requires forall c': nat :: c' < 2 && c' !in visit ==>
      Near()([0.4], [[0.5], [10.0]][visit[0]]) >= Near()([0.4], [[0.5], [10.0]][c'])
    requires var found := Ivf.Candidates(lists, visit);
             && Distinct(found) && (forall id :: id in found <==> id in cluster && cluster[id] in visit)
             && |hits| == (if 2 < |found| then 2 else |found|) && multiset(hits) <= multiset(found)
    ensures |hits| == 2 && 1 in hits && 2 in hits
  {
    var cs: seq<Vec> := [[0.5], [10.0]];
    KMeans.ClosestIff(Near(), [0.0], cs, cluster[1]);
    KMeans.ClosestIff(Near(), [1.0], cs, cluster[2]);
    KMeans.ClosestIff(Near(), [10.0], cs, cluster[3]);
    NearestOfTwo(0.0, 0.5, 10.0);
    NearestOfTwo(1.0, 0.5, 10.0);
    NearestOfTwo(10.0, 0.5, 10.0);
    assert cluster[1] == 0 && cluster[2] == 0 && cluster[3] == 1;
    CloserScoresHigher(Apart(0.4, 0.5), Apart(0.4, 10.0));
    assert visit == [0];
    var found := Ivf.Candidates(lists, visit);
    TwoMembers(found, hits);
  }

  lemma TwoMembers(found: seq<Id>, hits: seq<Id>)
    requires Distinct(found) && forall id :: id in found <==> id == 1 || id == 2
    requires |hits| == (if 2 < |found| then 2 else |found|) && multiset(hits) <= multiset(found)
    ensures |hits| == 2 && 1 in hits && 2 in hits
  {
    AtMost(found, {1, 2});
    assert 1 in found && 2 in found;
    var i :| 0 <= i < |found| && found[i] == 1;
    var j :| 0 <= j < |found| && found[j] == 2;
    assert i != j && |found| == 2;
    assert multiset(found) == multiset{1, 2} by {
      if i == 0 { assert found == [1, 2]; } else { assert found == [2, 1]; }
    }
    SameSizeSame(hits, found);
    assert 1 in multiset(hits) && 2 in multiset(hits);
  }

  // ----- a repeated insert into IVF

  function Closeness(): Score { (a: Vec, b: Vec) => if a == b then 1.0 else 0.0 }

  /** Id 1 keeps its old list although its new vector belongs to the other centroid. */
  lemma ReinsertedIdStaysBehind()
    ensures var vecs, centroids := map[1 := [0.0], 2 := [9.0]], [[0.0], [9.0]];
            var lists, cluster := [[1], [2]], map[1 := 0, 2 := 1];
            && Ivf.Partition(Closeness(), vecs, centroids, lists, cluster)
            && !Ivf.Partition(Closeness(), vecs[1 := [9.0]], centroids, lists, cluster)
  {
    var vecs, centroids := map[1 := [0.0], 2 := [9.0]], [[0.0], [9.0]];
    var lists, cluster := [[1], [2]], map[1 := 0, 2 := 1];
    assert [0.0][0] != [9.0][0];
    assert KMeans.Nearest(Closeness(), [0.0], centroids) == 0 by {
      assert KMeans.NearestOf(Closeness(), [0.0], centroids, 1) == 0;
    }
    assert KMeans.Nearest(Closeness(), [9.0], centroids) == 1 by {
      assert KMeans.NearestOf(Closeness(), [9.0], centroids, 1) == 0;
    }
    assert Ivf.Filed(lists, cluster);
    Ivf.RepeatedInsertIff(Closeness(), vecs, centroids, lists, cluster, 1, [9.0]);
  }

  // ----- codecs

  /** A positive spread below the epsilon is lost by the first encoding, so the second one differs. */
  lemma NarrowVectorReencodesDifferently()
    ensures var v := [0.0, Scalar.EPSILON / 2.0];
            Scalar.Encode(Scalar.Decode(Scalar.Encode(v))) != Scalar.Encode(v)
  {
    var v := [0.0, Scalar.EPSILON / 2.0];
    Scalar.ReencodeIff(v);
    assert Scalar.MaxOf(v) >= v[1] && Scalar.MinOf(v) <= v[0];
    assert Scalar.MaxOf(v) <= Scalar.EPSILON / 2.0 && Scalar.MinOf(v) >= 0.0;
  }

  /** Five components in four blocks: blocks of two cover the vector with three, and the fourth has no extremes. */
  method FiveInFourBlocks(v: Vec) returns (r: Result<Vec, Product.DecodeError>)
    requires |v| == 5
    ensures r == Err(Product.ShortMetadata)
  {
    assert Product.Blocks(4, 5) == 4 && Product.DivCeil(5, 4) == 2;
    r := Product.RoundTrip(v, 4);
  }
}
