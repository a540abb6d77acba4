/**
 * The best-first search within one layer of the HNSW graph, with its two heaps.
 *
 * Both heaps use the same reversed order, so `peek` and `pop` give the closest element of either one.
 */
module LayerSearch {
  import opened Types
  import opened Ranking

  datatype Node = Node(connections: seq<seq<Id>>, tombstone: bool)

  type Graph = map<Id, Node>

  predicate IsTombstone(g: Graph, id: Id) { id in g && g[id].tombstone }

  function Edges(g: Graph, id: Id, level: nat): seq<Id> {
    if id in g && level < |g[id].connections| then g[id].connections[level] else []
  }

  /** One layer search: distances to the query, what the reader and the filter admit, and the beam width. */
  datatype Query = Query(g: Graph, level: nat, key: Id -> real, admits: Id -> bool, entries: seq<Id>, width: nat) {
    predicate Live(id: Id) { admits(id) && !IsTombstone(g, id) }

    function LiveEntries(): seq<Id> { Filter(entries, (id: Id) => Live(id)) }

    /** The beam holds this many elements at most. */
    function Capacity(): nat { if |LiveEntries()| > width then |LiveEntries()| else width }
  }

  // ----- reachability along the edges of one layer

  ghost predicate IsPath(g: Graph, level: nat, p: seq<Id>) {
    p != [] && forall i :: 0 <= i < |p| - 1 ==> p[i + 1] in Edges(g, p[i], level)
  }

  /** A path from an admitted entry point leads to the id. */
  ghost predicate Reachable(q: Query, id: Id) {
    exists p :: IsPath(q.g, q.level, p) && p[0] in q.entries && q.admits(p[0]) && p[|p| - 1] == id
  }

  lemma EntryReachable(q: Query, id: Id)
    requires id in q.entries && q.admits(id)
    ensures Reachable(q, id)
  {
    assert IsPath(q.g, q.level, [id]);
  }

  lemma StepReachable(q: Query, id: Id, next: Id)
    requires Reachable(q, id) && next in Edges(q.g, id, q.level)
    ensures Reachable(q, next)
  {
    var p :| IsPath(q.g, q.level, p) && p[0] in q.entries && q.admits(p[0]) && p[|p| - 1] == id;
    assert IsPath(q.g, q.level, p + [next]);
  }

  /** Whatever contains the entries and is closed under the layer's edges contains all that is reachable. */
  lemma {:induction false} PathStaysIn(g: Graph, level: nat, p: seq<Id>, s: set<Id>)
    requires IsPath(g, level, p) && p[0] in s
    requires forall id, t :: id in s && t in Edges(g, id, level) ==> t in s
    ensures p[|p| - 1] in s
    decreases |p|
  {
    if |p| > 1 {
      assert IsPath(g, level, p[1..]) by {
        forall i | 0 <= i < |p[1..]| - 1 ensures p[1..][i + 1] in Edges(g, p[1..][i], level) {
          assert p[i + 2] in Edges(g, p[i + 1], level);
        }
      }
      assert p[0 + 1] in Edges(g, p[0], level);
      PathStaysIn(g, level, p[1..], s);
    }
  }

  lemma ReachableStaysIn(q: Query, id: Id, s: set<Id>)
    requires Reachable(q, id) && forall e :: e in q.entries ==> e in s
    requires forall i, t :: i in s && t in Edges(q.g, i, q.level) ==> t in s
    ensures id in s
  {
    var p :| IsPath(q.g, q.level, p) && p[0] in q.entries && q.admits(p[0]) && p[|p| - 1] == id;
    PathStaysIn(q.g, q.level, p, s);
  }

  /** A path of admitted ids, dead or alive, on which every id before the last is as close as the closest result. */
  ghost predicate NearPath(q: Query, p: seq<Id>, result: seq<Id>) {
    && IsPath(q.g, q.level, p) && p[0] in q.entries && (forall i :: 0 <= i < |p| ==> q.admits(p[i]))
    && (result != [] ==> forall i :: 0 <= i < |p| - 1 ==> q.key(p[i]) <= q.key(result[0]))
  }

  /**
   * Every id met after the entry points was met from an admitted id no farther than all that the beam held by then:
   * `n` ids had been met, and those from there on are neighbours of it too.
   */
  ghost predicate MetAtClosest(q: Query, found: seq<Id>) {
    forall i :: |q.LiveEntries()| <= i < |found| ==> MetAt(q, found, i)
  }

  ghost predicate MetAt(q: Query, found: seq<Id>, i: nat)
    requires i < |found|
  {
    exists x, n :: MetFrom(q, found, i, x, n)
  }

  ghost predicate MetFrom(q: Query, found: seq<Id>, i: nat, x: Id, n: nat)
    requires i < |found|
  {
    && |q.LiveEntries()| <= n <= i && q.admits(x) && Reachable(q, x)
    && (forall j :: n <= j <= i ==> found[j] in Edges(q.g, x, q.level))
    && forall j :: 0 <= j < n && j < q.Capacity() ==> q.key(x) <= q.key(found[j])
  }

  // ----- the state of the search

  datatype Beam = Beam(visited: set<Id>, candidates: seq<Id>, nearest: seq<Id>)

  /**
   * `found` lists the live, admitted ids in the order of their discovery: the beam is a prefix of it.
   * `done` are the ids whose candidate has been taken off the queue.
   */
  ghost predicate BeamOk(q: Query, b: Beam, found: seq<Id>, done: set<Id>) {
    && b.nearest == Take(found, q.Capacity())
    && Distinct(found) && q.LiveEntries() <= found
    && (forall id :: id in found ==> q.Live(id) && id in b.visited)
    && (forall id {:trigger Reachable(q, id)} :: id in b.visited ==> Reachable(q, id))
    && (forall id {:trigger q.Live(id)} :: id in b.visited && q.Live(id) ==> id in found)
    && (forall id :: id in b.candidates ==> id in b.visited && q.admits(id))
    && (|found| <= q.width ==> forall id :: id in found ==> id in b.candidates || id in done)
  }

  /** Every edge of an expanded id leads to a visited id. */
  ghost predicate Expanded(q: Query, visited: set<Id>, expanded: set<Id>) {
    forall id, t :: id in expanded && t in Edges(q.g, id, q.level) ==> t in visited
  }

  predicate IsClosest(q: Query, xs: seq<Id>, i: nat) {
    i < |xs| && forall j :: 0 <= j < |xs| ==> q.key(xs[i]) <= q.key(xs[j])
  }

  lemma {:induction false} ClosestExists(q: Query, xs: seq<Id>)
    requires xs != []
    ensures exists i :: IsClosest(q, xs, i)
  {
    var n := |xs| - 1;
    if n == 0 {
      assert IsClosest(q, xs, 0);
    } else {
      ClosestExists(q, xs[..n]);
      var i: nat :| IsClosest(q, xs[..n], i);
      if q.key(xs[n]) < q.key(xs[i]) {
        assert forall j :: 0 <= j < n ==> xs[j] == xs[..n][j];
        assert IsClosest(q, xs, n);
      } else {
        assert forall j :: 0 <= j < n ==> xs[j] == xs[..n][j];
        assert IsClosest(q, xs, i);
      }
    }
  }

  /** `pop` on either heap: some closest element, whichever the heap puts first among equals. */
  method Pop(q: Query, xs: seq<Id>) returns (top: Id, rest: seq<Id>, ghost at: nat)
    requires xs != []
    ensures IsClosest(q, xs, at) && top == xs[at] && rest == Without(xs, at)
  {
    ClosestExists(q, xs);
    var i :| 0 <= i < |xs| && IsClosest(q, xs, i);
    top, rest, at := xs[i], xs[..i] + xs[i + 1..], i;
  }

  /** `peek().map(distance)`: the smallest distance in the beam, or none. */
  function Furthest(q: Query, nearest: seq<Id>): (r: Option<real>)
    ensures r.None? <==> nearest == []
    ensures r.Some? ==>
      (forall id :: id in nearest ==> r.value <= q.key(id)) && exists id :: id in nearest && q.key(id) == r.value
  {
    if nearest == [] then None
    else
      var rest := Furthest(q, nearest[1..]);
      if rest.Some? && rest.value < q.key(nearest[0]) then rest else Some(q.key(nearest[0]))
  }

  predicate Accepts(q: Query, nearest: seq<Id>, id: Id) {
    var limit := Furthest(q, nearest);
    limit == None || q.key(id) < limit.value || |nearest| < q.width
  }

  // ----- the search as a function of which candidate is taken off the queue each time

  /** The beam, and every live id met so far in the order of discovery. */
  datatype Trail = Trail(beam: Beam, found: seq<Id>)

  /** The admitted entry points are queued; the live ones are results. */
  ghost function Start(q: Query): Trail {
    var live := q.LiveEntries();
    Trail(Beam((set e | e in q.entries && q.admits(e)), Filter(q.entries, q.admits), live), live)
  }

  /** One neighbour: a full beam stays as it is, however close the neighbour. */
  function Look(q: Query, t: Trail, id: Id): Trail {
    var Trail(b, found) := t;
    if id in b.visited then t
    else
      var visited := b.visited + {id};
      var accepted := q.admits(id) && Accepts(q, b.nearest, id);
      var candidates := if accepted then b.candidates + [id] else b.candidates;
      if !q.Live(id) then Trail(Beam(visited, candidates, b.nearest), found)
      else Trail(Beam(visited, candidates, if |b.nearest| < q.width then b.nearest + [id] else b.nearest), found + [id])
  }

  /** The neighbours from the i-th on, in order. */
  function LookAll(q: Query, t: Trail, edges: seq<Id>, i: nat): Trail
    requires i <= |edges|
    decreases |edges| - i
  {
    if i == |edges| then t else LookAll(q, Look(q, t, edges[i]), edges, i + 1)
  }

  function Without(xs: seq<Id>, i: nat): seq<Id>
    requires i < |xs|
  {
    xs[..i] + xs[i + 1..]
  }

  /** Takes one candidate off the queue and goes through its edges. */
  function Step(q: Query, t: Trail, at: nat): Trail {
    var Trail(b, found) := t;
    if at >= |b.candidates| then t
    else
      LookAll(q, Trail(b.(candidates := Without(b.candidates, at)), found), Edges(q.g, b.candidates[at], q.level), 0)
  }

  ghost function Walked(q: Query, picks: seq<nat>): Trail {
    if picks == [] then Start(q) else Step(q, Walked(q, picks[..|picks| - 1]), picks[|picks| - 1])
  }

  /** Farther than the closest result, which ends the search. */
  predicate Beyond(q: Query, b: Beam, id: Id) {
    var limit := Furthest(q, b.nearest);
    limit.Some? && q.key(id) > limit.value
  }

  /** Every candidate taken was a closest one in the queue, and not beyond the closest result. */
  ghost predicate Legal(q: Query, picks: seq<nat>) {
    picks == [] ||
    var front, at := picks[..|picks| - 1], picks[|picks| - 1];
    var b := Walked(q, front).beam;
    Legal(q, front) && IsClosest(q, b.candidates, at) && !Beyond(q, b, b.candidates[at])
  }

  ghost predicate Stopped(q: Query, b: Beam) { forall c :: c in b.candidates ==> Beyond(q, b, c) }

  /** `found` is what a whole search meets, in the order of discovery. */
  ghost predicate Discovered(q: Query, found: seq<Id>) {
    exists picks :: Legal(q, picks) && Stopped(q, Walked(q, picks).beam) && Walked(q, picks).found == found
  }

  // ----- a search sees only the edges of its layer, and the tombstones

  ghost predicate SameLayer(q: Query, q': Query) {
    && q' == q.(g := q'.g)
    && (forall id :: Edges(q'.g, id, q.level) == Edges(q.g, id, q.level))
    && forall id :: IsTombstone(q'.g, id) == IsTombstone(q.g, id)
  }

  lemma {:induction false} FilterSame(xs: seq<Id>, p: Id -> bool, q: Id -> bool)
    requires forall id :: p(id) == q(id)
    ensures Filter(xs, p) == Filter(xs, q)
  {
    if xs != [] { FilterSame(xs[1..], p, q); }
  }

  lemma StartSame(q: Query, q': Query)
    requires SameLayer(q, q')
    ensures q'.LiveEntries() == q.LiveEntries() && Start(q') == Start(q)
  {
    FilterSame(q.entries, (id: Id) => q'.Live(id), (id: Id) => q.Live(id));
  }

  lemma {:induction false} FurthestSame(q: Query, q': Query, nearest: seq<Id>)
    requires q'.key == q.key
    ensures Furthest(q', nearest) == Furthest(q, nearest)
  {
    if nearest != [] { FurthestSame(q, q', nearest[1..]); }
  }

  lemma LookSame(q: Query, q': Query, t: Trail, id: Id)
    requires SameLayer(q, q')
    ensures Look(q', t, id) == Look(q, t, id)
  {
    FurthestSame(q, q', t.beam.nearest);
    assert q'.Live(id) == q.Live(id);
  }

  lemma {:induction false} LookAllSame(q: Query, q': Query, t: Trail, edges: seq<Id>, i: nat)
    requires SameLayer(q, q') && i <= |edges|
    ensures LookAll(q', t, edges, i) == LookAll(q, t, edges, i)
    decreases |edges| - i
  {
    if i < |edges| {
      LookSame(q, q', t, edges[i]);
      LookAllSame(q, q', Look(q, t, edges[i]), edges, i + 1);
    }
  }

  lemma StepSame(q: Query, q': Query, t: Trail, at: nat)
    requires SameLayer(q, q')
    ensures Step(q', t, at) == Step(q, t, at)
  {
    var b := t.beam;
    if at < |b.candidates| {
      var popped := Trail(b.(candidates := Without(b.candidates, at)), t.found);
      LookAllSame(q, q', popped, Edges(q.g, b.candidates[at], q.level), 0);
    }
  }

  lemma {:induction false} WalkedSame(q: Query, q': Query, picks: seq<nat>)
    requires SameLayer(q, q')
    ensures Walked(q', picks) == Walked(q, picks) && Legal(q', picks) == Legal(q, picks)
  {
    if picks == [] {
      StartSame(q, q');
    } else {
      var front, at := picks[..|picks| - 1], picks[|picks| - 1];
      var t := Walked(q, front);
      WalkedSame(q, q', front);
      StepSame(q, q', t, at);
      FurthestSame(q, q', t.beam.nearest);
    }
  }

  /** Two graphs that agree in this respect lead to the same discoveries. */
  lemma DiscoveredSame(q: Query, q': Query, found: seq<Id>)
    requires SameLayer(q, q') && Discovered(q, found)
    ensures Discovered(q', found)
  {
    var picks :| Legal(q, picks) && Stopped(q, Walked(q, picks).beam) && Walked(q, picks).found == found;
    WalkedSame(q, q', picks);
    FurthestSame(q, q', Walked(q, picks).beam.nearest);
  }

  // ----- visiting one neighbour

  /** An id that is not live - not admitted, or a tombstone - can at most be queued. */
  lemma VisitOther(q: Query, b: Beam, found: seq<Id>, done: set<Id>, id: Id, from: Id, candidates: seq<Id>)
    requires BeamOk(q, b, found, done) && id !in b.visited && !q.Live(id)
    requires Reachable(q, from) && id in Edges(q.g, from, q.level)
    requires forall c :: c in b.candidates ==> c in candidates
    requires forall c :: c in candidates ==> c in b.candidates || (c == id && q.admits(id))
    ensures BeamOk(q, Beam(b.visited + {id}, candidates, b.nearest), found, done)
  {
    StepReachable(q, from, id);
  }

  /** While the beam has room every live id joins it; once full it never changes again. */
  lemma BeamFreezes(q: Query, b: Beam, found: seq<Id>, done: set<Id>, id: Id)
    requires BeamOk(q, b, found, done)
    ensures |b.nearest| < q.width ==> b.nearest == found && Take(found + [id], q.Capacity()) == found + [id]
    ensures |b.nearest| >= q.width ==> |b.nearest| == q.Capacity() && Take(found + [id], q.Capacity()) == b.nearest
  {
    var cap := q.Capacity();
    if |b.nearest| >= q.width {
      assert |found| >= |q.LiveEntries()|;
      assert |found| >= cap;
      assert (found + [id])[..cap] == found[..cap];
      if |found| == cap { assert (found + [id])[..cap] == found; }
    }
  }

  lemma VisitLive(q: Query, b: Beam, found: seq<Id>, done: set<Id>, id: Id, from: Id)
    requires BeamOk(q, b, found, done) && id !in b.visited && q.Live(id)
    requires Reachable(q, from) && id in Edges(q.g, from, q.level)
    ensures var accepted := Accepts(q, b.nearest, id);
            var b' := Beam(b.visited + {id}, if accepted then b.candidates + [id] else b.candidates,
                           if |b.nearest| < q.width then b.nearest + [id] else b.nearest);
            BeamOk(q, b', found + [id], done) && (|b.nearest| < q.width ==> accepted)
  {
    StepReachable(q, from, id);
    BeamFreezes(q, b, found, done, id);
    assert q.LiveEntries() <= found <= found + [id];
  }

  /** Pushing onto a full beam and popping the closest gives back the beam: the pushed element is the closest. */
  lemma PushPopIsIdle(q: Query, nearest: seq<Id>, id: Id, at: nat)
    requires Furthest(q, nearest).Some? ==> q.key(id) < Furthest(q, nearest).value
    requires IsClosest(q, nearest + [id], at)
    ensures Without(nearest + [id], at) == nearest
  {
    var all, n := nearest + [id], |nearest|;
    assert q.key(all[at]) <= q.key(all[n]);
    if at < n { assert false; }
    assert all[..n] == nearest && all[n + 1..] == [];
  }

  /** Where the search may ever get to: a bound for termination, cycles and repeated edges included. */
  ghost function Universe(q: Query): set<Id> {
    (set e | e in q.entries) + (set id, t | id in q.g && t in Edges(q.g, id, q.level) :: t)
  }

  lemma EdgeInUniverse(q: Query, from: Id, id: Id)
    requires id in Edges(q.g, from, q.level)
    ensures id in Universe(q)
  {
    assert from in q.g;
  }

  /** No live, admitted neighbour at this layer is closer to the query. */
  ghost predicate LocalOptimum(q: Query, id: Id) {
    forall t :: t in Edges(q.g, id, q.level) && q.Live(t) ==> q.key(id) <= q.key(t)
  }

  /** Looking at one neighbour keeps the beam in order. */
  lemma LookKeeps(q: Query, t: Trail, done: set<Id>, id: Id, from: Id)
    requires BeamOk(q, t.beam, t.found, done) && Reachable(q, from) && id in Edges(q.g, from, q.level)
    ensures var t' := Look(q, t, id);
            BeamOk(q, t'.beam, t'.found, done)
  {
    var Trail(b, found) := t;
    if id !in b.visited {
      if q.Live(id) {
        VisitLive(q, b, found, done, id, from);
      } else {
        VisitOther(q, b, found, done, id, from, Look(q, t, id).beam.candidates);
      }
    }
  }

  lemma {:induction false} LookAllKeeps(q: Query, t: Trail, done: set<Id>, edges: seq<Id>, i: nat, from: Id)
    requires BeamOk(q, t.beam, t.found, done) && Reachable(q, from) && edges == Edges(q.g, from, q.level)
      && i <= |edges|
    ensures var t' := LookAll(q, t, edges, i); BeamOk(q, t'.beam, t'.found, done)
    decreases |edges| - i
  {
    if i < |edges| {
      LookKeeps(q, t, done, edges[i], from);
      LookAllKeeps(q, Look(q, t, edges[i]), done, edges, i + 1, from);
    }
  }

  /** Every neighbour has been visited at the end, and nothing else changes when all of them already were. */
  lemma {:induction false} LookAllVisits(q: Query, t: Trail, edges: seq<Id>, i: nat)
    requires i <= |edges|
    ensures var t' := LookAll(q, t, edges, i);
            && t'.beam.visited == t.beam.visited + (set id | id in edges[i..])
            && (t'.beam.visited == t.beam.visited ==> t' == t)
    decreases |edges| - i
  {
    if i < |edges| {
      var next := Look(q, t, edges[i]);
      LookVisits(q, t, edges[i]);
      LookAllVisits(q, next, edges, i + 1);
      assert edges[i..] == [edges[i]] + edges[i + 1..];
    }
  }

  lemma LookVisits(q: Query, t: Trail, id: Id)
    ensures Look(q, t, id).beam.visited == t.beam.visited + {id}
    ensures id in t.beam.visited ==> Look(q, t, id) == t
  {
    if id in t.beam.visited { assert t.beam.visited + {id} == t.beam.visited; }
  }

  /** All neighbours of `from` have been visited after it was expanded. */
  lemma VisitsWithin(q: Query, t: Trail, from: Id)
    requires t.beam.visited <= Universe(q)
    ensures var t' := LookAll(q, t, Edges(q.g, from, q.level), 0);
            && t.beam.visited <= t'.beam.visited <= Universe(q)
            && (t'.beam.visited == t.beam.visited ==> t' == t)
            && forall id :: id in Edges(q.g, from, q.level) ==> id in t'.beam.visited
  {
    var edges := Edges(q.g, from, q.level);
    LookAllVisits(q, t, edges, 0);
    assert edges[0..] == edges;
    forall id | id in edges ensures id in Universe(q) { EdgeInUniverse(q, from, id); }
  }

  // ----- what is met, and what is not

  /** Until the beam is full every admitted id that is visited gets queued, tombstones included. */
  ghost predicate AllQueued(q: Query, b: Beam, found: seq<Id>, done: set<Id>) {
    && (forall e :: e in q.entries && q.admits(e) ==> e in b.visited)
    && (|found| < q.width ==>
          forall id {:trigger q.admits(id)} :: id in b.visited && q.admits(id) ==> id in b.candidates || id in done)
  }

  lemma LookQueues(q: Query, t: Trail, done: set<Id>, id: Id)
    requires AllQueued(q, t.beam, t.found, done) && t.beam.nearest == Take(t.found, q.Capacity())
    ensures var t' := Look(q, t, id); AllQueued(q, t'.beam, t'.found, done)
  {}

  lemma {:induction false} LookAllQueues(q: Query, t: Trail, done: set<Id>, edges: seq<Id>, i: nat, from: Id)
    requires BeamOk(q, t.beam, t.found, done) && Reachable(q, from) && edges == Edges(q.g, from, q.level)
      && i <= |edges|
    requires AllQueued(q, t.beam, t.found, done)
    ensures var t' := LookAll(q, t, edges, i);
            && AllQueued(q, t'.beam, t'.found, done) && t.found <= t'.found
            && forall j :: |t.found| <= j < |t'.found| ==> t'.found[j] in edges
    decreases |edges| - i
  {
    if i < |edges| {
      LookKeeps(q, t, done, edges[i], from);
      LookQueues(q, t, done, edges[i]);
      LookAllQueues(q, Look(q, t, edges[i]), done, edges, i + 1, from);
    }
  }

  /** The smallest distance in the beam is no larger than that of any id it holds. */
  lemma ExpandedIsNear(q: Query, b: Beam, found: seq<Id>, x: Id, j: nat)
    requires b.nearest == Take(found, q.Capacity()) && !Beyond(q, b, x) && j < |found| && j < q.Capacity()
    ensures q.key(x) <= q.key(found[j])
  {
    assert found[j] == b.nearest[j] && b.nearest[j] in b.nearest;
  }

  lemma {:induction false} StepMeets(q: Query, t: Trail, expanded: set<Id>, at: nat)
    requires BeamOk(q, t.beam, t.found, expanded) && AllQueued(q, t.beam, t.found, expanded)
    requires at < |t.beam.candidates| && !Beyond(q, t.beam, t.beam.candidates[at]) && MetAtClosest(q, t.found)
    ensures var t', done := Step(q, t, at), expanded + {t.beam.candidates[at]};
            AllQueued(q, t'.beam, t'.found, done) && MetAtClosest(q, t'.found)
  {
    var Trail(b, found) := t;
    var from := b.candidates[at];
    var done, popped := expanded + {from}, Trail(b.(candidates := Without(b.candidates, at)), found);
    WithoutMembers(b.candidates, at);
    assert from in b.candidates && Reachable(q, from) && q.admits(from);
    assert BeamOk(q, popped.beam, found, done);
    LookAllQueues(q, popped, done, Edges(q.g, from, q.level), 0, from);
    var found' := Step(q, t, at).found;
    forall j: nat | j < |found| && j < q.Capacity() ensures q.key(from) <= q.key(found[j]) {
      ExpandedIsNear(q, b, found, from, j);
    }
    MetMore(q, found, found', from);
  }

  lemma MetMore(q: Query, found: seq<Id>, found': seq<Id>, from: Id)
    requires MetAtClosest(q, found) && found <= found' && q.LiveEntries() <= found && q.admits(from)
    requires Reachable(q, from)
    requires forall j :: |found| <= j < |found'| ==> found'[j] in Edges(q.g, from, q.level)
    requires forall j: nat :: j < |found| && j < q.Capacity() ==> q.key(from) <= q.key(found[j])
    ensures MetAtClosest(q, found')
  {
    forall i | |q.LiveEntries()| <= i < |found'| ensures MetAt(q, found', i) {
      if i < |found| {
        assert MetAt(q, found, i);
        var x, n :| MetFrom(q, found, i, x, n);
        assert MetFrom(q, found', i, x, n);
      } else {
        assert MetFrom(q, found', i, from, |found|);
      }
    }
  }

  /** Along a near path everything is visited by a search that has stopped without filling its beam. */
  lemma {:induction false} PathIsVisited(q: Query, b: Beam, found: seq<Id>, expanded: set<Id>, result: seq<Id>,
                                         p: seq<Id>, i: nat)
    requires AllQueued(q, b, found, expanded) && Expanded(q, b.visited, expanded) && |found| < q.width
    requires NearPath(q, p, result) && i < |p|
    requires forall c :: c in b.candidates ==> result != [] && q.key(c) > q.key(result[0])
    ensures p[i] in b.visited
  {
    if i > 0 {
      PathIsVisited(q, b, found, expanded, result, p, i - 1);
      assert q.admits(p[i - 1]) && p[i - 1] in expanded;
      assert p[i - 1 + 1] in Edges(q.g, p[i - 1], q.level);
    }
  }

  lemma PathsAreMet(q: Query, b: Beam, found: seq<Id>, expanded: set<Id>, result: seq<Id>)
    requires BeamOk(q, b, found, expanded) && AllQueued(q, b, found, expanded) && Expanded(q, b.visited, expanded)
    requires Stopped(q, b) && result == SortBy(b.nearest, q.key) && |found| < q.width
    ensures forall p :: NearPath(q, p, result) && q.Live(p[|p| - 1]) ==> p[|p| - 1] in found && p[|p| - 1] in result
  {
    SortSorts(b.nearest, q.key);
    assert b.nearest == found;
    forall c | c in b.candidates ensures result != [] && q.key(c) > q.key(result[0]) {
      StopLimit(q, b, result, c);
    }
    forall p | NearPath(q, p, result) && q.Live(p[|p| - 1])
      ensures p[|p| - 1] in found && p[|p| - 1] in result
    {
      PathIsVisited(q, b, found, expanded, result, p, |p| - 1);
      assert p[|p| - 1] in multiset(result);
    }
  }

  lemma StopLimit(q: Query, b: Beam, result: seq<Id>, c: Id)
    requires Beyond(q, b, c) && multiset(result) == multiset(b.nearest) && Ascending(result, q.key)
    ensures result != [] && q.key(c) > q.key(result[0])
  {
    var limit := Furthest(q, b.nearest);
    var id :| id in b.nearest && q.key(id) == limit.value;
    assert id in multiset(result);
    var i :| 0 <= i < |result| && result[i] == id;
    assert q.key(result[0]) <= q.key(result[i]);
  }

  lemma StartQueues(q: Query)
    ensures AllQueued(q, Start(q).beam, Start(q).found, {}) && MetAtClosest(q, Start(q).found)
  {
    forall id | id in q.entries && q.admits(id) ensures id in Start(q).beam.candidates {
      InFilter(q.entries, q.admits, id);
    }
  }

  /** One neighbour of the candidate, seen for the first time. */
  method Visit(q: Query, id: Id, b: Beam, ghost found: seq<Id>) returns (b': Beam, ghost found': seq<Id>)
    requires id !in b.visited
    ensures Trail(b', found') == Look(q, Trail(b, found), id)
  {
    var visited := b.visited + {id};
    if !q.admits(id) { return Beam(visited, b.candidates, b.nearest), found; }
    var accepted := Accepts(q, b.nearest, id);
    if IsTombstone(q.g, id) {
      return Beam(visited, if accepted then b.candidates + [id] else b.candidates, b.nearest), found;
    }
    found' := found + [id];
    if !accepted { return b.(visited := visited), found'; }
    var nearest := b.nearest + [id];
    if |nearest| > q.width {
      ghost var at;
      var top;
      top, nearest, at := Pop(q, nearest);
      PushPopIsIdle(q, b.nearest, id, at);
    }
    b' := Beam(visited, b.candidates + [id], nearest);
  }

  /** Goes through the candidate's edges at this layer. */
  method Expand(q: Query, from: Id, b: Beam, ghost found: seq<Id>) returns (b': Beam, ghost found': seq<Id>)
    ensures Trail(b', found') == LookAll(q, Trail(b, found), Edges(q.g, from, q.level), 0)
  {
    b', found' := b, found;
    var edges := Edges(q.g, from, q.level);
    var i := 0;
    while i < |edges|
      invariant 0 <= i <= |edges|
      invariant LookAll(q, Trail(b', found'), edges, i) == LookAll(q, Trail(b, found), edges, 0)
    {
      if edges[i] !in b'.visited { b', found' := Visit(q, edges[i], b', found'); }
      i := i + 1;
    }
  }

  /** The entry points: each admitted one is a candidate, each live one is already a result. */
  method Enter(q: Query) returns (b: Beam)
    ensures b == Start(q).beam
  {
    var visited: set<Id> := {};
    var candidates: seq<Id> := [];
    var nearest: seq<Id> := [];
    var i := 0;
    ghost var live := (id: Id) => q.Live(id);
    assert q.entries[..0] == [];
    while i < |q.entries|
      invariant 0 <= i <= |q.entries|
      invariant nearest == Filter(q.entries[..i], live) && candidates == Filter(q.entries[..i], q.admits)
      invariant visited == set e | e in q.entries[..i] && q.admits(e)
    {
      var id := q.entries[i];
      ghost var before, after := q.entries[..i], q.entries[..i + 1];
      assert after == before + [id];
      FilterPrefix(before, [id], live);
      FilterPrefix(before, [id], q.admits);
      if q.admits(id) {
        candidates := candidates + [id];
        if !IsTombstone(q.g, id) { nearest := nearest + [id]; }
        visited := visited + {id};
      }
      i := i + 1;
    }
    assert q.entries[..i] == q.entries;
    b := Beam(visited, candidates, nearest);
  }

  lemma StartOk(q: Query)
    requires Distinct(q.entries)
    ensures BeamOk(q, Start(q).beam, Start(q).found, {}) && Start(q).beam.visited <= Universe(q)
  {
    var t := Start(q);
    FilterDistinct(q.entries, q.admits);
    EntriesOk(q, t.beam.visited, t.found);
  }

  lemma EntriesOk(q: Query, visited: set<Id>, nearest: seq<Id>)
    requires Distinct(q.entries) && nearest == Filter(q.entries, (id: Id) => q.Live(id))
    requires forall id :: id in visited <==> id in q.entries && q.admits(id)
    ensures Distinct(nearest) && nearest == q.LiveEntries() && Take(nearest, q.Capacity()) == nearest
    ensures forall id :: id in nearest ==> q.Live(id) && id in visited
    ensures forall id :: id in visited ==> Reachable(q, id) && (q.Live(id) ==> id in nearest)
  {
    var live := (id: Id) => q.Live(id);
    FilterDistinct(q.entries, live);
    forall id | id in visited ensures Reachable(q, id) { EntryReachable(q, id); }
  }

  lemma WithoutMembers(xs: seq<Id>, i: nat)
    requires i < |xs|
    ensures forall x :: x in xs <==> x == xs[i] || x in Without(xs, i)
  {
    assert xs == xs[..i] + [xs[i]] + xs[i + 1..];
  }

  /** When the search stops, the closest element of an unfilled beam has been expanded. */
  lemma StoppedAtOptimum(q: Query, b: Beam, found: seq<Id>, expanded: set<Id>, best: Id)
    requires BeamOk(q, b, found, expanded) && Expanded(q, b.visited, expanded)
    requires |found| <= q.width && best in b.nearest && forall id :: id in b.nearest ==> q.key(best) <= q.key(id)
    requires forall c :: c in b.candidates ==> q.key(c) > q.key(best)
    ensures LocalOptimum(q, best)
  {
    assert b.nearest == found;
    assert best in expanded;
    forall t | t in Edges(q.g, best, q.level) && q.Live(t) ensures q.key(best) <= q.key(t) {
      assert t in b.visited && t in found;
    }
  }

  /** One step keeps the beam in order and either visits something new or shortens the queue. */
  lemma StepKeeps(q: Query, t: Trail, expanded: set<Id>, at: nat)
    requires BeamOk(q, t.beam, t.found, expanded) && Expanded(q, t.beam.visited, expanded)
    requires t.beam.visited <= Universe(q) && at < |t.beam.candidates|
    ensures var t', done := Step(q, t, at), expanded + {t.beam.candidates[at]};
            && BeamOk(q, t'.beam, t'.found, done) && Expanded(q, t'.beam.visited, done)
            && t.beam.visited <= t'.beam.visited <= Universe(q)
            && (t'.beam.visited == t.beam.visited ==> |t'.beam.candidates| < |t.beam.candidates|)
  {
    var Trail(b, found) := t;
    var from, rest := b.candidates[at], Without(b.candidates, at);
    var done, popped := expanded + {from}, Trail(b.(candidates := rest), found);
    WithoutMembers(b.candidates, at);
    assert BeamOk(q, popped.beam, found, done);
    LookAllKeeps(q, popped, done, Edges(q.g, from, q.level), 0, from);
    VisitsWithin(q, popped, from);
  }

  /**
   * `search_layer`.  `found` is every live id met, in the order of discovery.  The result is the first
   * `Capacity()` of these, closest first: once the beam is full, later and closer ids never enter it, so
   * everything met comes back exactly when it fits.  If the beam never filled up, its first id is a local
   * optimum of the layer.
   */
  method SearchLayer(q: Query) returns (result: seq<Id>, ghost found: seq<Id>)
    requires Distinct(q.entries)
    ensures Discovered(q, found) && q.LiveEntries() <= found && Distinct(found)
    ensures forall id :: id in found ==> q.Live(id) && Reachable(q, id)
    ensures multiset(result) == multiset(Take(found, q.Capacity())) && Ascending(result, q.key)
    ensures (forall id :: id in found ==> id in result) <==> |found| <= q.Capacity()
    ensures |found| <= q.width && result != [] ==> LocalOptimum(q, result[0])
    ensures |found| < q.width ==>
      forall p :: NearPath(q, p, result) && q.Live(p[|p| - 1]) ==> p[|p| - 1] in found && p[|p| - 1] in result
    ensures MetAtClosest(q, found)
  {
    var b;
    ghost var expanded, picks;
    b, found, expanded, picks := Walk(q);
    result := SortBy(b.nearest, q.key);
    Finished(q, b, found, expanded, picks, result);
  }

  /** Expands the closest id of the queue until the queue is empty or its closest lies beyond the beam. */
  method Walk(q: Query) returns (b: Beam, ghost found: seq<Id>, ghost expanded: set<Id>, ghost picks: seq<nat>)
    requires Distinct(q.entries)
    ensures Underway(q, Trail(b, found), expanded, picks) && (b.candidates == [] || Stopped(q, b))
  {
    b := Enter(q);
    found := Start(q).found;
    StartOk(q);
    StartQueues(q);
    expanded, picks := {}, [];
    var stopped := false;
    while b.candidates != [] && !stopped
      invariant Underway(q, Trail(b, found), expanded, picks)
      invariant stopped ==> Stopped(q, b)
      decreases Universe(q) - b.visited, |b.candidates|, !stopped
    {
      var top, rest;
      ghost var at;
      top, rest, at := Pop(q, b.candidates);
      if Beyond(q, b, top) {
        stopped := true;
      } else {
        OneMore(q, Trail(b, found), expanded, picks, at);
        b, found := Expand(q, top, b.(candidates := rest), found);
        picks, expanded := picks + [at], expanded + {top};
      }
    }
  }

  lemma Finished(q: Query, b: Beam, found: seq<Id>, expanded: set<Id>, picks: seq<nat>, result: seq<Id>)
    requires Underway(q, Trail(b, found), expanded, picks) && (b.candidates == [] || Stopped(q, b))
    requires result == SortBy(b.nearest, q.key)
    ensures Discovered(q, found) && q.LiveEntries() <= found && Distinct(found)
    ensures forall id :: id in found ==> q.Live(id) && Reachable(q, id)
    ensures multiset(result) == multiset(Take(found, q.Capacity())) && Ascending(result, q.key)
    ensures (forall id :: id in found ==> id in result) <==> |found| <= q.Capacity()
    ensures |found| <= q.width && result != [] ==> LocalOptimum(q, result[0])
    ensures |found| < q.width ==>
      forall p :: NearPath(q, p, result) && q.Live(p[|p| - 1]) ==> p[|p| - 1] in found && p[|p| - 1] in result
    ensures MetAtClosest(q, found)
  {
    Sorted(q, b, found, expanded, result);
    if |found| < q.width { PathsAreMet(q, b, found, expanded, result); }
    ComesBackIff(q, found, result);
  }

  /** A search after some picks: the beam is in order and is what the picks lead to. */
  ghost predicate Underway(q: Query, t: Trail, expanded: set<Id>, picks: seq<nat>) {
    && BeamOk(q, t.beam, t.found, expanded) && Expanded(q, t.beam.visited, expanded) && t.beam.visited <= Universe(q)
    && Legal(q, picks) && Walked(q, picks) == t
    && AllQueued(q, t.beam, t.found, expanded) && MetAtClosest(q, t.found)
  }

  lemma OneMore(q: Query, t: Trail, expanded: set<Id>, picks: seq<nat>, at: nat)
    requires Underway(q, t, expanded, picks)
    requires IsClosest(q, t.beam.candidates, at) && !Beyond(q, t.beam, t.beam.candidates[at])
    ensures var t' := Step(q, t, at);
            && Underway(q, t', expanded + {t.beam.candidates[at]}, picks + [at])
            && t.beam.visited <= t'.beam.visited
            && (t'.beam.visited == t.beam.visited ==> |t'.beam.candidates| < |t.beam.candidates|)
  {
    StepKeeps(q, t, expanded, at);
    StepMeets(q, t, expanded, at);
    MorePicks(q, picks, at);
  }

  lemma MorePicks(q: Query, picks: seq<nat>, at: nat)
    requires Legal(q, picks)
    ensures Walked(q, picks + [at]) == Step(q, Walked(q, picks), at)
    ensures var b := Walked(q, picks).beam;
            IsClosest(q, b.candidates, at) && !Beyond(q, b, b.candidates[at]) ==> Legal(q, picks + [at])
  {
    assert (picks + [at])[..|picks|] == picks;
  }

  /** What is met is only ever added to. */
  lemma {:induction false} LookAllAdds(q: Query, t: Trail, edges: seq<Id>, i: nat)
    requires i <= |edges|
    ensures t.found <= LookAll(q, t, edges, i).found
    decreases |edges| - i
  {
    if i < |edges| { LookAllAdds(q, Look(q, t, edges[i]), edges, i + 1); }
  }

  /** After the first candidate taken, what has been met stays at the front of all that is met. */
  lemma {:induction false} FirstPick(q: Query, picks: seq<nat>)
    requires picks != [] && Legal(q, picks)
    ensures Legal(q, picks[..1]) && Walked(q, picks[..1]).found <= Walked(q, picks).found
  {
    if |picks| == 1 {
      assert picks[..1] == picks;
    } else {
      var front, at := picks[..|picks| - 1], picks[|picks| - 1];
      assert front[..1] == picks[..1];
      FirstPick(q, front);
      var Trail(b, found) := Walked(q, front);
      LookAllAdds(q, Trail(b.(candidates := Without(b.candidates, at)), found), Edges(q.g, b.candidates[at], q.level),
                  0);
    }
  }

  /** Everything met is among the results exactly when it fits into the beam. */
  lemma ComesBackIff(q: Query, found: seq<Id>, result: seq<Id>)
    requires Distinct(found) && multiset(result) == multiset(Take(found, q.Capacity()))
    ensures (forall id :: id in found ==> id in result) <==> |found| <= q.Capacity()
  {
    var cap := q.Capacity();
    var head := Take(found, cap);
    forall id ensures id in result <==> id in head { assert id in result <==> id in multiset(result); }
    if |found| > cap {
      assert found[cap] !in head;
    }
  }

  /** What the sorted beam of a stopped search is. */
  lemma Sorted(q: Query, b: Beam, found: seq<Id>, expanded: set<Id>, result: seq<Id>)
    requires BeamOk(q, b, found, expanded) && Expanded(q, b.visited, expanded) && result == SortBy(b.nearest, q.key)
    requires Stopped(q, b)
    ensures multiset(result) == multiset(Take(found, q.Capacity())) && Ascending(result, q.key)
    ensures |found| <= q.width && result != [] ==> LocalOptimum(q, result[0])
  {
    SortSorts(b.nearest, q.key);
    if |found| <= q.width && result != [] {
      var best := result[0];
      assert best in multiset(result);
      forall id | id in b.nearest ensures q.key(best) <= q.key(id) {
        assert id in multiset(result);
      }
      StoppedAtOptimum(q, b, found, expanded, best);
    }
  }
}
