/** The inverted-file index: building clusters, online inserts and removes, and probing search. */
module Ivf {
  import opened Types
  import opened Ranking
  import opened KMeans
  import opened Search

  function Gather(order: seq<Id>, vectors: map<Id, Vec>): (r: seq<Vec>)
    requires forall id :: id in order ==> id in vectors
    ensures |r| == |order| && forall i :: 0 <= i < |order| ==> r[i] == vectors[order[i]]
  {
    seq(|order|, i requires 0 <= i < |order| => vectors[order[i]])
  }

  ghost predicate AllDim(vectors: map<Id, Vec>, d: nat) { forall id :: id in vectors ==> |vectors[id]| == d }

  /** Every id is in exactly the list of the highest-scoring centroid for its vector, and is recorded there. */
  ghost predicate Partition(score: Score, vecs: map<Id, Vec>, centroids: seq<Vec>, lists: seq<seq<Id>>,
                            cluster: map<Id, nat>) {
    && |lists| == |centroids| > 0 && cluster.Keys == vecs.Keys
    && (forall id :: id in cluster ==> ClosestTo(score, vecs[id], centroids, cluster[id]))
    && Filed(lists, cluster)
  }

  /** The lists are duplicate-free and hold exactly the ids recorded for them. */
  ghost predicate Filed(lists: seq<seq<Id>>, cluster: map<Id, nat>) {
    && (forall id :: id in cluster ==> cluster[id] < |lists|)
    && (forall c :: 0 <= c < |lists| ==> Distinct(lists[c]))
    && forall c, id :: 0 <= c < |lists| ==> (id in lists[c] <==> id in cluster && cluster[id] == c)
  }

  function TotalSize(lists: seq<seq<Id>>): nat {
    if lists == [] then 0 else |lists[|lists| - 1]| + TotalSize(lists[..|lists| - 1])
  }

  lemma FewerKeys(cluster: map<Id, nat>, gone: set<Id>)
    requires gone <= cluster.Keys
    ensures |cluster| == |cluster - gone| + |gone|
  {
    var rest := cluster - gone;
    assert cluster.Keys == rest.Keys + gone;
    assert |cluster| == |cluster.Keys| && |rest| == |rest.Keys|;
  }

  lemma FiledFront(lists: seq<seq<Id>>, cluster: map<Id, nat>, front: seq<seq<Id>>, last: seq<Id>)
    requires Filed(lists, cluster) && lists == front + [last]
    ensures var there := set id | id in last;
            there <= cluster.Keys && |there| == |last| && Filed(front, cluster - there)
  {
    var there, n := set id | id in last, |front|;
    var rest := cluster - there;
    assert lists[n] == last && forall c :: 0 <= c < n ==> lists[c] == front[c];
    DistinctSize(last);
    forall id ensures id in there <==> id in cluster && cluster[id] == n { assert id in lists[n] <==> id in there; }
    forall c, id | 0 <= c < n ensures id in front[c] <==> id in rest && rest[id] == c {
      assert id in lists[c] <==> id in cluster && cluster[id] == c;
    }
  }

  /** The list sizes sum to the number of ids. */
  lemma {:induction false} SizesSum(lists: seq<seq<Id>>, cluster: map<Id, nat>)
    requires Filed(lists, cluster)
    ensures TotalSize(lists) == |cluster|
  {
    if lists == [] {
      assert cluster == map[];
    } else {
      var n := |lists| - 1;
      var there := set id | id in lists[n];
      FiledFront(lists, cluster, lists[..n], lists[n]);
      FewerKeys(cluster, there);
      SizesSum(lists[..n], cluster - there);
    }
  }

  /** Filing one more id. */
  lemma FileOne(lists: seq<seq<Id>>, cluster: map<Id, nat>, id: Id, c: nat)
    requires Filed(lists, cluster) && id !in cluster && c < |lists|
    ensures Filed(lists[c := lists[c] + [id]], cluster[id := c])
  {}

  lemma UnfileOne(lists: seq<seq<Id>>, cluster: map<Id, nat>, id: Id)
    requires Filed(lists, cluster) && id in cluster
    ensures var c := cluster[id]; Filed(lists[c := Filter(lists[c], Not(id))], cluster - {id})
  {
    FilterDistinct(lists[cluster[id]], Not(id));
  }

  ghost predicate SettledUpTo(score: Score, vs: seq<Vec>, a: seq<nat>, cs: seq<Vec>, cs': seq<Vec>, k: nat)
    requires |a| == |vs| && |cs'| == |cs| && k <= |cs|
  {
    forall i :: 0 <= i < k && Members(vs, a, i) != [] ==> score(cs[i], cs'[i]) >= 0.99
  }

  /** A centroid is moved once. */
  lemma {:induction false} MovedStays(vs: seq<Vec>, a: seq<nat>, cs: seq<Vec>, d: nat, k: nat, m: nat)
    requires |a| == |vs| && SameDim(vs, d) && SameDim(cs, d) && k <= m <= |cs|
    ensures forall i :: 0 <= i < k ==> Moved(vs, a, cs, d, m)[i] == Moved(vs, a, cs, d, k)[i]
    decreases m
  {
    if k < m { MovedStays(vs, a, cs, d, k, m - 1); }
  }

  // ----- which lists a search visits

  function Range(n: nat): (r: seq<nat>)
    ensures |r| == n && forall i :: 0 <= i < n ==> r[i] == i
  {
    seq(n, i => i)
  }

  function CentroidRank(score: Score, query: Vec, centroids: seq<Vec>): nat -> real {
    (c: nat) => if c < |centroids| then -score(query, centroids[c]) else 0.0
  }

  /** The nprobe clusters whose centroids score highest. */
  function Probed(score: Score, query: Vec, centroids: seq<Vec>, nprobe: nat): seq<nat> {
    Best(Range(|centroids|), CentroidRank(score, query, centroids), nprobe)
  }

  /** Distinct clusters, as many as asked for if there are so many; no other centroid scores higher than theirs. */
  ghost predicate ProbesBest(score: Score, query: Vec, centroids: seq<Vec>, nprobe: nat, visit: seq<nat>) {
    && |visit| == (if nprobe < |centroids| then nprobe else |centroids|) && Distinct(visit)
    && (forall i :: 0 <= i < |visit| ==> visit[i] < |centroids|)
    && forall c: nat, c': nat :: c in visit && c' < |centroids| && c' !in visit ==>
         c < |centroids| && score(query, centroids[c]) >= score(query, centroids[c'])
  }

  function ListAt(lists: seq<seq<Id>>, c: nat): seq<Id> { if c < |lists| then lists[c] else [] }

  /** The members of the visited lists, in visiting order. */
  function Candidates(lists: seq<seq<Id>>, visit: seq<nat>): seq<Id> {
    if visit == [] then [] else ListAt(lists, visit[0]) + Candidates(lists, visit[1..])
  }

  class IvfIndex {
    const numClusters: nat
    const maxIterations: nat
    const score: Score
    var centroids: seq<Vec>
    var lists: seq<seq<Id>>
    var cluster: map<Id, nat>
    var pending: set<Id>
    var dimensions: nat

    /** `vecs` are the current vectors of the ids the index knows. */
    ghost predicate Valid(vecs: map<Id, Vec>)
      reads this
    {
      numClusters > 0 &&
      if centroids == [] then lists == [] && cluster == map[] && pending == vecs.Keys
      else pending == {} && Partition(score, vecs, centroids, lists, cluster)
    }

    ghost function LiveIds(): set<Id> reads this { cluster.Keys + pending }

    constructor (numClusters: nat, maxIterations: nat, score: Score)
      requires numClusters > 0
      ensures Valid(map[]) && this.numClusters == numClusters && this.maxIterations == maxIterations
        && this.score == score
    {
      this.numClusters, this.maxIterations, this.score := numClusters, maxIterations, score;
      centroids, lists, cluster, pending, dimensions := [], [], map[], {}, 0;
    }

    /** Mean of the members: sum coordinate by coordinate, then divide. */
    method ComputeCentroid(group: seq<Vec>) returns (c: Vec)
      requires group != [] && SameDim(group, dimensions)
      ensures c == Mean(group, dimensions)
    {
      var sums := seq(dimensions, _ => 0.0);
      var rest := group;
      while rest != []
        invariant |sums| == dimensions && SameDim(rest, dimensions)
        invariant forall j :: 0 <= j < dimensions ==> sums[j] + ColSum(rest, j) == ColSum(group, j)
        decreases |rest|
      {
        var v := rest[0];
        ghost var before := sums;
        var j := 0;
        while j < dimensions
          invariant 0 <= j <= dimensions && |sums| == dimensions
          invariant forall i :: 0 <= i < j ==> sums[i] == before[i] + v[i]
          invariant forall i :: j <= i < dimensions ==> sums[i] == before[i]
        {
          sums := sums[j := sums[j] + v[j]];
          j := j + 1;
        }
        rest := rest[1..];
      }
      c := seq(|sums|, j requires 0 <= j < |sums| => sums[j] / (|group| as real));
    }

    /** One assign-then-mean round; `settled` when no non-empty cluster's centroid moved far. */
    method LloydRound(vs: seq<Vec>) returns (settled: bool)
      requires SameDim(vs, dimensions) && SameDim(centroids, dimensions) && centroids != []
      modifies `centroids
      ensures centroids == Round(score, vs, old(centroids), dimensions)
      ensures settled == Settled(score, vs, Assign(score, vs, old(centroids)), old(centroids), centroids)
      ensures RoundOf(score, vs, old(centroids), centroids, dimensions)
      ensures settled <==> AllSettled(score, vs, old(centroids), centroids)
    {
      ghost var start := centroids;
      settled := MoveCentroids(vs);
      RoundIs(score, vs, start, dimensions);
    }

    /** Assignment to groups, then the update loop. */
    method MoveCentroids(vs: seq<Vec>) returns (settled: bool)
      requires SameDim(vs, dimensions) && SameDim(centroids, dimensions) && centroids != []
      modifies `centroids
      ensures centroids == Round(score, vs, old(centroids), dimensions)
      ensures settled == Settled(score, vs, Assign(score, vs, old(centroids)), old(centroids), centroids)
    {
      var groups := AssignGroups(vs);
      ghost var start, a := centroids, Assign(score, vs, centroids);
      ghost var final := Moved(vs, a, start, dimensions, |start|);
      settled := true;
      var k := 0;
      while k < |centroids|
        invariant 0 <= k <= |start| == |centroids|
        invariant centroids == Moved(vs, a, start, dimensions, k)
        invariant settled <==> SettledUpTo(score, vs, a, start, final, k)
      {
        var still := MoveCentroid(k, groups[k], vs, a, start);
        MovedStays(vs, a, start, dimensions, k + 1, |start|);
        settled := settled && still;
        k := k + 1;
      }
    }

    /** The body of the update loop for cluster k. */
    method MoveCentroid(k: nat, group: seq<Vec>, ghost vs: seq<Vec>, ghost a: seq<nat>, ghost start: seq<Vec>)
      returns (still: bool)
      requires |a| == |vs| && SameDim(vs, dimensions) && SameDim(start, dimensions) && k < |start|
      requires group == Members(vs, a, k) && centroids == Moved(vs, a, start, dimensions, k)
      modifies `centroids
      ensures centroids == Moved(vs, a, start, dimensions, k + 1)
      ensures still <==> (group == [] || score(start[k], centroids[k]) >= 0.99)
    {
      MembersDim(vs, a, k, |vs|, dimensions);
      still := true;
      if group != [] {
        var next := ComputeCentroid(group);
        still := !(score(centroids[k], next) < 0.99);
        centroids := centroids[k := next];
      }
    }

    method AssignGroups(vs: seq<Vec>) returns (groups: seq<seq<Vec>>)
      requires centroids != []
      ensures |groups| == |centroids|
      ensures forall k :: 0 <= k < |groups| ==> groups[k] == Members(vs, Assign(score, vs, centroids), k)
    {
      groups := seq(|centroids|, _ => []);
      ghost var a := Assign(score, vs, centroids);
      var i := 0;
      while i < |vs|
        invariant 0 <= i <= |vs| && |groups| == |centroids|
        invariant forall k :: 0 <= k < |groups| ==> groups[k] == MembersOf(vs, a, k, i)
      {
        var c := Nearest(score, vs[i], centroids);
        groups := groups[c := groups[c] + [vs[i]]];
        i := i + 1;
      }
    }

    /** The loop of at most `maxIterations` rounds. */
    method RunRounds(vs: seq<Vec>)
      requires SameDim(vs, dimensions) && SameDim(centroids, dimensions) && centroids != []
      modifies `centroids
      ensures centroids == Iterate(score, vs, old(centroids), dimensions, maxIterations)
    {
      ghost var result := Iterate(score, vs, centroids, dimensions, maxIterations);
      var left, settled := maxIterations, false;
      while left > 0 && !settled
        invariant centroids != [] && SameDim(centroids, dimensions)
        invariant if settled then centroids == result else Iterate(score, vs, centroids, dimensions, left) == result
        decreases left
      {
        ghost var next, last := IterateStep(score, vs, centroids, dimensions, left);
        settled := LloydRound(vs);
        assert centroids == next && settled == last;
        left := left - 1;
      }
    }

    /** Files every id under its nearest centroid. */
    method FileAll(order: seq<Id>, vectors: map<Id, Vec>)
      requires Enumerates(order, vectors.Keys) && centroids != []
      modifies `lists, `cluster
      ensures Partition(score, vectors, centroids, lists, cluster)
    {
      lists := seq(|centroids|, _ => []);
      cluster := map[];
      var i := 0;
      while i < |order|
        invariant 0 <= i <= |order| && |lists| == |centroids| && Filed(lists, cluster)
        invariant forall j :: 0 <= j < i ==> order[j] in cluster
        invariant forall j :: i <= j < |order| ==> order[j] !in cluster
        invariant cluster.Keys <= vectors.Keys
        invariant forall id :: id in cluster ==> ClosestTo(score, vectors[id], centroids, cluster[id])
      {
        FileUnderNearest(order[i], vectors);
        i := i + 1;
      }
      forall id | id in vectors ensures id in cluster {
        assert id in order;
        var j :| 0 <= j < |order| && order[j] == id;
      }
    }

    method FileUnderNearest(id: Id, vectors: map<Id, Vec>)
      requires |lists| == |centroids| > 0 && Filed(lists, cluster) && id !in cluster && id in vectors
      modifies `lists, `cluster
      ensures |lists| == |centroids| && Filed(lists, cluster)
      ensures cluster == old(cluster)[id := Nearest(score, vectors[id], centroids)]
      ensures ClosestTo(score, vectors[id], centroids, cluster[id])
    {
      var c := Nearest(score, vectors[id], centroids);
      ClosestIff(score, vectors[id], centroids, c);
      FileOne(lists, cluster, id, c);
      lists := lists[c := lists[c] + [id]];
      cluster := cluster[id := c];
    }

    /**
     * K-means over the given vectors, listed in some order.  The first vectors are the initial centroids; under
     * a Euclidean score the final clustering, final assignment included, costs no more than the initial one.
     */
    method BuildClusters(vectors: map<Id, Vec>, order: seq<Id>, ghost d: nat)
      requires numClusters > 0 && Enumerates(order, vectors.Keys) && AllDim(vectors, d)
      modifies this
      ensures order == [] ==>
        centroids == old(centroids) && lists == old(lists) && cluster == old(cluster) && pending == old(pending)
      ensures order != [] ==>
        var vs := Gather(order, vectors);
        var start := Take(vs, numClusters);
        && SameDim(vs, d) && SameDim(start, d) && SameDim(centroids, d) && start != []
        && centroids == Iterate(score, vs, start, d, maxIterations)
        && pending == {} && Partition(score, vectors, centroids, lists, cluster)
        && (Euclidean(score) ==> Cost(score, vs, centroids, d) <= Cost(score, vs, start, d))
        && RunsTo(score, vs, start, centroids, d, maxIterations)
    {
      if order == [] { return; }
      assert forall i :: 0 <= i < |order| ==> order[i] in order && order[i] in vectors;
      var vs := Gather(order, vectors);
      dimensions := |vs[0]|;
      centroids := Take(vs, numClusters);
      ghost var start := centroids;
      RunRounds(vs);
      pending := {};
      FileAll(order, vectors);
      IterateRuns(score, vs, start, d, maxIterations);
      if Euclidean(score) { IterateNeverWorse(score, vs, start, d, maxIterations); }
    }

    /**
     * Online insert.  `vectors` is what the caller's reader holds, the new vector included; `filed` are the
     * vectors its ids are filed under afterwards.  A known id returns early and changes nothing, so the index is
     * right for a new vector of it only while the id is pending or if its centroid is still the nearest.
     */
    method Insert(id: Id, vector: Vec, vectors: map<Id, Vec>, order: seq<Id>, ghost vecs: map<Id, Vec>, ghost d: nat)
      returns (ghost filed: map<Id, Vec>)
      requires Valid(vecs) && Enumerates(order, vectors.Keys) && AllDim(vectors, d)
      requires vecs.Keys <= vectors.Keys && id in vectors && vectors[id] == vector
      modifies this
      ensures id in vecs ==>
        centroids == old(centroids) && lists == old(lists) && cluster == old(cluster) && pending == old(pending)
      ensures id in vecs ==>
        (Valid(vecs[id := vector]) <==> id in pending || ClosestTo(score, vector, centroids, cluster[id]))
      ensures Valid(filed) && LiveIds() == filed.Keys
      ensures filed == if id in vecs then vecs
                       else if old(centroids) == [] && |vectors| >= numClusters then vectors
                       else vecs[id := vector]
    {
      if id in cluster || id in pending {
        StaleIff(id, vector, vecs);
        return vecs;
      }
      if centroids == [] {
        filed := InsertPending(id, vectors, order, vecs, d);
      } else {
        FileUnderNearest(id, vectors);
        filed := vecs[id := vector];
      }
    }

    /** What a repeated insert leaves is right for the new vector unless the id is filed under another centroid. */
    lemma StaleIff(id: Id, vector: Vec, vecs: map<Id, Vec>)
      requires Valid(vecs) && id in vecs
      ensures Valid(vecs[id := vector]) <==> id in pending || ClosestTo(score, vector, centroids, cluster[id])
    {
      assert vecs[id := vector].Keys == vecs.Keys;
      if centroids != [] { RepeatedInsertIff(score, vecs, centroids, lists, cluster, id, vector); }
    }

    /** Before the first clustering an id waits, until there are enough vectors to cluster. */
    method InsertPending(id: Id, vectors: map<Id, Vec>, order: seq<Id>, ghost vecs: map<Id, Vec>, ghost d: nat)
      returns (ghost filed: map<Id, Vec>)
      requires Valid(vecs) && centroids == [] && id !in vecs
      requires Enumerates(order, vectors.Keys) && AllDim(vectors, d) && vecs.Keys <= vectors.Keys && id in vectors
      modifies this
      ensures Valid(filed) && LiveIds() == filed.Keys
      ensures filed == if |vectors| >= numClusters then vectors else vecs[id := vectors[id]]
      ensures centroids != [] <==> |vectors| >= numClusters
    {
      pending := pending + {id};
      filed := vecs[id := vectors[id]];
      if |vectors| >= numClusters {
        assert id in order;
        BuildClusters(vectors, order, d);
        filed := vectors;
      }
    }

    method Remove(id: Id, ghost vecs: map<Id, Vec>)
      requires Valid(vecs)
      modifies this
      ensures Valid(vecs - {id}) && LiveIds() == old(LiveIds()) - {id}
      ensures centroids == old(centroids)
    {
      pending := pending - {id};
      if id in cluster {
        var c := cluster[id];
        UnfileOne(lists, cluster, id);
        cluster := cluster - {id};
        var kept := Retain(lists[c], Not(id));
        lists := lists[c := kept];
      }
    }

    /** Remove-then-insert, as an update does it: the id is filed under the centroid nearest to its new vector. */
    method Reinsert(id: Id, vector: Vec, vectors: map<Id, Vec>, order: seq<Id>, ghost vecs: map<Id, Vec>, ghost d: nat)
      requires Valid(vecs) && Enumerates(order, vectors.Keys) && AllDim(vectors, d) && vectors == vecs[id := vector]
      modifies this
      ensures Valid(vectors)
    {
      Remove(id, vecs);
      assert vectors == (vecs - {id})[id := vector];
      ghost var filed := Insert(id, vector, vectors, order, vecs - {id}, d);
    }

    /** `visit` are the clusters probed, in their order. */
    method Search(query: Vec, k: nat, vectors: map<Id, Vec>, nprobe: nat)
      returns (r: Result<seq<Id>, SearchError>, ghost visit: seq<nat>)
      ensures centroids == [] ==> r == Err(NotInitialized)
      ensures centroids != [] ==>
        visit == Probed(score, query, centroids, nprobe) && ProbesBest(score, query, centroids, nprobe, visit)
      ensures centroids != [] ==>
        var found := Candidates(lists, visit);
        if forall id :: id in found ==> id in vectors
        then && r == Ok(Best(found, Rank(score, query, vectors), k))
             && TopOf(found, r.value, k, (id: Id) => if id in vectors then score(query, vectors[id]) else 0.0)
        else r.Err? && r.error.MissingVector? && r.error.id in found && r.error.id !in vectors
      ensures centroids != [] && |lists| == |centroids| && Filed(lists, cluster) ==>
        var found := Candidates(lists, visit);
        Distinct(found) && forall id :: id in found <==> id in cluster && cluster[id] in visit
    {
      if centroids == [] {
        visit := [];
        return Err(NotInitialized), visit;
      }
      var rest := Probed(score, query, centroids, nprobe);
      visit := rest;
      ProbedIsBest(score, query, centroids, nprobe);
      if |lists| == |centroids| && Filed(lists, cluster) { CandidatesMembers(lists, cluster, visit); }
      var missing, candidates := Collect(rest, vectors);
      if missing.Some? { return Err(MissingVector(missing.value)), visit; }
      r := Ok(Best(candidates, Rank(score, query, vectors), k));
      BestIsTop(candidates, Rank(score, query, vectors), k,
                (id: Id) => if id in vectors then score(query, vectors[id]) else 0.0);
    }

    /** The members of the visited lists, unless one of them has no vector. */
    method Collect(visit: seq<nat>, vectors: map<Id, Vec>) returns (missing: Option<Id>, candidates: seq<Id>)
      ensures missing.None? <==> forall id :: id in Candidates(lists, visit) ==> id in vectors
      ensures missing.None? ==> candidates == Candidates(lists, visit)
      ensures missing.Some? ==> missing.value in Candidates(lists, visit) && missing.value !in vectors
    {
      var rest := visit;
      candidates := [];
      while rest != []
        invariant candidates + Candidates(lists, rest) == Candidates(lists, visit)
        invariant forall id :: id in candidates ==> id in vectors
        decreases |rest|
      {
        var list := ListAt(lists, rest[0]);
        missing := FirstMissing(list, vectors);
        if missing.Some? {
          assert missing.value in ListAt(lists, rest[0]) + Candidates(lists, rest[1..]);
          return;
        }
        candidates := candidates + list;
        rest := rest[1..];
      }
      assert candidates == Candidates(lists, visit);
      missing := None;
    }

    static method FirstMissing(list: seq<Id>, vectors: map<Id, Vec>) returns (missing: Option<Id>)
      ensures missing.None? <==> forall id :: id in list ==> id in vectors
      ensures missing.Some? ==> missing.value in list && missing.value !in vectors
    {
      var i := 0;
      while i < |list|
        invariant 0 <= i <= |list| && forall j :: 0 <= j < i ==> list[j] in vectors
      {
        if list[i] !in vectors { return Some(list[i]); }
        i := i + 1;
      }
      missing := None;
    }
  }

  // ----- nearest-centroid claims after a repeated insert

  /**
   * Inserting a known id with a new vector leaves its list as it was, so the partition stays right exactly
   * when the centroid nearest to the new vector is the recorded one.
   */
  lemma RepeatedInsertIff(score: Score, vecs: map<Id, Vec>, centroids: seq<Vec>, lists: seq<seq<Id>>,
                          cluster: map<Id, nat>, id: Id, vector: Vec)
    requires Partition(score, vecs, centroids, lists, cluster) && id in vecs
    ensures Partition(score, vecs[id := vector], centroids, lists, cluster) <==>
      ClosestTo(score, vector, centroids, cluster[id])
  {
    var now := vecs[id := vector];
    assert now.Keys == vecs.Keys;
    forall i | i in cluster && i != id ensures now[i] == vecs[i] {}
    assert now[id] == vector && now.Keys == vecs.Keys;
  }

  // ----- probing against the exact index

  /** Duplicate-free sequences with the same members are permutations of each other. */
  lemma SameMembersSameMultiset<T(!new)>(a: seq<T>, b: seq<T>)
    requires Distinct(a) && Distinct(b) && forall x :: x in a <==> x in b
    ensures multiset(a) == multiset(b)
  {
    DistinctNoRepeats(a);
    DistinctNoRepeats(b);
    forall x ensures multiset(a)[x] == multiset(b)[x] {
      assert multiset(a)[x] <= 1 && multiset(b)[x] <= 1;
      assert x in multiset(a) <==> x in a;
      assert x in multiset(b) <==> x in b;
    }
  }

  lemma {:induction false} CandidatesMembers(lists: seq<seq<Id>>, cluster: map<Id, nat>, visit: seq<nat>)
    requires Filed(lists, cluster) && Distinct(visit) && forall i :: 0 <= i < |visit| ==> visit[i] < |lists|
    ensures Distinct(Candidates(lists, visit))
    ensures forall id :: id in Candidates(lists, visit) <==> id in cluster && cluster[id] in visit
  {
    if visit != [] {
      var list, rest := lists[visit[0]], Candidates(lists, visit[1..]);
      CandidatesMembers(lists, cluster, visit[1..]);
      assert visit[0] !in visit[1..];
      assert forall c :: c in visit <==> c == visit[0] || c in visit[1..];
      forall i, j | 0 <= i < j < |list + rest| ensures (list + rest)[i] != (list + rest)[j] {
        if i < |list| <= j { assert list[i] in list && rest[j - |list|] in rest; }
      }
    }
  }

  lemma ProbedAll(score: Score, query: Vec, centroids: seq<Vec>, nprobe: nat)
    requires nprobe >= |centroids|
    ensures var visit := Probed(score, query, centroids, nprobe);
            Distinct(visit) && forall c: nat :: c in visit <==> c < |centroids|
  {
    var range, key := Range(|centroids|), CentroidRank(score, query, centroids);
    var visit := Probed(score, query, centroids, nprobe);
    SortSorts(range, key);
    DistinctNoRepeats(range);
    DistinctNoRepeats(visit);
    forall c: nat ensures c in visit <==> c < |centroids| {
      assert c in visit <==> c in multiset(visit);
      assert c in range <==> c in multiset(range);
      if c < |centroids| { assert range[c] == c; }
    }
  }

  /** As many clusters as asked for, if there are so many, and no other centroid scores higher than theirs. */
  lemma ProbedIsBest(score: Score, query: Vec, centroids: seq<Vec>, nprobe: nat)
    ensures ProbesBest(score, query, centroids, nprobe, Probed(score, query, centroids, nprobe))
  {
    var range, key := Range(|centroids|), CentroidRank(score, query, centroids);
    var visit := Probed(score, query, centroids, nprobe);
    BestIsBest<nat>(range, key, nprobe);
    PartOfDistinct<nat>(visit, range);
    forall i | 0 <= i < |visit| ensures visit[i] < |centroids| { assert visit[i] in range; }
    forall c: nat, c': nat | c in visit && c' < |centroids| && c' !in visit
      ensures c < |centroids| && score(query, centroids[c]) >= score(query, centroids[c'])
    {
      assert range[c'] == c' && c' in range;
      var i :| 0 <= i < |visit| && visit[i] == c;
      assert key(visit[i]) <= key(c');
    }
  }

  /** Probing every list gives, rank by rank, the scores of the exact index over the same ids. */
  lemma FullProbeEqualsFlat(score: Score, query: Vec, vecs: map<Id, Vec>, centroids: seq<Vec>, lists: seq<seq<Id>>,
                            cluster: map<Id, nat>, nprobe: nat, flatIds: seq<Id>, k: nat, i: nat)
    requires Partition(score, vecs, centroids, lists, cluster) && nprobe >= |centroids|
    requires Enumerates(flatIds, vecs.Keys)
    ensures var key := Rank(score, query, vecs);
            var ivf := Best(Candidates(lists, Probed(score, query, centroids, nprobe)), key, k);
            var flat := Best(flatIds, key, k);
            |ivf| == |flat| && (i < |ivf| ==> key(ivf[i]) == key(flat[i]))
  {
    var visit := Probed(score, query, centroids, nprobe);
    ProbedAll(score, query, centroids, nprobe);
    assert forall j :: 0 <= j < |visit| ==> visit[j] in visit;
    CandidatesMembers(lists, cluster, visit);
    forall id ensures id in Candidates(lists, visit) <==> id in flatIds {
      if id in cluster { assert cluster[id] < |centroids|; }
    }
    SameMembersSameMultiset(Candidates(lists, visit), flatIds);
    SameScores(Candidates(lists, visit), flatIds, Rank(score, query, vecs), k, i);
  }

  lemma {:induction false} CandidatesPrefix(lists: seq<seq<Id>>, a: seq<nat>, b: seq<nat>)
    ensures Candidates(lists, a + b) == Candidates(lists, a) + Candidates(lists, b)
  {
    if a == [] {
      assert a + b == b;
    } else {
      assert (a + b)[1..] == a[1..] + b;
      CandidatesPrefix(lists, a[1..], b);
    }
  }

  /** Raising nprobe never shortens the result and never lowers the i-th best score. */
  lemma MoreProbesNoWorse(score: Score, query: Vec, vectors: map<Id, Vec>, centroids: seq<Vec>, lists: seq<seq<Id>>,
                          n: nat, m: nat, k: nat, i: nat)
    requires n <= m
    ensures var key := Rank(score, query, vectors);
            var few, many := Best(Candidates(lists, Probed(score, query, centroids, n)), key, k),
                             Best(Candidates(lists, Probed(score, query, centroids, m)), key, k);
            |few| <= |many| && (i < |few| ==> key(many[i]) <= key(few[i]))
  {
    var key := Rank(score, query, vectors);
    var sorted := SortBy(Range(|centroids|), CentroidRank(score, query, centroids));
    var a, b := Take(sorted, n), Take(sorted, m);
    var rest := b[|a|..];
    assert b == a + rest;
    CandidatesPrefix(lists, a, rest);
    var x, y := Candidates(lists, a), Candidates(lists, b);
    assert multiset(y) == multiset(x) + multiset(Candidates(lists, rest));
    SortSorts(x, key);
    SortSorts(y, key);
    if i < |x| { MoreIsNoWorse(x, y, key, i); }
  }
}
