/** Lloyd's iteration in exact arithmetic, and why it never makes the clustering worse. */
module KMeans {
  import opened Types

  ghost predicate SameDim(vs: seq<Vec>, d: nat) { forall i :: 0 <= i < |vs| ==> |vs[i]| == d }

  /** Squared Euclidean distance over the first d coordinates. */
  function SqUpTo(a: Vec, b: Vec, d: nat): (r: real)
    requires d <= |a| && d <= |b|
    ensures r >= 0.0
  {
    if d == 0 then 0.0 else SqUpTo(a, b, d - 1) + (a[d - 1] - b[d - 1]) * (a[d - 1] - b[d - 1])
  }

  function SqDist(a: Vec, b: Vec): (r: real)
    requires |a| == |b|
    ensures r >= 0.0
  {
    SqUpTo(a, b, |a|)
  }

  /** A similarity that falls as the distance grows, as `1 / (1 + dist)` does. */
  ghost predicate Euclidean(score: Score) { forall v, a, b :: FallsWithDistance(score, v, a, b) }

  ghost predicate FallsWithDistance(score: Score, v: Vec, a: Vec, b: Vec) {
    |v| == |a| == |b| ==> (score(v, a) >= score(v, b) <==> SqDist(v, a) <= SqDist(v, b))
  }

  /** The fold of `find_nearest_centroid` over the first n centroids; `max_by` lets a later equal score win. */
  function NearestOf(score: Score, v: Vec, cs: seq<Vec>, n: nat): (r: nat)
    requires n <= |cs|
    ensures n > 0 ==> r < n
  {
    if n <= 1 then 0
    else
      var best := NearestOf(score, v, cs, n - 1);
      if score(v, cs[n - 1]) >= score(v, cs[best]) then n - 1 else best
  }

  function Nearest(score: Score, v: Vec, cs: seq<Vec>): (r: nat)
    ensures cs != [] ==> r < |cs|
  {
    NearestOf(score, v, cs, |cs|)
  }

  /** The chosen centroid scores highest, and strictly higher than every later one. */
  lemma {:induction false} NearestIsBest(score: Score, v: Vec, cs: seq<Vec>, n: nat, j: nat)
    requires j < n <= |cs|
    ensures var r := NearestOf(score, v, cs, n);
            score(v, cs[j]) <= score(v, cs[r]) && (j > r ==> score(v, cs[j]) < score(v, cs[r]))
    decreases n
  {
    if n > 1 {
      var best := NearestOf(score, v, cs, n - 1);
      if j < n - 1 { NearestIsBest(score, v, cs, n - 1, j); }
    }
  }

  function Assign(score: Score, vs: seq<Vec>, cs: seq<Vec>): (r: seq<nat>)
    ensures |r| == |vs| && (cs != [] ==> forall i :: 0 <= i < |r| ==> r[i] < |cs|)
  {
    seq(|vs|, i requires 0 <= i < |vs| => Nearest(score, vs[i], cs))
  }

  /** The members of cluster k among the first n vectors. */
  function MembersOf(vs: seq<Vec>, a: seq<nat>, k: nat, n: nat): (r: seq<Vec>)
    requires |a| == |vs| && n <= |vs|
  {
    if n == 0 then []
    else if a[n - 1] == k then MembersOf(vs, a, k, n - 1) + [vs[n - 1]]
    else MembersOf(vs, a, k, n - 1)
  }

  function Members(vs: seq<Vec>, a: seq<nat>, k: nat): seq<Vec>
    requires |a| == |vs|
  {
    MembersOf(vs, a, k, |vs|)
  }

  lemma {:induction false} MembersDim(vs: seq<Vec>, a: seq<nat>, k: nat, n: nat, d: nat)
    requires |a| == |vs| && n <= |vs| && SameDim(vs, d)
    ensures SameDim(MembersOf(vs, a, k, n), d)
    decreases n
  {
    if n > 0 { MembersDim(vs, a, k, n - 1, d); }
  }

  function ColSum(vs: seq<Vec>, j: nat): real
    requires forall i :: 0 <= i < |vs| ==> j < |vs[i]|
  {
    if vs == [] then 0.0 else vs[0][j] + ColSum(vs[1..], j)
  }

  function Mean(vs: seq<Vec>, d: nat): (r: Vec)
    requires vs != [] && SameDim(vs, d)
    ensures |r| == d
  {
    seq(d, j requires 0 <= j < d => ColSum(vs, j) / (|vs| as real))
  }

  /** The first k centroids moved to the mean of their members; an empty cluster keeps its centroid. */
  function Moved(vs: seq<Vec>, a: seq<nat>, cs: seq<Vec>, d: nat, k: nat): (r: seq<Vec>)
    requires |a| == |vs| && SameDim(vs, d) && SameDim(cs, d) && k <= |cs|
    ensures |r| == |cs| && SameDim(r, d)
    ensures forall i :: k <= i < |cs| ==> r[i] == cs[i]
  {
    if k == 0 then cs
    else
      var group := Members(vs, a, k - 1);
      var before := Moved(vs, a, cs, d, k - 1);
      MembersDim(vs, a, k - 1, |vs|, d);
      if group == [] then before else before[k - 1 := Mean(group, d)]
  }

  function Round(score: Score, vs: seq<Vec>, cs: seq<Vec>, d: nat): (r: seq<Vec>)
    requires SameDim(vs, d) && SameDim(cs, d)
    ensures |r| == |cs| && SameDim(r, d)
  {
    Moved(vs, Assign(score, vs, cs), cs, d, |cs|)
  }

  /** No centroid with members moved further than the fixed similarity threshold. */
  predicate Settled(score: Score, vs: seq<Vec>, a: seq<nat>, cs: seq<Vec>, cs': seq<Vec>)
    requires |a| == |vs| && |cs'| == |cs|
  {
    forall k :: 0 <= k < |cs| && Members(vs, a, k) != [] ==> score(cs[k], cs'[k]) >= 0.99
  }

  /** The iteration of `build_clusters`: rounds until settled or out of iterations. */
  function Iterate(score: Score, vs: seq<Vec>, cs: seq<Vec>, d: nat, fuel: nat): (r: seq<Vec>)
    requires SameDim(vs, d) && SameDim(cs, d)
    ensures |r| == |cs| && SameDim(r, d)
    decreases fuel
  {
    if fuel == 0 then cs
    else
      var cs' := Round(score, vs, cs, d);
      if Settled(score, vs, Assign(score, vs, cs), cs, cs') then cs' else Iterate(score, vs, cs', d, fuel - 1)
  }

  /** Within-cluster sum of squared distances of a given assignment, over the first n vectors. */
  function Total(vs: seq<Vec>, a: seq<nat>, cs: seq<Vec>, d: nat, n: nat): real
    requires |a| == |vs| && n <= |vs| && SameDim(vs, d) && SameDim(cs, d) && forall i :: 0 <= i < |a| ==> a[i] < |cs|
  {
    if n == 0 then 0.0 else Total(vs, a, cs, d, n - 1) + SqDist(vs[n - 1], cs[a[n - 1]])
  }

  /** The cost of a clustering: every vector with its nearest centroid. */
  function Cost(score: Score, vs: seq<Vec>, cs: seq<Vec>, d: nat): real
    requires cs != [] && SameDim(vs, d) && SameDim(cs, d)
  {
    Total(vs, Assign(score, vs, cs), cs, d, |vs|)
  }

  // ----- the mean is the best single centre

  function ColSq(vs: seq<Vec>, j: nat, x: real): real
    requires forall i :: 0 <= i < |vs| ==> j < |vs[i]|
  {
    if vs == [] then 0.0 else (vs[0][j] - x) * (vs[0][j] - x) + ColSq(vs[1..], j, x)
  }

  function Parabola(q: real, s: real, n: real, x: real): real { q - 2.0 * x * s + n * x * x }

  lemma {:induction false} ColExpand(vs: seq<Vec>, j: nat, x: real)
    requires forall i :: 0 <= i < |vs| ==> j < |vs[i]|
    ensures ColSq(vs, j, x) == Parabola(ColSq(vs, j, 0.0), ColSum(vs, j), |vs| as real, x)
  {
    if vs != [] {
      ColExpand(vs[1..], j, x);
      var n, s, v := |vs[1..]| as real, ColSum(vs[1..], j), vs[0][j];
      assert |vs| as real == n + 1.0;
      assert (v - x) * (v - x) == v * v - 2.0 * x * v + x * x;
      assert 2.0 * x * (v + s) == 2.0 * x * v + 2.0 * x * s;
      assert (n + 1.0) * x * x == n * x * x + x * x;
    }
  }

  lemma QuadraticMinimum(q: real, s: real, n: real, m: real, x: real)
    requires n > 0.0 && s == n * m
    ensures Parabola(q, s, n, m) <= Parabola(q, s, n, x)
  {
    var e := x - m;
    assert e * e >= 0.0;
    assert n * (e * e) >= 0.0;
    assert n * (e * e) == n * x * x - 2.0 * x * (n * m) + n * m * m;
    assert 2.0 * m * s == 2.0 * (n * m * m);
  }

  lemma CentreMinimizesColumn(vs: seq<Vec>, j: nat, m: real, x: real)
    requires vs != [] && (forall i :: 0 <= i < |vs| ==> j < |vs[i]|) && ColSum(vs, j) == (|vs| as real) * m
    ensures ColSq(vs, j, m) <= ColSq(vs, j, x)
  {
    var q, s, n := ColSq(vs, j, 0.0), ColSum(vs, j), |vs| as real;
    var atCentre, elsewhere := Parabola(q, s, n, m), Parabola(q, s, n, x);
    assert atCentre <= elsewhere by { QuadraticMinimum(q, s, n, m, x); }
    assert ColSq(vs, j, m) == atCentre by { ColExpand(vs, j, m); }
    assert ColSq(vs, j, x) == elsewhere by { ColExpand(vs, j, x); }
  }

  lemma MeanMinimizesColumn(vs: seq<Vec>, d: nat, j: nat, x: real)
    requires vs != [] && SameDim(vs, d) && j < d
    ensures ColSq(vs, j, Mean(vs, d)[j]) <= ColSq(vs, j, x)
  {
    var m := Mean(vs, d)[j];
    Quotient(ColSum(vs, j), |vs| as real);
    CentreMinimizesColumn(vs, j, m, x);
  }

  function GroupCost(vs: seq<Vec>, c: Vec, d: nat): real
    requires d <= |c| && forall i :: 0 <= i < |vs| ==> d <= |vs[i]|
  {
    if vs == [] then 0.0 else SqUpTo(vs[0], c, d) + GroupCost(vs[1..], c, d)
  }

  lemma {:induction false} GroupCostByColumn(vs: seq<Vec>, c: Vec, d: nat)
    requires d < |c| && forall i :: 0 <= i < |vs| ==> d < |vs[i]|
    ensures GroupCost(vs, c, d + 1) == GroupCost(vs, c, d) + ColSq(vs, d, c[d])
  {
    if vs != [] { GroupCostByColumn(vs[1..], c, d); }
  }

  lemma {:induction false} MeanMinimizes(vs: seq<Vec>, c: Vec, d: nat, e: nat)
    requires vs != [] && SameDim(vs, d) && |c| == d && e <= d
    ensures GroupCost(vs, Mean(vs, d), e) <= GroupCost(vs, c, e)
    decreases e
  {
    if e == 0 {
      NoColumns(vs, Mean(vs, d));
      NoColumns(vs, c);
    } else {
      MeanMinimizes(vs, c, d, e - 1);
      GroupCostByColumn(vs, Mean(vs, d), e - 1);
      GroupCostByColumn(vs, c, e - 1);
      MeanMinimizesColumn(vs, d, e - 1, c[e - 1]);
    }
  }

  lemma {:induction false} NoColumns(vs: seq<Vec>, c: Vec)
    ensures GroupCost(vs, c, 0) == 0.0
  {
    if vs != [] { NoColumns(vs[1..], c); }
  }

  // ----- one round

  lemma {:induction false} GroupCostSnoc(vs: seq<Vec>, v: Vec, c: Vec, d: nat)
    requires d <= |c| && d <= |v| && forall i :: 0 <= i < |vs| ==> d <= |vs[i]|
    ensures GroupCost(vs + [v], c, d) == GroupCost(vs, c, d) + SqUpTo(v, c, d)
  {
    if vs == [] {
      assert ([v])[1..] == [];
    } else {
      assert (vs + [v])[1..] == vs[1..] + [v];
      GroupCostSnoc(vs[1..], v, c, d);
    }
  }

  /** Moving one centroid changes the total by the change of its own members' cost. */
  lemma {:induction false} MoveOne(vs: seq<Vec>, a: seq<nat>, cs: seq<Vec>, d: nat, k: nat, x: Vec, n: nat)
    requires |a| == |vs| && SameDim(vs, d) && SameDim(cs, d) && (forall i :: 0 <= i < |a| ==> a[i] < |cs|)
    requires k < |cs| && |x| == d && n <= |vs|
    ensures SameDim(cs[k := x], d) && SameDim(MembersOf(vs, a, k, n), d)
    ensures Total(vs, a, cs[k := x], d, n) - Total(vs, a, cs, d, n)
            == GroupCost(MembersOf(vs, a, k, n), x, d) - GroupCost(MembersOf(vs, a, k, n), cs[k], d)
    decreases n
  {
    if n > 0 {
      MoveOne(vs, a, cs, d, k, x, n - 1);
      MembersDim(vs, a, k, n, d);
      if a[n - 1] == k {
        var group := MembersOf(vs, a, k, n - 1);
        GroupCostSnoc(group, vs[n - 1], x, d);
        GroupCostSnoc(group, vs[n - 1], cs[k], d);
      }
    }
  }

  lemma {:induction false} MovingToMeansHelps(vs: seq<Vec>, a: seq<nat>, cs: seq<Vec>, d: nat, k: nat)
    requires |a| == |vs| && SameDim(vs, d) && SameDim(cs, d) && (forall i :: 0 <= i < |a| ==> a[i] < |cs|)
    requires k <= |cs|
    ensures Total(vs, a, Moved(vs, a, cs, d, k), d, |vs|) <= Total(vs, a, cs, d, |vs|)
    decreases k
  {
    if k > 0 {
      MovingToMeansHelps(vs, a, cs, d, k - 1);
      var group, before := Members(vs, a, k - 1), Moved(vs, a, cs, d, k - 1);
      MembersDim(vs, a, k - 1, |vs|, d);
      if group != [] {
        MoveOne(vs, a, before, d, k - 1, Mean(group, d), |vs|);
        MeanMinimizes(group, before[k - 1], d, d);
      }
    }
  }

  /** Assigning every vector to its nearest centroid is the cheapest assignment. */
  lemma {:induction false} NearestIsCheapest(score: Score, vs: seq<Vec>, a: seq<nat>, cs: seq<Vec>, d: nat, n: nat)
    requires Euclidean(score) && cs != [] && n <= |vs|
    requires |a| == |vs| && SameDim(vs, d) && SameDim(cs, d) && forall i :: 0 <= i < |a| ==> a[i] < |cs|
    ensures Total(vs, Assign(score, vs, cs), cs, d, n) <= Total(vs, a, cs, d, n)
    decreases n
  {
    if n > 0 {
      NearestIsCheapest(score, vs, a, cs, d, n - 1);
      NearestIsBest(score, vs[n - 1], cs, |cs|, a[n - 1]);
      assert FallsWithDistance(score, vs[n - 1], cs[Nearest(score, vs[n - 1], cs)], cs[a[n - 1]]);
    }
  }

  /** One assign-then-mean round, followed by reassignment, never increases the cost. */
  lemma RoundNeverWorse(score: Score, vs: seq<Vec>, cs: seq<Vec>, d: nat)
    requires Euclidean(score) && cs != [] && SameDim(vs, d) && SameDim(cs, d)
    ensures Cost(score, vs, Round(score, vs, cs, d), d) <= Cost(score, vs, cs, d)
  {
    var a := Assign(score, vs, cs);
    MovingToMeansHelps(vs, a, cs, d, |cs|);
    NearestIsCheapest(score, vs, a, Round(score, vs, cs, d), d, |vs|);
  }

  /** n rounds from the given centroids. */
  function Rounds(score: Score, vs: seq<Vec>, cs: seq<Vec>, d: nat, n: nat): (r: seq<Vec>)
    requires SameDim(vs, d) && SameDim(cs, d)
    ensures |r| == |cs| && SameDim(r, d)
    decreases n
  {
    if n == 0 then cs else Rounds(score, vs, Round(score, vs, cs, d), d, n - 1)
  }

  lemma {:induction false} IterateIsRounds(score: Score, vs: seq<Vec>, cs: seq<Vec>, d: nat, fuel: nat) returns (n: nat)
    requires SameDim(vs, d) && SameDim(cs, d)
    ensures n <= fuel && Iterate(score, vs, cs, d, fuel) == Rounds(score, vs, cs, d, n)
    decreases fuel
  {
    if fuel == 0 { return 0; }
    var next := Round(score, vs, cs, d);
    if Settled(score, vs, Assign(score, vs, cs), cs, next) {
      assert Rounds(score, vs, cs, d, 1) == Rounds(score, vs, next, d, 0);
      return 1;
    }
    n := IterateIsRounds(score, vs, next, d, fuel - 1);
    n := n + 1;
  }

  lemma {:induction false} RoundsNeverWorse(score: Score, vs: seq<Vec>, cs: seq<Vec>, d: nat, n: nat)
    requires Euclidean(score) && cs != [] && SameDim(vs, d) && SameDim(cs, d)
    ensures Cost(score, vs, Rounds(score, vs, cs, d, n), d) <= Cost(score, vs, cs, d)
    decreases n
  {
    if n > 0 {
      RoundNeverWorse(score, vs, cs, d);
      RoundsNeverWorse(score, vs, Round(score, vs, cs, d), d, n - 1);
    }
  }

  /** The whole iteration, final assignment included, never ends worse than it starts. */
  lemma IterateNeverWorse(score: Score, vs: seq<Vec>, cs: seq<Vec>, d: nat, fuel: nat)
    requires Euclidean(score) && cs != [] && SameDim(vs, d) && SameDim(cs, d)
    ensures Cost(score, vs, Iterate(score, vs, cs, d, fuel), d) <= Cost(score, vs, cs, d)
  {
    var n := IterateIsRounds(score, vs, cs, d, fuel);
    RoundsNeverWorse(score, vs, cs, d, n);
  }

  // ----- what a round and a run of rounds are, apart from how they are computed

  /** Centroid k scores highest for v; of several that do, it is the last. */
  ghost predicate ClosestTo(score: Score, v: Vec, cs: seq<Vec>, k: nat) {
    k < |cs| && Unbeaten(score, v, cs, k, |cs|)
  }

  /** None of the first n centroids scores higher, and none after k as high. */
  ghost predicate Unbeaten(score: Score, v: Vec, cs: seq<Vec>, k: nat, n: nat)
    requires k < |cs| && n <= |cs|
  {
    n == 0 ||
    (Unbeaten(score, v, cs, k, n - 1) &&
     if n - 1 <= k then score(v, cs[n - 1]) <= score(v, cs[k]) else score(v, cs[n - 1]) < score(v, cs[k]))
  }

  lemma {:induction false} UnbeatenIff(score: Score, v: Vec, cs: seq<Vec>, k: nat, n: nat)
    requires k < n <= |cs|
    ensures Unbeaten(score, v, cs, k, n) <==> k == NearestOf(score, v, cs, n)
  {
    forall j | 0 <= j < n ensures score(v, cs[j]) <= score(v, cs[NearestOf(score, v, cs, n)])
      && (j > NearestOf(score, v, cs, n) ==> score(v, cs[j]) < score(v, cs[NearestOf(score, v, cs, n)])) {
      NearestIsBest(score, v, cs, n, j);
    }
    UnbeatenMeans(score, v, cs, k, n);
  }

  lemma {:induction false} UnbeatenMeans(score: Score, v: Vec, cs: seq<Vec>, k: nat, n: nat)
    requires k < |cs| && n <= |cs|
    ensures Unbeaten(score, v, cs, k, n) <==>
            forall j :: 0 <= j < n ==>
              if j <= k then score(v, cs[j]) <= score(v, cs[k]) else score(v, cs[j]) < score(v, cs[k])
  {
    if n > 0 { UnbeatenMeans(score, v, cs, k, n - 1); }
  }

  lemma ClosestIff(score: Score, v: Vec, cs: seq<Vec>, k: nat)
    requires cs != []
    ensures ClosestTo(score, v, cs, k) <==> k == Nearest(score, v, cs)
  {
    if k < |cs| { UnbeatenIff(score, v, cs, k, |cs|); }
  }

  ghost predicate HasMembers(score: Score, vs: seq<Vec>, cs: seq<Vec>, k: nat) {
    exists i :: 0 <= i < |vs| && ClosestTo(score, vs[i], cs, k)
  }

  /** The summed squared distances to x of those of the first n vectors that belong to centroid k. */
  ghost function CostAround(score: Score, vs: seq<Vec>, cs: seq<Vec>, k: nat, x: Vec, n: nat): real
    requires n <= |vs| && SameDim(vs, |x|)
  {
    if n == 0 then 0.0
    else
      var here := if ClosestTo(score, vs[n - 1], cs, k) then SqDist(vs[n - 1], x) else 0.0;
      CostAround(score, vs, cs, k, x, n - 1) + here
  }

  /** Every centroid with members now is where their cost is least, and every other one is where it was. */
  ghost predicate RoundOf(score: Score, vs: seq<Vec>, cs: seq<Vec>, next: seq<Vec>, d: nat)
    requires SameDim(vs, d)
  {
    |next| == |cs| && forall k {:trigger next[k]} :: 0 <= k < |cs| ==> CentroidMoved(score, vs, cs, k, next[k], d)
  }

  ghost predicate CentroidMoved(score: Score, vs: seq<Vec>, cs: seq<Vec>, k: nat, c: Vec, d: nat)
    requires SameDim(vs, d) && k < |cs|
  {
    if !HasMembers(score, vs, cs, k) then c == cs[k]
    else |c| == d && forall x: Vec :: |x| == d ==>
      CostAround(score, vs, cs, k, c, |vs|) <= CostAround(score, vs, cs, k, x, |vs|)
  }

  /** No centroid with members moved further than the fixed similarity threshold. */
  ghost predicate AllSettled(score: Score, vs: seq<Vec>, cs: seq<Vec>, next: seq<Vec>)
    requires |next| == |cs|
  {
    forall k {:trigger next[k]} :: 0 <= k < |cs| && HasMembers(score, vs, cs, k) ==> score(cs[k], next[k]) >= 0.99
  }

  /** Rounds up to the first in which all settled, or as many as allowed. */
  ghost predicate LloydRun(score: Score, vs: seq<Vec>, trail: seq<seq<Vec>>, d: nat, maxRounds: nat)
    requires SameDim(vs, d)
  {
    && 0 < |trail| <= maxRounds + 1
    && (forall i :: 0 <= i < |trail| - 1 ==> RoundOf(score, vs, trail[i], trail[i + 1], d))
    && (forall i :: 0 <= i < |trail| - 2 ==> !AllSettled(score, vs, trail[i], trail[i + 1]))
    && (|trail| < maxRounds + 1 ==>
          |trail| >= 2 && AllSettled(score, vs, trail[|trail| - 2], trail[|trail| - 1]))
  }

  lemma {:induction false} MembersAre(score: Score, vs: seq<Vec>, cs: seq<Vec>, k: nat, x: Vec, n: nat)
    requires cs != [] && n <= |vs| && SameDim(vs, |x|)
    ensures var group := MembersOf(vs, Assign(score, vs, cs), k, n);
            && (group != [] <==> exists i :: 0 <= i < n && ClosestTo(score, vs[i], cs, k))
            && SameDim(group, |x|) && CostAround(score, vs, cs, k, x, n) == GroupCost(group, x, |x|)
    decreases n
  {
    MembersDim(vs, Assign(score, vs, cs), k, n, |x|);
    if n > 0 {
      MembersAre(score, vs, cs, k, x, n - 1);
      ClosestIff(score, vs[n - 1], cs, k);
      MembersDim(vs, Assign(score, vs, cs), k, n - 1, |x|);
      GroupCostSnoc(MembersOf(vs, Assign(score, vs, cs), k, n - 1), vs[n - 1], x, |x|);
    }
  }

  lemma {:induction false} MovedAt(vs: seq<Vec>, a: seq<nat>, cs: seq<Vec>, d: nat, m: nat, k: nat)
    requires |a| == |vs| && SameDim(vs, d) && SameDim(cs, d) && k < m <= |cs|
    ensures var group := Members(vs, a, k);
            SameDim(group, d) && Moved(vs, a, cs, d, m)[k] == if group == [] then cs[k] else Mean(group, d)
    decreases m
  {
    MembersDim(vs, a, k, |vs|, d);
    if k < m - 1 { MovedAt(vs, a, cs, d, m - 1, k); }
  }

  lemma MovedIsBest(score: Score, vs: seq<Vec>, cs: seq<Vec>, d: nat, k: nat)
    requires cs != [] && SameDim(vs, d) && SameDim(cs, d) && k < |cs|
    ensures CentroidMoved(score, vs, cs, k, Round(score, vs, cs, d)[k], d)
    ensures HasMembers(score, vs, cs, k) <==> Members(vs, Assign(score, vs, cs), k) != []
  {
    var group := Members(vs, Assign(score, vs, cs), k);
    MovedAt(vs, Assign(score, vs, cs), cs, d, |cs|, k);
    MembersAre(score, vs, cs, k, cs[k], |vs|);
    if group != [] {
      var c := Mean(group, d);
      MembersAre(score, vs, cs, k, c, |vs|);
      forall x: Vec | |x| == d
        ensures CostAround(score, vs, cs, k, c, |vs|) <= CostAround(score, vs, cs, k, x, |vs|)
      {
        MembersAre(score, vs, cs, k, x, |vs|);
        MeanMinimizes(group, x, d, d);
      }
    }
  }

  lemma RoundIs(score: Score, vs: seq<Vec>, cs: seq<Vec>, d: nat)
    requires cs != [] && SameDim(vs, d) && SameDim(cs, d)
    ensures var next := Round(score, vs, cs, d);
            && RoundOf(score, vs, cs, next, d)
            && (Settled(score, vs, Assign(score, vs, cs), cs, next) <==> AllSettled(score, vs, cs, next))
  {
    forall k | 0 <= k < |cs|
      ensures CentroidMoved(score, vs, cs, k, Round(score, vs, cs, d)[k], d)
      ensures HasMembers(score, vs, cs, k) <==> Members(vs, Assign(score, vs, cs), k) != []
    {
      MovedIsBest(score, vs, cs, d, k);
    }
  }

  lemma IterateStep(score: Score, vs: seq<Vec>, cs: seq<Vec>, d: nat, fuel: nat) returns (next: seq<Vec>, last: bool)
    requires fuel > 0 && SameDim(vs, d) && SameDim(cs, d)
    ensures next == Round(score, vs, cs, d) && last == Settled(score, vs, Assign(score, vs, cs), cs, next)
    ensures Iterate(score, vs, cs, d, fuel) == if last then next else Iterate(score, vs, next, d, fuel - 1)
  {
    next := Round(score, vs, cs, d);
    last := Settled(score, vs, Assign(score, vs, cs), cs, next);
  }

  /** One round that settles, or none when none is allowed. */
  lemma ShortRun(score: Score, vs: seq<Vec>, cs: seq<Vec>, next: seq<Vec>, d: nat, fuel: nat)
    requires SameDim(vs, d)
    ensures fuel == 0 ==> LloydRun(score, vs, [cs], d, fuel)
    ensures fuel > 0 && RoundOf(score, vs, cs, next, d) && AllSettled(score, vs, cs, next) ==>
      LloydRun(score, vs, [cs, next], d, fuel)
  {}

  lemma RunCons(score: Score, vs: seq<Vec>, cs: seq<Vec>, rest: seq<seq<Vec>>, d: nat, fuel: nat)
    requires SameDim(vs, d) && fuel > 0 && LloydRun(score, vs, rest, d, fuel - 1)
    requires RoundOf(score, vs, cs, rest[0], d) && !AllSettled(score, vs, cs, rest[0])
    ensures LloydRun(score, vs, [cs] + rest, d, fuel)
  {
    var trail := [cs] + rest;
    forall i | 0 <= i < |trail| - 1
      ensures RoundOf(score, vs, trail[i], trail[i + 1], d)
      ensures i < |trail| - 2 ==> !AllSettled(score, vs, trail[i], trail[i + 1])
    {
      if i > 0 { assert trail[i] == rest[i - 1] && trail[i + 1] == rest[i]; }
    }
  }

  /** Some run of rounds leads from the one to the other. */
  ghost predicate RunsTo(score: Score, vs: seq<Vec>, cs: seq<Vec>, end: seq<Vec>, d: nat, maxRounds: nat)
    requires SameDim(vs, d)
  {
    exists trail :: LloydRun(score, vs, trail, d, maxRounds) && trail[0] == cs && trail[|trail| - 1] == end
  }

  lemma IterateRuns(score: Score, vs: seq<Vec>, cs: seq<Vec>, d: nat, maxRounds: nat)
    requires cs != [] && SameDim(vs, d) && SameDim(cs, d)
    ensures RunsTo(score, vs, cs, Iterate(score, vs, cs, d, maxRounds), d, maxRounds)
  {
    var trail := IterateIsRun(score, vs, cs, d, maxRounds);
  }

  /** The iteration is such a run: it stops at the first round in which all settled, and not before. */
  lemma {:induction false} IterateIsRun(score: Score, vs: seq<Vec>, cs: seq<Vec>, d: nat, fuel: nat)
    returns (trail: seq<seq<Vec>>)
    requires cs != [] && SameDim(vs, d) && SameDim(cs, d)
    ensures LloydRun(score, vs, trail, d, fuel)
    ensures trail[0] == cs && trail[|trail| - 1] == Iterate(score, vs, cs, d, fuel)
    decreases fuel
  {
    if fuel == 0 {
      ShortRun(score, vs, cs, cs, d, fuel);
      trail := [cs];
    } else {
      var next, last := IterateStep(score, vs, cs, d, fuel);
      if last {
        trail := LastRound(score, vs, cs, d, fuel);
      } else {
        var rest := IterateIsRun(score, vs, next, d, fuel - 1);
        trail := OneMoreRound(score, vs, cs, rest, d, fuel);
      }
    }
  }

  lemma LastRound(score: Score, vs: seq<Vec>, cs: seq<Vec>, d: nat, fuel: nat) returns (trail: seq<seq<Vec>>)
    requires cs != [] && SameDim(vs, d) && SameDim(cs, d) && fuel > 0
    requires Settled(score, vs, Assign(score, vs, cs), cs, Round(score, vs, cs, d))
    ensures LloydRun(score, vs, trail, d, fuel)
    ensures trail[0] == cs && trail[|trail| - 1] == Round(score, vs, cs, d)
  {
    RoundIs(score, vs, cs, d);
    trail := [cs, Round(score, vs, cs, d)];
    ShortRun(score, vs, cs, trail[1], d, fuel);
  }

  lemma OneMoreRound(score: Score, vs: seq<Vec>, cs: seq<Vec>, rest: seq<seq<Vec>>, d: nat, fuel: nat)
    returns (trail: seq<seq<Vec>>)
    requires cs != [] && SameDim(vs, d) && SameDim(cs, d) && fuel > 0
    requires LloydRun(score, vs, rest, d, fuel - 1) && rest[0] == Round(score, vs, cs, d)
    requires !Settled(score, vs, Assign(score, vs, cs), cs, rest[0])
    ensures LloydRun(score, vs, trail, d, fuel)
    ensures trail[0] == cs && trail[|trail| - 1] == rest[|rest| - 1]
  {
    RoundIs(score, vs, cs, d);
    RunCons(score, vs, cs, rest, d, fuel);
    trail := [cs] + rest;
  }
}
