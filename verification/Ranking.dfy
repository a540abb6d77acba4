/** Stable sorting by a key and the best-k prefix, as every search path uses them. */
module Ranking {
  import opened Types

  predicate Ascending<T>(xs: seq<T>, key: T -> real) {
    forall i, j :: 0 <= i < j < |xs| ==> key(xs[i]) <= key(xs[j])
  }

  function Place<T>(x: T, ys: seq<T>, key: T -> real): seq<T> {
    if ys == [] then [x]
    else if key(x) <= key(ys[0]) then [x] + ys
    else [ys[0]] + Place(x, ys[1..], key)
  }

  /** A stable sort: elements with equal keys keep their order. */
  function SortBy<T>(xs: seq<T>, key: T -> real): seq<T> {
    if xs == [] then [] else Place(xs[0], SortBy(xs[1..], key), key)
  }

  function Take<T>(xs: seq<T>, k: nat): (r: seq<T>)
    ensures r <= xs && |r| == if k < |xs| then k else |xs|
  {
    if k < |xs| then xs[..k] else xs
  }

  function Best<T>(xs: seq<T>, key: T -> real, k: nat): seq<T> { Take(SortBy(xs, key), k) }

  function Filter<T>(xs: seq<T>, keep: T -> bool): seq<T> {
    if xs == [] then []
    else if keep(xs[0]) then [xs[0]] + Filter(xs[1..], keep)
    else Filter(xs[1..], keep)
  }

  function Not(id: Id): Id -> bool { (x: Id) => x != id }

  /** `Vec::retain`. */
  method Retain<T>(list: seq<T>, keep: T -> bool) returns (kept: seq<T>)
    ensures kept == Filter(list, keep)
  {
    kept := [];
    var rest := list;
    while rest != []
      invariant kept + Filter(rest, keep) == Filter(list, keep)
      decreases |rest|
    {
      if keep(rest[0]) { kept := kept + [rest[0]]; }
      rest := rest[1..];
    }
  }

  // ----- the sort

  lemma {:induction false} PlaceAdds<T>(x: T, ys: seq<T>, key: T -> real)
    ensures multiset(Place(x, ys, key)) == multiset{x} + multiset(ys)
  {
    if ys != [] && key(x) > key(ys[0]) {
      PlaceAdds(x, ys[1..], key);
      assert ys == [ys[0]] + ys[1..];
    }
  }

  lemma {:induction false} PlaceBounded<T>(x: T, ys: seq<T>, key: T -> real, low: real)
    requires low <= key(x) && forall i :: 0 <= i < |ys| ==> low <= key(ys[i])
    ensures forall i :: 0 <= i < |Place(x, ys, key)| ==> low <= key(Place(x, ys, key)[i])
  {
    if ys != [] && key(x) > key(ys[0]) { PlaceBounded(x, ys[1..], key, low); }
  }

  lemma {:induction false} PlaceSorts<T>(x: T, ys: seq<T>, key: T -> real)
    requires Ascending(ys, key)
    ensures Ascending(Place(x, ys, key), key)
  {
    if ys != [] && key(x) > key(ys[0]) {
      PlaceSorts(x, ys[1..], key);
      PlaceBounded(x, ys[1..], key, key(ys[0]));
    }
  }

  lemma {:induction false} SortSorts<T>(xs: seq<T>, key: T -> real)
    ensures Ascending(SortBy(xs, key), key)
    ensures multiset(SortBy(xs, key)) == multiset(xs)
    ensures |SortBy(xs, key)| == |xs|
  {
    if xs != [] {
      SortSorts(xs[1..], key);
      PlaceSorts(xs[0], SortBy(xs[1..], key), key);
      PlaceAdds(xs[0], SortBy(xs[1..], key), key);
      assert xs == [xs[0]] + xs[1..];
      assert |multiset(SortBy(xs, key))| == |multiset(xs)|;
    }
  }

  lemma {:induction false} SortOfSorted<T>(xs: seq<T>, key: T -> real)
    requires Ascending(xs, key)
    ensures SortBy(xs, key) == xs
  {
    if xs != [] { SortOfSorted(xs[1..], key); }
  }

  // ----- filtering commutes with stable sorting

  lemma {:induction false} FilterPlace<T>(x: T, ys: seq<T>, key: T -> real, keep: T -> bool)
    requires Ascending(ys, key)
    ensures Filter(Place(x, ys, key), keep) == if keep(x) then Place(x, Filter(ys, keep), key) else Filter(ys, keep)
  {
    if ys != [] {
      if key(x) <= key(ys[0]) {
        assert ([x] + ys)[1..] == ys;
        PlaceFirst(x, Filter(ys, keep), key) by { FilterMembers(ys, keep); }
      } else {
        var rest := Place(x, ys[1..], key);
        assert ([ys[0]] + rest)[1..] == rest;
        FilterPlace(x, ys[1..], key, keep);
        if keep(ys[0]) {
          var tail := Filter(ys[1..], keep);
          assert ([ys[0]] + tail)[1..] == tail;
        }
      }
    }
  }

  lemma PlaceFirst<T>(x: T, ys: seq<T>, key: T -> real)
    requires forall i :: 0 <= i < |ys| ==> key(x) <= key(ys[i])
    ensures Place(x, ys, key) == [x] + ys
  {}

  lemma {:induction false} KeepAll<T>(list: seq<T>, keep: T -> bool)
    requires forall x :: x in list ==> keep(x)
    ensures Filter(list, keep) == list
  {
    if list != [] { KeepAll(list[1..], keep); }
  }

  lemma FilterCons<T>(x: T, xs: seq<T>, keep: T -> bool)
    ensures Filter([x] + xs, keep) == if keep(x) then [x] + Filter(xs, keep) else Filter(xs, keep)
  {
    assert ([x] + xs)[1..] == xs;
  }

  lemma {:induction false} InFilter<T>(xs: seq<T>, keep: T -> bool, x: T)
    requires x in xs && keep(x)
    ensures x in Filter(xs, keep)
  {
    if xs[0] != x { InFilter(xs[1..], keep, x); }
  }

  lemma {:induction false} FilterMembers<T>(xs: seq<T>, keep: T -> bool)
    ensures forall i :: 0 <= i < |Filter(xs, keep)| ==> Filter(xs, keep)[i] in xs && keep(Filter(xs, keep)[i])
    ensures |Filter(xs, keep)| <= |xs|
  {
    if xs != [] { FilterMembers(xs[1..], keep); }
  }

  lemma {:induction false} FilterDistinct(xs: seq<Id>, keep: Id -> bool)
    requires Distinct(xs)
    ensures Distinct(Filter(xs, keep))
    ensures forall x :: x in Filter(xs, keep) <==> x in xs && keep(x)
  {
    if xs != [] { FilterDistinct(xs[1..], keep); }
  }

  lemma {:induction false} FilterSort<T>(xs: seq<T>, key: T -> real, keep: T -> bool)
    ensures Filter(SortBy(xs, key), keep) == SortBy(Filter(xs, keep), key)
  {
    if xs != [] {
      FilterSort(xs[1..], key, keep);
      SortSorts(xs[1..], key);
      FilterPlace(xs[0], SortBy(xs[1..], key), key, keep);
      if keep(xs[0]) {
        var tail := Filter(xs[1..], keep);
        assert ([xs[0]] + tail)[1..] == tail;
      }
    }
  }

  lemma {:induction false} FilterPrefix<T>(a: seq<T>, b: seq<T>, keep: T -> bool)
    ensures Filter(a + b, keep) == Filter(a, keep) + Filter(b, keep)
  {
    if a == [] {
      assert a + b == b;
    } else {
      assert (a + b)[1..] == a[1..] + b;
      FilterPrefix(a[1..], b, keep);
    }
  }

  // ----- ranks by counting

  function CountUpTo<T>(xs: seq<T>, key: T -> real, t: real): (n: nat)
    ensures n <= |xs|
  {
    if xs == [] then 0 else (if key(xs[0]) <= t then 1 else 0) + CountUpTo(xs[1..], key, t)
  }

  lemma {:induction false} CountAppend<T>(a: seq<T>, b: seq<T>, key: T -> real, t: real)
    ensures CountUpTo(a + b, key, t) == CountUpTo(a, key, t) + CountUpTo(b, key, t)
  {
    if a == [] {
      assert a + b == b;
    } else {
      assert (a + b)[1..] == a[1..] + b;
      CountAppend(a[1..], b, key, t);
    }
  }

  /** Splits a sequence around one occurrence of a member. */
  lemma SplitAt<T>(xs: seq<T>, x: T) returns (l: seq<T>, r: seq<T>)
    requires x in multiset(xs)
    ensures xs == l + ([x] + r) && multiset(xs) == multiset{x} + multiset(l + r)
  {
    var i :| 0 <= i < |xs| && xs[i] == x;
    l, r := xs[..i], xs[i + 1..];
    assert xs == l + ([x] + r);
    assert multiset(xs) == multiset(l) + (multiset{x} + multiset(r));
  }

  lemma Cancel<T>(x: T, a: multiset<T>, b: multiset<T>)
    requires multiset{x} + a <= multiset{x} + b
    ensures a <= b
  {
    forall y ensures a[y] <= b[y] {
      assert (multiset{x} + a)[y] <= (multiset{x} + b)[y];
    }
  }

  lemma {:induction false} CountOfSubset<T>(a: seq<T>, b: seq<T>, key: T -> real, t: real)
    requires multiset(a) <= multiset(b)
    ensures CountUpTo(a, key, t) <= CountUpTo(b, key, t)
  {
    if a != [] {
      var x, tail := a[0], a[1..];
      assert a == [x] + tail;
      assert multiset(a) == multiset{x} + multiset(tail);
      assert x in multiset(a);
      var l, r := SplitAt(b, x);
      Cancel(x, multiset(tail), multiset(l + r));
      CountOfSubset(tail, l + r, key, t);
      CountAppend(l, r, key, t);
      CountAppend(l, [x] + r, key, t);
      assert ([x] + r)[1..] == r;
    }
  }

  /** In an ascending sequence the i-th key is at most t exactly when more than i keys are. */
  lemma {:induction false} RankByCount<T>(xs: seq<T>, key: T -> real, t: real, i: nat)
    requires Ascending(xs, key) && i < |xs|
    ensures key(xs[i]) <= t <==> CountUpTo(xs, key, t) > i
  {
    if key(xs[0]) > t {
      NoneUpTo(xs, key, t);
    } else if i > 0 {
      RankByCount(xs[1..], key, t, i - 1);
    }
  }

  lemma {:induction false} NoneUpTo<T>(xs: seq<T>, key: T -> real, t: real)
    requires forall i :: 0 <= i < |xs| ==> key(xs[i]) > t
    ensures CountUpTo(xs, key, t) == 0
  {
    if xs != [] { NoneUpTo(xs[1..], key, t); }
  }

  /** More candidates never make the i-th best worse. */
  lemma MoreIsNoWorse<T>(a: seq<T>, b: seq<T>, key: T -> real, i: nat)
    requires multiset(a) <= multiset(b) && i < |a|
    ensures |SortBy(a, key)| == |a| <= |SortBy(b, key)| == |b|
    ensures key(SortBy(b, key)[i]) <= key(SortBy(a, key)[i])
  {
    var sa, sb := SortBy(a, key), SortBy(b, key);
    SortSorts(a, key);
    SortSorts(b, key);
    assert |multiset(a)| <= |multiset(b)| by { assert multiset(b) == multiset(a) + (multiset(b) - multiset(a)); }
    var t := key(sa[i]);
    RankByCount(sa, key, t, i);
    CountOfSubset(sa, sb, key, t);
    RankByCount(sb, key, t, i);
  }

  /** The same candidates in any order give the same scores, rank by rank. */
  lemma SameScores<T>(a: seq<T>, b: seq<T>, key: T -> real, k: nat, i: nat)
    requires multiset(a) == multiset(b)
    ensures |Best(a, key, k)| == |Best(b, key, k)|
    ensures i < |Best(a, key, k)| ==> key(Best(a, key, k)[i]) == key(Best(b, key, k)[i])
  {
    SortSorts(a, key);
    SortSorts(b, key);
    assert |a| == |multiset(a)| == |multiset(b)| == |b|;
    if i < |a| {
      MoreIsNoWorse(a, b, key, i);
      MoreIsNoWorse(b, a, key, i);
    }
  }

  /** `Best` picks k elements in key order, none of which is beaten by an element left out. */
  lemma BestIsBest<T>(xs: seq<T>, key: T -> real, k: nat)
    ensures var best := Best(xs, key, k);
            && |best| == (if k < |xs| then k else |xs|) && Ascending(best, key)
            && multiset(best) <= multiset(xs)
            && forall x, i :: x in multiset(xs) - multiset(best) && 0 <= i < |best| ==> key(best[i]) <= key(x)
  {
    var sorted := SortBy(xs, key);
    SortSorts(xs, key);
    var best := Best(xs, key, k);
    var rest := sorted[|best|..];
    assert sorted == best + rest;
    Rest(xs, best, rest);
    FrontAscends(best, rest, key);
    FrontBeatsRest(best, rest, key);
  }

  lemma FrontBeatsRest<T>(front: seq<T>, rest: seq<T>, key: T -> real)
    requires Ascending(front + rest, key)
    ensures forall x, i :: x in multiset(rest) && 0 <= i < |front| ==> key(front[i]) <= key(x)
  {
    forall x, i | x in multiset(rest) && 0 <= i < |front| ensures key(front[i]) <= key(x) {
      FrontIsBetter(front, rest, key, i, x);
    }
  }

  /** What a front part leaves out is what stands behind it. */
  lemma Rest<T>(xs: seq<T>, front: seq<T>, rest: seq<T>)
    requires multiset(front + rest) == multiset(xs)
    ensures multiset(front) <= multiset(xs) && multiset(xs) - multiset(front) == multiset(rest)
  {
    assert multiset(xs) == multiset(front) + multiset(rest);
  }

  lemma FrontAscends<T>(front: seq<T>, rest: seq<T>, key: T -> real)
    requires Ascending(front + rest, key)
    ensures Ascending(front, key)
  {
    forall i, j | 0 <= i < j < |front| ensures key(front[i]) <= key(front[j]) {
      assert (front + rest)[i] == front[i] && (front + rest)[j] == front[j];
    }
  }

  lemma FrontIsBetter<T>(front: seq<T>, rest: seq<T>, key: T -> real, i: nat, x: T)
    requires Ascending(front + rest, key) && i < |front| && x in multiset(rest)
    ensures key(front[i]) <= key(x)
  {
    var j :| 0 <= j < |rest| && rest[j] == x;
    assert (front + rest)[i] == front[i] && (front + rest)[|front| + j] == x;
  }

  /**
   * `best` are k of `all`, or all of them if there are no more: in order of falling score, and none of what is left
   * out scores higher than any of them.
   */
  ghost predicate TopOf<T(!new)>(all: seq<T>, best: seq<T>, k: nat, score: T -> real) {
    && |best| == (if k < |all| then k else |all|) && multiset(best) <= multiset(all)
    && (forall i, j :: 0 <= i < j < |best| ==> score(best[i]) >= score(best[j]))
    && forall x, i :: x in multiset(all) - multiset(best) && 0 <= i < |best| ==> score(best[i]) >= score(x)
  }

  /** Sorting by the negated score and cutting gives the top. */
  lemma BestIsTop<T(!new)>(all: seq<T>, key: T -> real, k: nat, score: T -> real)
    requires forall x :: x in all ==> key(x) == -score(x)
    ensures TopOf(all, Best(all, key, k), k, score)
  {
    var best := Best(all, key, k);
    BestIsBest(all, key, k);
    forall i | 0 <= i < |best| ensures key(best[i]) == -score(best[i]) {
      assert best[i] in multiset(best);
      assert best[i] in multiset(all);
    }
    forall x, i | x in multiset(all) - multiset(best) && 0 <= i < |best| ensures score(best[i]) >= score(x) {
      assert x in multiset(all);
    }
  }

  // ----- duplicate-free sequences

  ghost predicate NoRepeats<T(!new)>(m: multiset<T>) { forall x :: m[x] <= 1 }

  lemma {:induction false} DistinctNoRepeats<T(!new)>(xs: seq<T>)
    ensures Distinct(xs) <==> NoRepeats(multiset(xs))
  {
    if xs != [] {
      var n := |xs| - 1;
      var front, last := xs[..n], xs[n];
      assert xs == front + [last];
      assert multiset(xs) == multiset(front) + multiset{last};
      DistinctNoRepeats(front);
      if Distinct(xs) {
        assert last !in front;
        forall x ensures multiset(xs)[x] <= 1 { assert multiset(front)[x] <= 1; }
      } else if NoRepeats(multiset(xs)) {
        assert multiset(xs)[last] <= 1;
        assert last !in multiset(front);
        forall x ensures multiset(front)[x] <= 1 { assert multiset(xs)[x] <= 1; }
        assert false;
      }
    }
  }

  lemma PartOfDistinct<T(!new)>(part: seq<T>, all: seq<T>)
    requires multiset(part) <= multiset(all) && Distinct(all)
    ensures Distinct(part) && forall x :: x in part ==> x in all
    ensures forall x :: x in all && x !in part ==> x in multiset(all) - multiset(part)
  {
    DistinctNoRepeats(all);
    forall x ensures multiset(part)[x] <= 1 { assert multiset(part)[x] <= multiset(all)[x]; }
    DistinctNoRepeats(part);
    forall x | x in part ensures x in all { assert x in multiset(part); }
  }
}
