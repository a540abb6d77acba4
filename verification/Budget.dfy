/** Evicting metadata caches across collections until a byte budget holds. */
module Budget {
  import opened Types
  import opened Ranking
  import opened Cache

  /** A collection's cache with its bytes as measured before anything is cleared. */
  datatype Loaded = Loaded(cache: CacheManager, vectorBytes: nat, metadataBytes: nat)

  function Total(list: seq<Loaded>): nat {
    if list == [] then 0 else list[0].vectorBytes + list[0].metadataBytes + Total(list[1..])
  }

  /** The total counts the vector bytes and the metadata bytes of every collection once. */
  lemma {:induction false} TotalCountsAll(a: seq<Loaded>, b: seq<Loaded>, l: Loaded)
    ensures Total([]) == 0 && Total([l]) == l.vectorBytes + l.metadataBytes && Total(a + b) == Total(a) + Total(b)
  {
    assert [l][1..] == [];
    if a == [] {
      assert a + b == b;
    } else {
      assert (a + b)[1..] == a[1..] + b;
      TotalCountsAll(a[1..], b, l);
    }
  }

  function Biggest(): Loaded -> real { (l: Loaded) => -(l.metadataBytes as real) }

  /** The bytes of those of a list whose cache is chosen, and how many they are. */
  function ChosenBytes(list: seq<Loaded>, chosen: set<CacheManager>): nat {
    if list == [] then 0
    else (if list[0].cache in chosen then list[0].metadataBytes else 0) + ChosenBytes(list[1..], chosen)
  }

  function ChosenCount(list: seq<Loaded>, chosen: set<CacheManager>): (n: nat)
    ensures n <= |list|
  {
    if list == [] then 0
    else (if list[0].cache in chosen then 1 else 0) + ChosenCount(list[1..], chosen)
  }

  /** How many of a list, from the front, are cleared. */
  function Cleared(list: seq<Loaded>, total: int, max: int): (n: nat)
    ensures n <= |list|
  {
    if list == [] || total <= max || list[0].metadataBytes == 0 then 0
    else 1 + Cleared(list[1..], total - list[0].metadataBytes, max)
  }

  predicate Descending(list: seq<Loaded>) {
    forall i, j :: 0 <= i < j < |list| ==> list[i].metadataBytes >= list[j].metadataBytes
  }

  function FirstBytes(list: seq<Loaded>, n: nat): nat
    requires n <= |list|
  {
    if n == 0 then 0 else list[0].metadataBytes + FirstBytes(list[1..], n - 1)
  }

  // ----- the greedy choice

  lemma {:induction false} LaterIsSmaller(list: seq<Loaded>, n: nat)
    requires Descending(list) && n < |list|
    ensures FirstBytes(list[1..], n) <= FirstBytes(list, n)
  {
    if n > 0 { LaterIsSmaller(list[1..], n - 1); }
  }

  /** No choice of n frees more than the first n. */
  lemma {:induction false} FrontFreesMost(list: seq<Loaded>, chosen: set<CacheManager>)
    requires Descending(list)
    ensures ChosenBytes(list, chosen) <= FirstBytes(list, ChosenCount(list, chosen))
  {
    if list != [] {
      FrontFreesMost(list[1..], chosen);
      if list[0].cache !in chosen { LaterIsSmaller(list, ChosenCount(list[1..], chosen)); }
    }
  }

  lemma {:induction false} StopsInTime(list: seq<Loaded>, total: int, max: int, n: nat)
    requires n <= |list| && total - FirstBytes(list, n) <= max
    ensures Cleared(list, total, max) <= n
  {
    if n > 0 { StopsInTime(list[1..], total - list[0].metadataBytes, max, n - 1); }
  }

  /** Clearing from the front of a descending list clears no more than any choice that meets the budget. */
  lemma GreedyIsMinimal(list: seq<Loaded>, total: int, max: int, chosen: set<CacheManager>)
    requires Descending(list) && total - ChosenBytes(list, chosen) <= max
    ensures Cleared(list, total, max) <= ChosenCount(list, chosen)
  {
    FrontFreesMost(list, chosen);
    StopsInTime(list, total, max, ChosenCount(list, chosen));
  }

  /** The sweep ends within the budget, or with nothing left to free. */
  lemma {:induction false} SweepMeetsBudget(list: seq<Loaded>, total: int, max: int)
    requires Descending(list)
    ensures total - FirstBytes(list, Cleared(list, total, max)) <= max
      || forall i :: Cleared(list, total, max) <= i < |list| ==> list[i].metadataBytes == 0
  {
    if list != [] && total > max && list[0].metadataBytes != 0 {
      SweepMeetsBudget(list[1..], total - list[0].metadataBytes, max);
    }
  }

  // ----- sorting changes no total

  lemma {:induction false} PlaceChosen(x: Loaded, ys: seq<Loaded>, chosen: set<CacheManager>)
    ensures ChosenBytes(Place(x, ys, Biggest()), chosen) == ChosenBytes([x] + ys, chosen)
    ensures ChosenCount(Place(x, ys, Biggest()), chosen) == ChosenCount([x] + ys, chosen)
  {
    assert ([x] + ys)[1..] == ys;
    if ys != [] && Biggest()(x) > Biggest()(ys[0]) {
      var rest := Place(x, ys[1..], Biggest());
      assert ([ys[0]] + rest)[1..] == rest;
      PlaceChosen(x, ys[1..], chosen);
      assert ([x] + ys[1..])[1..] == ys[1..];
    }
  }

  lemma {:induction false} SortChosen(xs: seq<Loaded>, chosen: set<CacheManager>)
    ensures ChosenBytes(SortBy(xs, Biggest()), chosen) == ChosenBytes(xs, chosen)
    ensures ChosenCount(SortBy(xs, Biggest()), chosen) == ChosenCount(xs, chosen)
  {
    if xs != [] {
      var rest := SortBy(xs[1..], Biggest());
      SortChosen(xs[1..], chosen);
      PlaceChosen(xs[0], rest, chosen);
      assert ([xs[0]] + rest)[1..] == rest;
    }
  }

  lemma SortDescends(xs: seq<Loaded>)
    ensures Descending(SortBy(xs, Biggest()))
  {
    SortSorts(xs, Biggest());
    var sorted := SortBy(xs, Biggest());
    forall i, j | 0 <= i < j < |sorted| ensures sorted[i].metadataBytes >= sorted[j].metadataBytes {
      assert Biggest()(sorted[i]) <= Biggest()(sorted[j]);
    }
  }

  // ----- the sweep

  /** How the source weighs a cache's two maps; only an empty metadata map is free, since every entry counts its key. */
  datatype Scales = Scales(vectors: map<Id, Vec> -> nat, metadata: map<Id, Metadata> -> nat)

  ghost predicate Weighs(scales: Scales) { forall m :: scales.metadata(m) == 0 <==> m == map[] }

  function Measure(caches: seq<CacheManager>, scales: Scales): (r: seq<Loaded>)
    reads caches
    ensures |r| == |caches|
    ensures forall i :: 0 <= i < |r| ==>
      r[i] == Loaded(caches[i], scales.vectors(caches[i].vectors), scales.metadata(caches[i].metadata))
  {
    if caches == [] then []
    else
      [Loaded(caches[0], scales.vectors(caches[0].vectors), scales.metadata(caches[0].metadata))]
      + Measure(caches[1..], scales)
  }

  ghost predicate Separate(list: seq<Loaded>) {
    forall i, j :: 0 <= i < j < |list| ==> list[i].cache != list[j].cache
  }

  lemma {:induction false} ChooseOneMore(list: seq<Loaded>, chosen: set<CacheManager>, l: Loaded)
    requires Separate(list) && l.cache !in chosen
    ensures l in list ==> ChosenBytes(list, chosen + {l.cache}) == ChosenBytes(list, chosen) + l.metadataBytes
    ensures (forall i :: 0 <= i < |list| ==> list[i].cache != l.cache)
      ==> ChosenBytes(list, chosen + {l.cache}) == ChosenBytes(list, chosen)
  {
    if list != [] { ChooseOneMore(list[1..], chosen, l); }
  }

  lemma {:induction false} CountAtMostChosen(list: seq<Loaded>, chosen: set<CacheManager>)
    requires Separate(list)
    ensures ChosenCount(list, chosen) <= |chosen|
  {
    if list != [] {
      var c := list[0].cache;
      if c in chosen {
        CountWithout(list[1..], chosen, c);
        CountAtMostChosen(list[1..], chosen - {c});
      } else {
        CountAtMostChosen(list[1..], chosen);
      }
    }
  }

  lemma {:induction false} CountWithout(list: seq<Loaded>, chosen: set<CacheManager>, c: CacheManager)
    requires forall i :: 0 <= i < |list| ==> list[i].cache != c
    ensures ChosenCount(list, chosen - {c}) == ChosenCount(list, chosen)
  {
    if list != [] { CountWithout(list[1..], chosen, c); }
  }

  lemma ClearingIsMinimal(caches: seq<Loaded>, total: int, max: int, chosen: set<CacheManager>)
    requires Separate(caches) && total - ChosenBytes(caches, chosen) <= max
    ensures Cleared(SortBy(caches, Biggest()), total, max) <= |chosen|
  {
    SortDescends(caches);
    SortChosen(caches, chosen);
    GreedyIsMinimal(SortBy(caches, Biggest()), total, max, chosen);
    CountAtMostChosen(caches, chosen);
  }

  ghost predicate SameMembers(xs: seq<Loaded>, ys: seq<Loaded>) {
    (forall l :: l in xs ==> l in ys) && (forall l :: l in ys ==> l in xs)
  }

  lemma {:induction false} PlaceSeparate(x: Loaded, ys: seq<Loaded>)
    requires Separate([x] + ys)
    ensures Separate(Place(x, ys, Biggest())) && SameMembers(Place(x, ys, Biggest()), [x] + ys)
  {
    if ys != [] && Biggest()(x) > Biggest()(ys[0]) {
      var all := [x] + ys;
      assert all[0] == x && forall i :: 0 <= i < |ys| ==> all[i + 1] == ys[i];
      PlaceSeparate(x, ys[1..]);
      var rest := Place(x, ys[1..], Biggest());
      forall l | l in rest ensures l.cache != ys[0].cache { assert l in [x] + ys[1..]; }
      assert Separate([ys[0]] + rest);
    }
  }

  lemma {:induction false} SortSeparate(list: seq<Loaded>)
    requires Separate(list)
    ensures Separate(SortBy(list, Biggest())) && SameMembers(SortBy(list, Biggest()), list)
  {
    if list != [] {
      var rest := SortBy(list[1..], Biggest());
      SortSeparate(list[1..]);
      forall l | l in rest ensures l.cache != list[0].cache { assert l in list[1..]; }
      PlaceSeparate(list[0], rest);
    }
  }

  // ----- the sweep as it runs

  /** `Cleared`, from a position on. */
  function ClearedFrom(list: seq<Loaded>, i: nat, total: int, max: int): nat
    requires i <= |list|
    decreases |list| - i
  {
    if i == |list| || total <= max || list[i].metadataBytes == 0 then 0
    else 1 + ClearedFrom(list, i + 1, total - list[i].metadataBytes, max)
  }

  lemma {:induction false} ClearedFromIs(list: seq<Loaded>, i: nat, total: int, max: int)
    requires i <= |list|
    ensures ClearedFrom(list, i, total, max) == Cleared(list[i..], total, max)
    decreases |list| - i
  {
    if i < |list| { ClearedFromIs(list, i + 1, total - list[i].metadataBytes, max); }
  }

  /** The caches of the first n. */
  function FirstCaches(list: seq<Loaded>, n: nat): set<CacheManager>
    requires n <= |list|
  {
    if n == 0 then {} else FirstCaches(list, n - 1) + {list[n - 1].cache}
  }

  lemma {:induction false} FirstBytesGrow(list: seq<Loaded>, n: nat)
    requires n < |list|
    ensures FirstBytes(list, n + 1) == FirstBytes(list, n) + list[n].metadataBytes
  {
    if n > 0 { FirstBytesGrow(list[1..], n - 1); }
  }

  lemma {:induction false} FirstCachesHave(list: seq<Loaded>, n: nat)
    requires n <= |list|
    ensures |FirstCaches(list, n)| <= n
    ensures forall j :: 0 <= j < n ==> list[j].cache in FirstCaches(list, n)
    ensures Separate(list) ==> forall j :: n <= j < |list| ==> list[j].cache !in FirstCaches(list, n)
  {
    if n > 0 { FirstCachesHave(list, n - 1); }
  }

  lemma {:induction false} NoneChosen(list: seq<Loaded>)
    ensures ChosenBytes(list, {}) == 0
  {
    if list != [] { NoneChosen(list[1..]); }
  }

  lemma {:induction false} FirstCachesBytes(list: seq<Loaded>, n: nat)
    requires n <= |list| && Separate(list)
    ensures ChosenBytes(list, FirstCaches(list, n)) == FirstBytes(list, n)
  {
    if n == 0 {
      NoneChosen(list);
    } else {
      FirstCachesBytes(list, n - 1);
      FirstCachesHave(list, n - 1);
      ChooseOneMore(list, FirstCaches(list, n - 1), list[n - 1]);
      FirstBytesGrow(list, n - 1);
    }
  }

  lemma {:induction false} ClearedHadBytes(list: seq<Loaded>, total: int, max: int, i: nat)
    requires i < Cleared(list, total, max)
    ensures list[i].metadataBytes != 0
  {
    if i > 0 { ClearedHadBytes(list[1..], total - list[0].metadataBytes, max, i - 1); }
  }

  /** The measurements once `cleared` hold no metadata. */
  ghost predicate After(was: seq<Loaded>, now: seq<Loaded>, cleared: set<CacheManager>) {
    && |was| == |now|
    && forall i :: 0 <= i < |was| ==> now[i] == if was[i].cache in cleared then was[i].(metadataBytes := 0) else was[i]
  }

  /** Emptying some metadata maps takes exactly their bytes off the total. */
  lemma {:induction false} TotalAfterClearing(was: seq<Loaded>, now: seq<Loaded>, cleared: set<CacheManager>)
    requires After(was, now, cleared)
    ensures Total(now) == Total(was) - ChosenBytes(was, cleared)
  {
    if was != [] { TotalAfterClearing(was[1..], now[1..], cleared); }
  }

  /** What a finished sweep has done: the budget holds or the rest is free, and only a front was cleared. */
  ghost predicate Swept(all: seq<Loaded>, cleared: set<CacheManager>, max: int) {
    && (forall l :: l in all && l.cache in cleared ==> l.metadataBytes != 0)
    && (Total(all) - ChosenBytes(all, cleared) <= max
        || forall l :: l in all && l.cache !in cleared ==> l.metadataBytes == 0)
    && |cleared| <= Cleared(SortBy(all, Biggest()), Total(all), max)
  }

  /** None that was left holds more metadata than one that was cleared. */
  ghost predicate BiggestFirst(all: seq<Loaded>, cleared: set<CacheManager>) {
    forall a, b :: a in all && b in all && a.cache in cleared && b.cache !in cleared ==>
      a.metadataBytes >= b.metadataBytes
  }

  lemma FrontIsBiggest(sorted: seq<Loaded>, n: nat)
    requires Descending(sorted) && Separate(sorted) && n <= |sorted|
    ensures BiggestFirst(sorted, FirstCaches(sorted, n))
  {
    FirstCachesHave(sorted, n);
    forall a, b | a in sorted && b in sorted && a.cache in FirstCaches(sorted, n) && b.cache !in FirstCaches(sorted, n)
      ensures a.metadataBytes >= b.metadataBytes
    {
      var i :| 0 <= i < |sorted| && sorted[i] == a;
      var j :| 0 <= j < |sorted| && sorted[j] == b;
      assert i < n && j >= n;
    }
  }

  lemma SweepStops(all: seq<Loaded>, sorted: seq<Loaded>, n: nat, max: int)
    requires Separate(all) && sorted == SortBy(all, Biggest()) && n == Cleared(sorted, Total(all), max)
    ensures Swept(all, FirstCaches(sorted, n), max)
  {
    var cleared := FirstCaches(sorted, n);
    SortSeparate(all);
    SortDescends(all);
    FirstCachesHave(sorted, n);
    FirstCachesBytes(sorted, n);
    SortChosen(all, cleared);
    SweepMeetsBudget(sorted, Total(all), max);
    forall l | l in all ensures l.cache in cleared ==> l.metadataBytes != 0 {
      var i :| 0 <= i < |sorted| && sorted[i] == l;
      if i < n { ClearedHadBytes(sorted, Total(all), max, i); }
    }
  }

  lemma NoSmallerChoice(all: seq<Loaded>, cleared: set<CacheManager>, max: int)
    requires Separate(all) && Swept(all, cleared, max)
    ensures forall chosen: set<CacheManager> :: Total(all) - ChosenBytes(all, chosen) <= max ==> |cleared| <= |chosen|
  {
    forall chosen: set<CacheManager> | Total(all) - ChosenBytes(all, chosen) <= max ensures |cleared| <= |chosen| {
      ClearingIsMinimal(all, Total(all), max, chosen);
    }
  }

  lemma SweepEnds(all: seq<Loaded>, now: seq<Loaded>, cleared: set<CacheManager>, max: int)
    requires Swept(all, cleared, max) && After(all, now, cleared)
    ensures Total(now) <= max || forall i :: 0 <= i < |now| ==> now[i].metadataBytes == 0
  {
    TotalAfterClearing(all, now, cleared);
  }

  /**
   * Nothing happens without a limit or within it. Otherwise only metadata caches are emptied, until the
   * budget holds or none holds anything, and no choice of fewer collections would meet the budget.
   */
  method EnforceCacheBudget(caches: seq<CacheManager>, enabled: bool, maxBytes: Option<nat>, scales: Scales)
    returns (ghost cleared: set<CacheManager>)
    requires Weighs(scales)
    requires forall i, j :: 0 <= i < j < |caches| ==> caches[i] != caches[j]
    modifies caches
    ensures forall c :: c in cleared ==> c in caches
    ensures forall c :: c in caches ==>
      c.View() == if c in cleared then old(c.View()).(queue := EMPTY) else old(c.View())
    ensures forall c :: c in cleared ==> old(c.metadata) != map[]
    ensures !enabled || maxBytes.None? || Total(old(Measure(caches, scales))) <= maxBytes.value ==> cleared == {}
    ensures enabled && maxBytes.Some? ==>
      || Total(Measure(caches, scales)) <= maxBytes.value
      || forall c :: c in caches ==> c.metadata == map[]
    ensures enabled && maxBytes.Some? ==>
      forall chosen: set<CacheManager> ::
        Total(old(Measure(caches, scales))) - ChosenBytes(old(Measure(caches, scales)), chosen) <= maxBytes.value
        ==> |cleared| <= |chosen|
  {
    cleared := {};
    if !enabled || maxBytes.None? { return; }
    var max := maxBytes.value;
    var collections := Measure(caches, scales);
    var total := AddUp(collections);
    if total <= max { return; }
    cleared := Shrink(caches, scales, collections, max);
  }

  /** Over budget: clears until the budget holds or nothing is left, from as few collections as can be. */
  method Shrink(caches: seq<CacheManager>, scales: Scales, collections: seq<Loaded>, max: nat)
    returns (ghost cleared: set<CacheManager>)
    requires Weighs(scales) && collections == Measure(caches, scales) && Separate(collections)
    modifies caches
    ensures forall c :: c in cleared ==> c in caches && old(c.metadata) != map[]
    ensures forall c :: c in caches ==>
      c.View() == if c in cleared then old(c.View()).(queue := EMPTY) else old(c.View())
    ensures Total(Measure(caches, scales)) <= max || forall c :: c in caches ==> c.metadata == map[]
    ensures forall chosen: set<CacheManager> ::
      Total(collections) - ChosenBytes(collections, chosen) <= max ==> |cleared| <= |chosen|
  {
    cleared := ClearAndMeasure(caches, scales, collections, max);
    SweepEnds(collections, Measure(caches, scales), cleared, max);
    NoSmallerChoice(collections, cleared, max);
  }

  /** Sorts and sweeps; the collections that were cleared then weigh nothing, and the others what they did. */
  method ClearAndMeasure(caches: seq<CacheManager>, scales: Scales, collections: seq<Loaded>, max: nat)
    returns (ghost cleared: set<CacheManager>)
    requires Weighs(scales) && collections == Measure(caches, scales) && Separate(collections)
    modifies caches
    ensures Swept(collections, cleared, max) && After(collections, Measure(caches, scales), cleared)
    ensures forall c :: c in cleared ==> c in caches
    ensures forall c :: c in caches ==>
      c.View() == if c in cleared then old(c.View()).(queue := EMPTY) else old(c.View())
  {
    cleared := ClearBiggest(caches, collections, max);
    ghost var now := Measure(caches, scales);
    forall i | 0 <= i < |now|
      ensures now[i] == if collections[i].cache in cleared then collections[i].(metadataBytes := 0) else collections[i]
    {
      assert caches[i] in caches;
    }
  }

  method AddUp(list: seq<Loaded>) returns (total: nat)
    ensures total == Total(list)
  {
    total := 0;
    var rest := list;
    while rest != []
      invariant total + Total(rest) == Total(list)
      decreases |rest|
    {
      total := total + (rest[0].vectorBytes + rest[0].metadataBytes);
      rest := rest[1..];
    }
  }

  /** Sorts by descending metadata bytes, then sweeps. */
  method ClearBiggest(caches: seq<CacheManager>, collections: seq<Loaded>, max: nat)
    returns (ghost cleared: set<CacheManager>)
    requires Separate(collections) && forall l :: l in collections ==> l.cache in caches
    modifies caches
    ensures Swept(collections, cleared, max) && forall c :: c in cleared ==> c in caches
    ensures forall c :: c in caches ==>
      c.View() == if c in cleared then old(c.View()).(queue := EMPTY) else old(c.View())
  {
    var sorted := SortBy(collections, Biggest());
    SortSeparate(collections);
    forall j | 0 <= j < |sorted| ensures sorted[j].cache in caches { assert sorted[j] in collections; }
    ghost var n := Sweep(caches, sorted, Total(collections), max);
    cleared := FirstCaches(sorted, n);
    SweepStops(collections, sorted, n, max);
  }

  /** The loop: clears from the front while over budget. */
  method Sweep(caches: seq<CacheManager>, sorted: seq<Loaded>, start: nat, max: nat) returns (ghost n: nat)
    requires forall j :: 0 <= j < |sorted| ==> sorted[j].cache in caches
    modifies caches
    ensures n == Cleared(sorted, start, max)
    ensures forall c :: c in FirstCaches(sorted, n) ==> c in caches
    ensures forall c :: c in caches ==>
      c.View() == if c in FirstCaches(sorted, n) then old(c.View()).(queue := EMPTY) else old(c.View())
  {
    assert sorted[0..] == sorted;
    ClearedFromIs(sorted, 0, start, max);
    var total: int := start;
    var i := 0;
    while i < |sorted|
      invariant 0 <= i <= |sorted| && forall c :: c in FirstCaches(sorted, i) ==> c in caches
      invariant ClearedFrom(sorted, 0, start, max) == i + ClearedFrom(sorted, i, total, max)
      invariant forall c :: c in caches ==>
        c.View() == if c in FirstCaches(sorted, i) then old(c.View()).(queue := EMPTY) else old(c.View())
    {
      var l := sorted[i];
      if total <= max || l.metadataBytes == 0 { break; }
      assert FirstCaches(sorted, i + 1) == FirstCaches(sorted, i) + {l.cache};
      l.cache.ClearMetadata();
      total := total - l.metadataBytes;
      i := i + 1;
    }
    n := i;
  }
}
