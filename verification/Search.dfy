/** The exact Flat index and the search engine with overfetch and filtering. */
module Search {
  import opened Types
  import opened Ranking
  import opened Filters

  datatype SearchError = MissingVector(id: Id) | MissingDocument(id: Id) | NotInitialized | MissingEntryPoint

  /** Sorting key: descending score. */
  function Rank(score: Score, query: Vec, vectors: map<Id, Vec>): Id -> real {
    (id: Id) => if id in vectors then -score(query, vectors[id]) else 0.0
  }

  class FlatIndex {
    const score: Score
    var ids: seq<Id>

    ghost predicate Valid() reads this { Distinct(ids) }

    constructor (score: Score)
      ensures Valid() && ids == [] && this.score == score
    {
      this.score, ids := score, [];
    }

    method Insert(id: Id)
      requires Valid()
      modifies this
      ensures Valid()
      ensures (set x | x in ids) == (set x | x in old(ids)) + {id}
      ensures ids == if id in old(ids) then old(ids) else old(ids) + [id]
    {
      if id !in ids { ids := ids + [id]; }
    }

    method Remove(id: Id)
      requires Valid()
      modifies this
      ensures Valid()
      ensures ids == Filter(old(ids), Not(id))
      ensures (set x | x in ids) == (set x | x in old(ids)) - {id}
    {
      FilterDistinct(ids, Not(id));
      ids := Retain(ids, Not(id));
    }

    /** Scores every listed vector, sorts by descending score, returns the first k ids. */
    method Search(query: Vec, k: nat, vectors: map<Id, Vec>) returns (r: Result<seq<Id>, SearchError>)
      ensures r.Ok? <==> forall id :: id in ids ==> id in vectors
      ensures r.Ok? ==> r.value == Best(ids, Rank(score, query, vectors), k)
      ensures r.Ok? ==> TopOf(ids, r.value, k, (id: Id) => if id in vectors then score(query, vectors[id]) else 0.0)
      ensures r.Err? ==> r.error.MissingVector? && r.error.id in ids && r.error.id !in vectors
    {
      var i := 0;
      while i < |ids|
        invariant 0 <= i <= |ids| && forall j :: 0 <= j < i ==> ids[j] in vectors
      {
        if ids[i] !in vectors { return Err(MissingVector(ids[i])); }
        i := i + 1;
      }
      r := Ok(Best(ids, Rank(score, query, vectors), k));
      BestIsTop(ids, Rank(score, query, vectors), k,
                (id: Id) => if id in vectors then score(query, vectors[id]) else 0.0);
    }
  }

  // ----- the engine

  datatype Hit = Hit(id: Id, score: real, text: string, vector: Vec, metadata: Metadata)

  const USIZE_MAX: nat := 0xFFFF_FFFF_FFFF_FFFF

  function AtLeastOne(n: nat): nat { if n == 0 then 1 else n }

  /** How many candidates the index is asked for. */
  function SearchK(k: nat, filtered: bool, overfetch: nat, override: Option<nat>): nat {
    var expansion := AtLeastOne(if override.Some? then override.value else AtLeastOne(overfetch));
    if !filtered then k else if k * expansion > USIZE_MAX then USIZE_MAX else k * expansion
  }

  function HitOf(id: Id, docs: map<Id, Document>, query: Vec, score: Score): Hit
    requires id in docs
  {
    Hit(id, score(query, docs[id].vector), docs[id].text, docs[id].vector, docs[id].metadata)
  }

  function HitsOf(ids: seq<Id>, docs: map<Id, Document>, query: Vec, score: Score): (r: seq<Hit>)
    requires forall id :: id in ids ==> id in docs
    ensures |r| == |ids|
  {
    seq(|ids|, i requires 0 <= i < |ids| => HitOf(ids[i], docs, query, score))
  }

  function ByScore(): Hit -> real { (h: Hit) => -h.score }

  function Keeps(filter: Conditions): Hit -> bool { (h: Hit) => Matches(filter, h.metadata) }

  function KeepsId(filter: Conditions, docs: map<Id, Document>): Id -> bool {
    (id: Id) => id in docs && Matches(filter, docs[id].metadata)
  }

  /** `sort_and_truncate`. */
  method SortAndTruncate(results: seq<Hit>, k: nat) returns (r: seq<Hit>)
    ensures r == Best(results, ByScore(), k) && TopOf(results, r, k, (h: Hit) => h.score)
  {
    r := SortBy(results, ByScore());
    if k < |r| { r := r[..k]; }
    BestIsTop(results, ByScore(), k, (h: Hit) => h.score);
  }

  /** The engine over whatever ids the vector index returned. */
  method ScoreFilterTruncate(neighbors: seq<Id>, docs: map<Id, Document>, query: Vec, k: nat, score: Score,
                             filter: Option<Conditions>)
    returns (r: Result<seq<Hit>, SearchError>)
    ensures r.Ok? <==> forall id :: id in neighbors ==> id in docs
    ensures r.Err? ==> r.error.MissingDocument? && r.error.id in neighbors && r.error.id !in docs
    ensures r.Ok? && filter.None? ==> r.value == HitsOf(neighbors, docs, query, score)
    ensures r.Ok? && filter.Some? ==>
      r.value == Best(Filter(HitsOf(neighbors, docs, query, score), Keeps(filter.value)), ByScore(), k)
    ensures r.Ok? ==> ResultOf(neighbors, docs, query, k, score, filter, r.value)
  {
    var results: seq<Hit> := [];
    var i := 0;
    while i < |neighbors|
      invariant 0 <= i <= |neighbors| && |results| == i
      invariant forall j :: 0 <= j < i ==> neighbors[j] in docs && results[j] == HitOf(neighbors[j], docs, query, score)
    {
      if neighbors[i] !in docs { return Err(MissingDocument(neighbors[i])); }
      results := results + [HitOf(neighbors[i], docs, query, score)];
      i := i + 1;
    }
    assert results == HitsOf(neighbors, docs, query, score);
    HitsAreDocuments(neighbors, docs, query, k, score, None);
    if filter.Some? { FilteredResult(neighbors, docs, query, k, score, filter.value); }
    if filter.None? { return Ok(results); }
    var kept := Retain(results, Keeps(filter.value));
    var best := SortAndTruncate(kept, k);
    r := Ok(best);
  }

  /** What the engine returns are hits on stored documents that pass the filter, at most k of them. */
  lemma HitsAreDocuments(neighbors: seq<Id>, docs: map<Id, Document>, query: Vec, k: nat, score: Score,
                         filter: Option<Conditions>)
    requires forall id :: id in neighbors ==> id in docs
    ensures var hits := HitsOf(neighbors, docs, query, score);
            var kept := if filter.None? then hits else Best(Filter(hits, Keeps(filter.value)), ByScore(), k);
            && (filter.Some? ==> |kept| <= k)
            && forall hit :: hit in kept ==> Passing(docs, filter, hit.id) && IsStored(docs, query, score, hit)
  {
    if filter.Some? {
      var hits := HitsOf(neighbors, docs, query, score);
      var passing := Filter(hits, Keeps(filter.value));
      FilterMembers(hits, Keeps(filter.value));
      BestHits(passing, k);
    }
  }

  /**
   * What becomes of candidates: without a filter a hit for each, in their order; with one, the best k of those that
   * pass, the highest score first.
   */
  ghost predicate ResultOf(ids: seq<Id>, docs: map<Id, Document>, query: Vec, k: nat, score: Score,
                           filter: Option<Conditions>, hits: seq<Hit>) {
    && (forall hit :: hit in hits ==>
          hit.id in ids && Passing(docs, filter, hit.id) && IsStored(docs, query, score, hit))
    && (filter.None? ==> |hits| == |ids| && forall i :: 0 <= i < |hits| ==> hits[i].id == ids[i])
    && (filter.Some? ==>
          && |hits| <= k && (forall i, j :: 0 <= i < j < |hits| ==> hits[i].score >= hits[j].score)
          && forall id :: id in ids && Passing(docs, filter, id) ==> HitOrBeaten(docs, query, k, score, hits, id))
  }

  /** The id has a hit, or there are k hits and all score at least as high as it does. */
  ghost predicate HitOrBeaten(docs: map<Id, Document>, query: Vec, k: nat, score: Score, hits: seq<Hit>, id: Id) {
    || (exists i :: 0 <= i < |hits| && hits[i].id == id)
    || (id in docs && |hits| == k && forall i :: 0 <= i < |hits| ==> hits[i].score >= score(query, docs[id].vector))
  }

  lemma FilteredResult(ids: seq<Id>, docs: map<Id, Document>, query: Vec, k: nat, score: Score, filter: Conditions)
    requires forall id :: id in ids ==> id in docs
    ensures var all := HitsOf(ids, docs, query, score);
            ResultOf(ids, docs, query, k, score, Some(filter), Best(Filter(all, Keeps(filter)), ByScore(), k))
  {
    var all := HitsOf(ids, docs, query, score);
    var kept := Filter(all, Keeps(filter));
    var hits := Best(kept, ByScore(), k);
    HitsAreDocuments(ids, docs, query, k, score, Some(filter));
    FilterMembers(all, Keeps(filter));
    BestHits(kept, k);
    forall id | id in ids && Passing(docs, Some(filter), id) ensures HitOrBeaten(docs, query, k, score, hits, id) {
      FilteredHit(ids, docs, query, k, score, filter, id);
    }
  }

  lemma FilteredHit(ids: seq<Id>, docs: map<Id, Document>, query: Vec, k: nat, score: Score, filter: Conditions, id: Id)
    requires (forall id :: id in ids ==> id in docs) && id in ids && Passing(docs, Some(filter), id)
    ensures var all := HitsOf(ids, docs, query, score);
            HitOrBeaten(docs, query, k, score, Best(Filter(all, Keeps(filter)), ByScore(), k), id)
  {
    var all := HitsOf(ids, docs, query, score);
    var j :| 0 <= j < |ids| && ids[j] == id;
    var hit := all[j];
    assert hit in all;
    InFilter(all, Keeps(filter), hit);
    InOrNoBetter(Filter(all, Keeps(filter)), k, hit);
  }

  lemma BestHits(kept: seq<Hit>, k: nat)
    ensures var hits := Best(kept, ByScore(), k);
            && |hits| <= k && (forall hit :: hit in hits ==> hit in kept)
            && forall i, j :: 0 <= i < j < |hits| ==> hits[i].score >= hits[j].score
  {
    var hits := Best(kept, ByScore(), k);
    BestIsBest(kept, ByScore(), k);
    forall hit | hit in hits ensures hit in kept {
      assert hit in multiset(hits);
      assert hit in multiset(kept);
    }
    forall i, j | 0 <= i < j < |hits| ensures hits[i].score >= hits[j].score {
      assert ByScore()(hits[i]) <= ByScore()(hits[j]);
    }
  }

  lemma InOrNoBetter(kept: seq<Hit>, k: nat, hit: Hit)
    requires hit in kept
    ensures var hits := Best(kept, ByScore(), k);
            hit in hits || (|hits| == k && forall i :: 0 <= i < |hits| ==> hits[i].score >= hit.score)
  {
    var hits := Best(kept, ByScore(), k);
    BestIsBest(kept, ByScore(), k);
    if hit !in hits {
      var rest := multiset(kept) - multiset(hits);
      assert hit in rest && multiset(kept) == multiset(hits) + rest;
      assert |multiset(kept)| == |hits| + |rest| && |rest| >= 1;
      forall i | 0 <= i < |hits| ensures hits[i].score >= hit.score { assert ByScore()(hits[i]) <= ByScore()(hit); }
    }
  }

  /** `search_collection_with_maps` over a Flat index. */
  method SearchFlat(index: FlatIndex, docs: map<Id, Document>, vectors: map<Id, Vec>, query: Vec, k: nat, score: Score,
                    filter: Option<Conditions>, overfetch: nat, override: Option<nat>)
    returns (r: Result<seq<Hit>, SearchError>)
    ensures r.Ok? && filter.Some? ==>
      var n := SearchK(k, true, overfetch, override);
      var top := Best(index.ids, Rank(index.score, query, vectors), n);
      (forall id :: id in top ==> id in docs) &&
      r.value == Best(Filter(HitsOf(top, docs, query, score), Keeps(filter.value)), ByScore(), k)
    ensures r.Ok? && filter.None? ==>
      var top := Best(index.ids, Rank(index.score, query, vectors), k);
      (forall id :: id in top ==> id in docs) && r.value == HitsOf(top, docs, query, score)
    ensures (forall id :: id in index.ids ==> id in vectors && id in docs) ==> r.Ok?
  {
    var neighbors := index.Search(query, SearchK(k, filter.Some?, overfetch, override), vectors);
    if neighbors.Err? { return Err(neighbors.error); }
    BestMembers(index.ids, Rank(index.score, query, vectors), SearchK(k, filter.Some?, overfetch, override));
    r := ScoreFilterTruncate(neighbors.value, docs, query, k, score, filter);
  }

  lemma BestMembers(xs: seq<Id>, key: Id -> real, k: nat)
    ensures forall x :: x in Best(xs, key, k) ==> x in xs
  {
    SortSorts(xs, key);
    forall x | x in Best(xs, key, k) ensures x in xs {
      assert x in SortBy(xs, key);
      assert x in multiset(SortBy(xs, key));
    }
  }

  // ----- overfetch-then-filter is exact, and exactly when

  /**
   * Filtering the top n and keeping the best k gives the true top k of all matching ids - the very same
   * list - exactly when the n candidates contain min(k, all matches) matching ones.
   */
  lemma OverfetchExactIff(ids: seq<Id>, key: Id -> real, keep: Id -> bool, n: nat, k: nat)
    ensures var found, all := |Filter(Best(ids, key, n), keep)|, |Filter(ids, keep)|;
            Best(Filter(Best(ids, key, n), keep), key, k) == Best(Filter(ids, keep), key, k)
            <==> found >= k || found == all
  {
    var sorted := SortBy(ids, key);
    SortSorts(ids, key);
    var top := Take(sorted, n);
    var rest := sorted[|top|..];
    assert sorted == top + rest;
    FilterPrefix(top, rest, keep);
    FilterSort(ids, key, keep);
    var ftop := Filter(top, keep);
    SortSorts(Filter(ids, keep), key);
    assert SortBy(Filter(ids, keep), key) == ftop + Filter(rest, keep);
    FilterMembers(rest, keep);
    assert Ascending(ftop, key) by {
      forall i, j | 0 <= i < j < |ftop| ensures key(ftop[i]) <= key(ftop[j]) {
        assert (ftop + Filter(rest, keep))[i] == ftop[i] && (ftop + Filter(rest, keep))[j] == ftop[j];
      }
    }
    SortOfSorted(ftop, key);
    var all := SortBy(Filter(ids, keep), key);
    if |ftop| >= k {
      assert ftop[..k] == all[..k];
    } else if |ftop| == |all| {
      assert Filter(rest, keep) == [];
      assert ftop == all;
    } else {
      assert |Take(ftop, k)| < |Take(all, k)|;
    }
  }

  // ----- hits and ids

  lemma {:induction false} HitsOfSort(ids: seq<Id>, docs: map<Id, Document>, query: Vec, score: Score, key: Id -> real)
    requires forall id :: id in ids ==> id in docs && key(id) == -score(query, docs[id].vector)
    ensures forall id :: id in SortBy(ids, key) ==> id in ids
    ensures SortBy(HitsOf(ids, docs, query, score), ByScore()) == HitsOf(SortBy(ids, key), docs, query, score)
  {
    if ids != [] {
      var tail := ids[1..];
      assert HitsOf(ids, docs, query, score)[1..] == HitsOf(tail, docs, query, score);
      HitsOfSort(tail, docs, query, score, key);
      HitsOfPlace(ids[0], SortBy(tail, key), docs, query, score, key);
    }
  }

  lemma {:induction false} HitsOfPlace(x: Id, ys: seq<Id>, docs: map<Id, Document>, query: Vec, score: Score,
                                       key: Id -> real)
    requires forall id :: id == x || id in ys ==> id in docs && key(id) == -score(query, docs[id].vector)
    ensures forall id :: id in Place(x, ys, key) ==> id == x || id in ys
    ensures Place(HitOf(x, docs, query, score), HitsOf(ys, docs, query, score), ByScore())
            == HitsOf(Place(x, ys, key), docs, query, score)
  {
    if ys == [] || key(x) <= key(ys[0]) {
      HitsOfCons(x, ys, docs, query, score);
    } else {
      var tail := ys[1..];
      var rest := Place(x, tail, key);
      assert ys == [ys[0]] + tail;
      HitsOfCons(ys[0], tail, docs, query, score);
      HitsOfPlace(x, tail, docs, query, score, key);
      HitsOfCons(ys[0], rest, docs, query, score);
    }
  }

  lemma HitsOfCons(x: Id, ys: seq<Id>, docs: map<Id, Document>, query: Vec, score: Score)
    requires forall id :: id == x || id in ys ==> id in docs
    ensures forall id :: id in [x] + ys ==> id in docs
    ensures HitsOf([x] + ys, docs, query, score) == [HitOf(x, docs, query, score)] + HitsOf(ys, docs, query, score)
    ensures HitsOf([x] + ys, docs, query, score)[1..] == HitsOf(ys, docs, query, score)
  {
    assert forall id :: id in [x] + ys <==> id == x || id in ys;
  }

  lemma {:induction false} HitsOfFilter(ids: seq<Id>, docs: map<Id, Document>, query: Vec, score: Score,
                                        filter: Conditions)
    requires forall id :: id in ids ==> id in docs
    ensures forall id :: id in Filter(ids, KeepsId(filter, docs)) ==> id in ids
    ensures Filter(HitsOf(ids, docs, query, score), Keeps(filter))
      == HitsOf(Filter(ids, KeepsId(filter, docs)), docs, query, score)
  {
    if ids != [] {
      var head, tail := ids[0], ids[1..];
      assert ids == [head] + tail;
      HitsOfCons(head, tail, docs, query, score);
      HitsOfFilter(tail, docs, query, score, filter);
      FilterCons(head, tail, KeepsId(filter, docs));
      FilterCons(HitOf(head, docs, query, score), HitsOf(tail, docs, query, score), Keeps(filter));
      HitsOfCons(head, Filter(tail, KeepsId(filter, docs)), docs, query, score);
    }
  }

  lemma HitsOfBest(ids: seq<Id>, docs: map<Id, Document>, query: Vec, score: Score, key: Id -> real, k: nat)
    requires forall id :: id in ids ==> id in docs && key(id) == -score(query, docs[id].vector)
    ensures forall id :: id in Best(ids, key, k) ==> id in ids
    ensures Best(HitsOf(ids, docs, query, score), ByScore(), k) == HitsOf(Best(ids, key, k), docs, query, score)
  {
    HitsOfSort(ids, docs, query, score, key);
    BestMembers(ids, key, k);
  }

  /**
   * Filtered search over a Flat index whose metric and vectors agree with the query's: the hits are those
   * of the true top k among all matching documents exactly when enough candidates match.
   */
  lemma FilteredSearchExactIff(ids: seq<Id>, docs: map<Id, Document>, vectors: map<Id, Vec>, query: Vec, k: nat,
                               score: Score, filter: Conditions, n: nat)
    requires forall id :: id in ids ==> id in docs && id in vectors && vectors[id] == docs[id].vector
    ensures var key, keep := Rank(score, query, vectors), KeepsId(filter, docs);
            var top, wanted := Best(ids, key, n), Best(Filter(ids, keep), key, k);
            && (forall id :: id in top || id in wanted ==> id in docs)
            && (Best(Filter(HitsOf(top, docs, query, score), Keeps(filter)), ByScore(), k)
                == HitsOf(wanted, docs, query, score)
                <==> |Filter(top, keep)| >= k || |Filter(top, keep)| == |Filter(ids, keep)|)
  {
    var key, keep := Rank(score, query, vectors), KeepsId(filter, docs);
    var top := Best(ids, key, n);
    BestMembers(ids, key, n);
    HitsOfFilter(ids, docs, query, score, filter);
    BestMembers(Filter(ids, keep), key, k);
    HitsOfFilter(top, docs, query, score, filter);
    HitsOfBest(Filter(top, keep), docs, query, score, key, k);
    OverfetchExactIff(ids, key, keep, n, k);
    HitsInjective(Best(Filter(top, keep), key, k), Best(Filter(ids, keep), key, k), docs, query, score);
  }

  /** The best k of all listed documents that pass the filter. */
  ghost function ExactHits(ids: seq<Id>, docs: map<Id, Document>, vectors: map<Id, Vec>, query: Vec, k: nat,
                           score: Score, filter: Option<Conditions>): seq<Hit>
    requires forall id :: id in ids ==> id in docs
  {
    var passing := if filter.None? then ids else Filter(ids, KeepsId(filter.value, docs));
    assert forall id :: id in passing ==> id in ids by {
      if filter.Some? { FilterMembers(ids, KeepsId(filter.value, docs)); }
    }
    BestMembers(passing, Rank(score, query, vectors), k);
    HitsOf(Best(passing, Rank(score, query, vectors), k), docs, query, score)
  }

  ghost predicate Passing(docs: map<Id, Document>, filter: Option<Conditions>, id: Id) {
    id in docs && (filter.Some? ==> forall i :: 0 <= i < |filter.value| ==> Holds(filter.value[i], docs[id].metadata))
  }

  /** A hit carries the text, vector and metadata of the stored document, and its score. */
  ghost predicate IsStored(docs: map<Id, Document>, query: Vec, score: Score, hit: Hit) {
    && hit.id in docs && hit.score == score(query, docs[hit.id].vector)
    && hit.text == docs[hit.id].text && hit.vector == docs[hit.id].vector && hit.metadata == docs[hit.id].metadata
  }

  /** The best k of all documents that pass, each once, as they are stored, the highest score first. */
  ghost predicate ExactTop(docs: map<Id, Document>, query: Vec, k: nat, score: Score, filter: Option<Conditions>,
                           hits: seq<Hit>) {
    && |hits| <= k
    && (forall hit :: hit in hits ==> Passing(docs, filter, hit.id) && IsStored(docs, query, score, hit))
    && (forall i, j :: 0 <= i < j < |hits| ==> hits[i].id != hits[j].id && hits[i].score >= hits[j].score)
    && forall id :: Passing(docs, filter, id) ==> HitOrBeaten(docs, query, k, score, hits, id)
  }

  lemma ExactIsTop(ids: seq<Id>, docs: map<Id, Document>, vectors: map<Id, Vec>, query: Vec, k: nat, score: Score,
                   filter: Option<Conditions>)
    requires Enumerates(ids, docs.Keys)
    requires forall id :: id in ids ==> id in docs && id in vectors && vectors[id] == docs[id].vector
    ensures ExactTop(docs, query, k, score, filter, ExactHits(ids, docs, vectors, query, k, score, filter))
  {
    var key := Rank(score, query, vectors);
    var passing := if filter.None? then ids else Filter(ids, KeepsId(filter.value, docs));
    PassingIds(ids, docs, filter, passing);
    var best := Best(passing, key, k);
    BestOfDistinct(passing, key, k);
    HitsAreTop(best, passing, docs, vectors, query, k, score, filter);
  }

  lemma HitsAreTop(best: seq<Id>, passing: seq<Id>, docs: map<Id, Document>, vectors: map<Id, Vec>, query: Vec, k: nat,
                   score: Score, filter: Option<Conditions>)
    requires forall id :: id in passing ==> id in docs && id in vectors && vectors[id] == docs[id].vector
    requires |best| <= k && Distinct(best) && (forall id :: id in best ==> id in passing)
    requires Ascending(best, Rank(score, query, vectors)) && forall id :: id in passing <==> Passing(docs, filter, id)
    requires var key := Rank(score, query, vectors);
             forall id :: id in passing && id !in best ==>
               |best| == k && forall i :: 0 <= i < |best| ==> key(best[i]) <= key(id)
    ensures ExactTop(docs, query, k, score, filter, HitsOf(best, docs, query, score))
  {
    var key := Rank(score, query, vectors);
    var hits := HitsOf(best, docs, query, score);
    forall i | 0 <= i < |hits|
      ensures best[i] in passing && hits[i].id == best[i] && hits[i].score == -key(best[i])
    {
      assert best[i] in best;
    }
    forall id | Passing(docs, filter, id) ensures HitOrBeaten(docs, query, k, score, hits, id) {
      HasHit(best, docs, query, k, score, id);
    }
  }

  lemma HasHit(best: seq<Id>, docs: map<Id, Document>, query: Vec, k: nat, score: Score, id: Id)
    requires (forall x :: x in best ==> x in docs) && id in docs
    requires id in best || |best| == k
    requires id in best ||
      forall i :: 0 <= i < |best| ==> score(query, docs[best[i]].vector) >= score(query, docs[id].vector)
    ensures HitOrBeaten(docs, query, k, score, HitsOf(best, docs, query, score), id)
  {
    var hits := HitsOf(best, docs, query, score);
    if id in best {
      var i :| 0 <= i < |best| && best[i] == id;
      assert hits[i].id == id;
    }
  }

  lemma PassingIds(ids: seq<Id>, docs: map<Id, Document>, filter: Option<Conditions>, passing: seq<Id>)
    requires Enumerates(ids, docs.Keys)
    requires passing == if filter.None? then ids else Filter(ids, KeepsId(filter.value, docs))
    ensures Distinct(passing) && forall id :: id in passing <==> Passing(docs, filter, id)
  {
    if filter.Some? {
      var keep := KeepsId(filter.value, docs);
      FilterDistinct(ids, keep);
      FilterMembers(ids, keep);
      forall id | Passing(docs, filter, id) ensures id in passing { InFilter(ids, keep, id); }
    }
  }

  lemma BestOfDistinct(xs: seq<Id>, key: Id -> real, k: nat)
    requires Distinct(xs)
    ensures var best := Best(xs, key, k);
            && |best| <= k && Distinct(best) && (forall x :: x in best ==> x in xs) && Ascending(best, key)
            && forall x :: x in xs && x !in best ==>
                 |best| == k && forall i :: 0 <= i < |best| ==> key(best[i]) <= key(x)
  {
    var best := Best(xs, key, k);
    BestIsBest(xs, key, k);
    BestMembers(xs, key, k);
    PartOfDistinct(best, xs);
    forall x | x in xs && x !in best
      ensures |best| == k && forall i :: 0 <= i < |best| ==> key(best[i]) <= key(x)
    {
      var rest := multiset(xs) - multiset(best);
      assert x in rest && multiset(xs) == multiset(best) + rest;
      assert |multiset(xs)| == |best| + |rest| && |rest| >= 1;
    }
  }

  /** The n best candidates hold k documents that pass the filter, or all of them. */
  ghost predicate Enough(ids: seq<Id>, docs: map<Id, Document>, vectors: map<Id, Vec>, query: Vec, k: nat, score: Score,
                         filter: Option<Conditions>, n: nat) {
    filter.Some? ==>
      var keep := KeepsId(filter.value, docs);
      var found := |Filter(Best(ids, Rank(score, query, vectors), n), keep)|;
      found >= k || found == |Filter(ids, keep)|
  }

  /** What the engine makes of the n best candidates is the exact result if and only if they were enough. */
  lemma ExactIff(ids: seq<Id>, docs: map<Id, Document>, vectors: map<Id, Vec>, query: Vec, k: nat, score: Score,
                 filter: Option<Conditions>, n: nat)
    requires forall id :: id in ids ==> id in docs && id in vectors && vectors[id] == docs[id].vector
    requires filter.None? ==> n == k
    ensures var top := Best(ids, Rank(score, query, vectors), n);
            && (forall id :: id in top ==> id in docs)
            && var hits := HitsOf(top, docs, query, score);
               (if filter.None? then hits else Best(Filter(hits, Keeps(filter.value)), ByScore(), k))
                 == ExactHits(ids, docs, vectors, query, k, score, filter)
               <==> Enough(ids, docs, vectors, query, k, score, filter, n)
  {
    BestMembers(ids, Rank(score, query, vectors), n);
    if filter.Some? { FilteredSearchExactIff(ids, docs, vectors, query, k, score, filter.value, n); }
  }

  /** Asking for at least as many candidates as there are documents is enough. */
  lemma AllAreEnough(ids: seq<Id>, docs: map<Id, Document>, vectors: map<Id, Vec>, query: Vec, k: nat, score: Score,
                     filter: Option<Conditions>, n: nat)
    requires n >= |ids|
    ensures Enough(ids, docs, vectors, query, k, score, filter, n)
  {
    if filter.Some? {
      var key, keep := Rank(score, query, vectors), KeepsId(filter.value, docs);
      SortSorts(ids, key);
      FilterSort(ids, key, keep);
      SortSorts(Filter(ids, keep), key);
    }
  }

  /** With a filter k times the overfetch factor, up to 2^64 - 1; a factor of zero counts as one.  Without, k. */
  ghost predicate Asked(k: nat, filter: Option<Conditions>, overfetch: nat, override: Option<nat>, n: nat) {
    if filter.None? then n == k
    else
      var factor := match override
                    case Some(x) => if x == 0 then 1 else x
                    case None => if overfetch == 0 then 1 else overfetch;
      n == if k * factor <= 0xFFFF_FFFF_FFFF_FFFF then k * factor else 0xFFFF_FFFF_FFFF_FFFF
  }

  lemma AskedIs(k: nat, filter: Option<Conditions>, overfetch: nat, override: Option<nat>)
    ensures Asked(k, filter, overfetch, override, SearchK(k, filter.Some?, overfetch, override))
  {}

  /** What the engine returns over Flat. */
  ghost function FlatHits(ids: seq<Id>, docs: map<Id, Document>, vectors: map<Id, Vec>, query: Vec, k: nat,
                          score: Score, filter: Option<Conditions>, n: nat): seq<Hit>
    requires forall id :: id in ids ==> id in docs
  {
    BestMembers(ids, Rank(score, query, vectors), n);
    var hits := HitsOf(Best(ids, Rank(score, query, vectors), n), docs, query, score);
    if filter.None? then hits else Best(Filter(hits, Keeps(filter.value)), ByScore(), k)
  }

  /** Exactly the best if asked for as many as there are; the exact list just when there were enough. */
  ghost predicate FlatOk(ids: seq<Id>, docs: map<Id, Document>, vectors: map<Id, Vec>, query: Vec, k: nat, score: Score,
                         filter: Option<Conditions>, n: nat, hits: seq<Hit>)
    requires forall id :: id in ids ==> id in docs
  {
    && (filter.None? || n >= |docs| ==> ExactTop(docs, query, k, score, filter, hits))
    && (hits == ExactHits(ids, docs, vectors, query, k, score, filter) <==>
        Enough(ids, docs, vectors, query, k, score, filter, n))
  }

  /** It is the exact result exactly when the candidates were enough, and always when the overfetch covers all. */
  lemma FlatIsExact(ids: seq<Id>, docs: map<Id, Document>, vectors: map<Id, Vec>, query: Vec, k: nat, score: Score,
                    filter: Option<Conditions>, n: nat)
    requires Enumerates(ids, docs.Keys) && |ids| == |docs| && (filter.None? ==> n == k)
    requires forall id :: id in ids ==> id in docs && id in vectors && vectors[id] == docs[id].vector
    ensures FlatOk(ids, docs, vectors, query, k, score, filter, n,
                   FlatHits(ids, docs, vectors, query, k, score, filter, n))
  {
    ExactIff(ids, docs, vectors, query, k, score, filter, n);
    ExactIsTop(ids, docs, vectors, query, k, score, filter);
    if n >= |ids| { AllAreEnough(ids, docs, vectors, query, k, score, filter, n); }
  }

  lemma HitsInjective(a: seq<Id>, b: seq<Id>, docs: map<Id, Document>, query: Vec, score: Score)
    requires forall id :: id in a || id in b ==> id in docs
    ensures HitsOf(a, docs, query, score) == HitsOf(b, docs, query, score) <==> a == b
  {
    if HitsOf(a, docs, query, score) == HitsOf(b, docs, query, score) {
      assert |a| == |b|;
      forall i | 0 <= i < |a| ensures a[i] == b[i] {
        assert HitsOf(a, docs, query, score)[i].id == HitsOf(b, docs, query, score)[i].id;
      }
    }
  }

  /** Asking for as many candidates as the collection has, or finding k matches, is always enough. */
  lemma CoveringOverfetchSuffices(ids: seq<Id>, key: Id -> real, keep: Id -> bool, n: nat, k: nat)
    requires n >= |ids| || |Filter(Best(ids, key, n), keep)| >= k
    ensures Best(Filter(Best(ids, key, n), keep), key, k) == Best(Filter(ids, keep), key, k)
  {
    OverfetchExactIff(ids, key, keep, n, k);
    if n >= |ids| {
      SortSorts(ids, key);
      FilterSort(ids, key, keep);
      SortSorts(Filter(ids, keep), key);
    }
  }
}
