/** Values shared by every module: identifiers, bytes, documents and vectors. */
module Types {

  /** A UUID, read as a number. */
  type Id = nat

  newtype byte = x: int | 0 <= x < 256

  type Vec = seq<real>

  /** A similarity: higher is closer. */
  type Score = (Vec, Vec) -> real

  datatype Option<+T> = None | Some(value: T)

  datatype Result<+T, +E> = Ok(value: T) | Err(error: E)

  datatype MetadataValue =
    | Text(text: string)
    | Integer(i: int)
    | Float(f: real)
    | Boolean(b: bool)
    | Array(values: seq<MetadataValue>)
    | Null

  type Metadata = map<string, MetadataValue>

  datatype Document = Document(id: Id, vector: Vec, text: string, metadata: Metadata)

  predicate Distinct<T(==)>(xs: seq<T>) {
    forall i, j :: 0 <= i < j < |xs| ==> xs[i] != xs[j]
  }

  /** `order` lists the members of `keys`, each once: what iterating a hash map yields. */
  predicate Enumerates(order: seq<Id>, keys: set<Id>) {
    Distinct(order) && (forall x :: x in order ==> x in keys) && (forall x :: x in keys ==> x in order)
  }

  /** A duplicate-free sequence has as many members as its set of elements. */
  lemma {:induction false} DistinctSize<T>(xs: seq<T>)
    requires Distinct(xs)
    ensures |set x | x in xs| == |xs|
  {
    if xs != [] {
      var n := |xs| - 1;
      DistinctSize(xs[..n]);
      assert (set x | x in xs) == (set x | x in xs[..n]) + {xs[n]};
    }
  }

  lemma SubsetSize<T>(a: set<T>, b: set<T>)
    requires a <= b
    ensures |a| <= |b|
    ensures |a| == |b| ==> a == b
  {
    assert b == a + (b - a);
    if |a| == |b| { assert b - a == {}; }
  }

  /** The ids among the first n of a list. */
  function Firsts(list: seq<Id>, n: nat): set<Id>
    requires n <= |list|
  {
    if n == 0 then {} else Firsts(list, n - 1) + {list[n - 1]}
  }

  lemma {:induction false} FirstsGrow(list: seq<Id>, n: nat, m: nat)
    requires n <= m <= |list|
    ensures Firsts(list, n) <= Firsts(list, m)
  {
    if n < m { FirstsGrow(list, n, m - 1); }
  }

  lemma {:induction false} FirstsHave(list: seq<Id>, n: nat)
    requires n <= |list|
    ensures forall x :: x in Firsts(list, n) <==> exists i :: 0 <= i < n && list[i] == x
  {
    if n > 0 { FirstsHave(list, n - 1); }
  }

  lemma FirstsAre(list: seq<Id>, n: nat, keys: set<Id>)
    requires Enumerates(list, keys) && n == |list|
    ensures Firsts(list, n) == keys
  {
    FirstsHave(list, n);
  }

  /** The first n documents of a batch stored over some documents, in order. */
  function Stored(docs: map<Id, Document>, batch: seq<Document>, n: nat): map<Id, Document>
    requires n <= |batch|
  {
    if n == 0 then docs else Stored(docs, batch, n - 1)[batch[n - 1].id := batch[n - 1]]
  }

  /** Exactly the old ids and those of the batch are stored; what the batch does not name stays. */
  lemma {:induction false} StoredAt(docs: map<Id, Document>, batch: seq<Document>, n: nat, id: Id)
    requires n <= |batch|
    ensures id in Stored(docs, batch, n) <==> id in docs || exists i :: 0 <= i < n && batch[i].id == id
    ensures id in docs && (forall i :: 0 <= i < n ==> batch[i].id != id) ==> Stored(docs, batch, n)[id] == docs[id]
  {
    if n > 0 { StoredAt(docs, batch, n - 1, id); }
  }

  /** Of several documents with one id the last is stored. */
  lemma {:induction false} LastStored(docs: map<Id, Document>, batch: seq<Document>, n: nat, i: nat)
    requires i < n <= |batch| && forall j :: i < j < n ==> batch[j].id != batch[i].id
    ensures batch[i].id in Stored(docs, batch, n) && Stored(docs, batch, n)[batch[i].id] == batch[i]
  {
    if i < n - 1 { LastStored(docs, batch, n - 1, i); }
  }

  lemma Quotient(s: real, n: real)
    requires n != 0.0
    ensures s == n * (s / n)
  {}
}
