/** The write-ahead log: operations, sequence numbers, replay filtering, and what replay means. */
module Log {
  import opened Types

  datatype Op = Insert(doc: Document) | Update(doc: Document) | Delete(id: Id)

  /** One line of the log; `Mark` is the record that a checkpoint leaves. */
  datatype Record = Entry(num: nat, op: Op) | Mark(num: nat)

  type Docs = map<Id, Document>

  function Apply(docs: Docs, op: Op): Docs {
    match op
    case Insert(doc) => docs[doc.id := doc]
    case Update(doc) => (docs - {doc.id})[doc.id := doc]
    case Delete(id) => docs - {id}
  }

  function ApplyAll(ops: seq<Op>, docs: Docs): Docs {
    if ops == [] then docs else ApplyAll(ops[1..], Apply(docs, ops[0]))
  }

  function Target(op: Op): Id {
    if op.Delete? then op.id else op.doc.id
  }

  /** `Wal::replay`: the records strictly above `min`, in file order. */
  function Above(wal: seq<Record>, min: nat): seq<Record> {
    if wal == [] then []
    else if wal[0].num <= min then Above(wal[1..], min)
    else [wal[0]] + Above(wal[1..], min)
  }

  /** The operations among the records; marks are skipped by `replay_wal`. */
  function Ops(wal: seq<Record>): seq<Op> {
    if wal == [] then []
    else if wal[0].Entry? then [wal[0].op] + Ops(wal[1..])
    else Ops(wal[1..])
  }

  function Live(wal: seq<Record>, min: nat): seq<Op> { Ops(Above(wal, min)) }

  /** Operation records carry strictly increasing numbers; marks may reuse one. */
  ghost predicate Increasing(wal: seq<Record>) {
    forall i, j :: 0 <= i < j < |wal| && wal[i].Entry? && wal[j].Entry? ==> wal[i].num < wal[j].num
  }

  ghost predicate IsSuffix<T>(tail: seq<T>, all: seq<T>) {
    |tail| <= |all| && all[|all| - |tail|..] == tail
  }

  // ----- sequences of operations

  lemma {:induction false} ApplyAppend(a: seq<Op>, b: seq<Op>, docs: Docs)
    ensures ApplyAll(a + b, docs) == ApplyAll(b, ApplyAll(a, docs))
  {
    if a == [] {
      assert a + b == b;
    } else {
      assert (a + b)[1..] == a[1..] + b;
      ApplyAppend(a[1..], b, Apply(docs, a[0]));
    }
  }

  lemma ApplySnoc(ops: seq<Op>, op: Op, docs: Docs)
    ensures ApplyAll(ops + [op], docs) == Apply(ApplyAll(ops, docs), op)
  {
    ApplyAppend(ops, [op], docs);
  }

  ghost predicate SameAt(a: Docs, b: Docs, id: Id) {
    (id in a <==> id in b) && (id in a ==> a[id] == b[id])
  }

  ghost predicate Names(ops: seq<Op>, id: Id) { exists op :: op in ops && Target(op) == id }

  /** Replay leaves an id alone unless some operation names it, and then the start does not matter. */
  lemma {:induction false} ReplayAt(ops: seq<Op>, a: Docs, b: Docs, id: Id)
    ensures SameAt(a, b, id) || Names(ops, id) ==> SameAt(ApplyAll(ops, a), ApplyAll(ops, b), id)
    ensures !Names(ops, id) ==> SameAt(ApplyAll(ops, a), a, id)
  {
    if ops != [] {
      ReplayAt(ops[1..], Apply(a, ops[0]), Apply(b, ops[0]), id);
      assert forall op :: op in ops <==> op == ops[0] || op in ops[1..];
      if Names(ops, id) && Target(ops[0]) != id { assert Names(ops[1..], id); }
      if !Names(ops, id) {
        assert ops[0] in ops && !Names(ops[1..], id);
        assert SameAt(Apply(a, ops[0]), a, id);
      }
    }
  }

  /** Replaying any suffix of the log on a state that already holds its effects changes nothing. */
  lemma SuffixReplayIsIdempotent(tail: seq<Op>, all: seq<Op>, docs: Docs)
    requires IsSuffix(tail, all)
    ensures ApplyAll(tail, ApplyAll(all, docs)) == ApplyAll(all, docs)
  {
    var head := all[..|all| - |tail|];
    assert all == head + tail;
    ApplyAppend(head, tail, docs);
    var base := ApplyAll(head, docs);
    var done := ApplyAll(tail, base);
    var again := ApplyAll(tail, done);
    forall id ensures SameAt(again, done, id) {
      ReplayAt(tail, done, base, id);
    }
    assert forall id :: id in again ==> SameAt(again, done, id);
    assert forall id :: id in done ==> SameAt(again, done, id);
  }

  // ----- the log file

  lemma {:induction false} AboveAppend(a: seq<Record>, b: seq<Record>, min: nat)
    ensures Above(a + b, min) == Above(a, min) + Above(b, min)
  {
    if a == [] {
      assert a + b == b;
    } else {
      assert (a + b)[1..] == a[1..] + b;
      AboveAppend(a[1..], b, min);
    }
  }

  lemma {:induction false} OpsAppend(a: seq<Record>, b: seq<Record>)
    ensures Ops(a + b) == Ops(a) + Ops(b)
  {
    if a == [] {
      assert a + b == b;
    } else {
      assert (a + b)[1..] == a[1..] + b;
      OpsAppend(a[1..], b);
    }
  }

  /** What appending one record does to the log's operations. */
  lemma LogOne(wal: seq<Record>, r: Record, min: nat)
    ensures Ops(wal + [r]) == Ops(wal) + (if r.Entry? then [r.op] else [])
    ensures Live(wal + [r], min) == Live(wal, min) + (if r.Entry? && r.num > min then [r.op] else [])
    ensures Above(wal + [r], min) == Above(wal, min) + (if r.num > min then [r] else [])
  {
    OpsAppend(wal, [r]);
    AboveAppend(wal, [r], min);
    OpsAppend(Above(wal, min), Above([r], min));
    assert [r][1..] == [];
  }

  lemma {:induction false} AboveAll(wal: seq<Record>, min: nat)
    requires forall r :: r in wal && r.Entry? ==> r.num > min
    ensures Live(wal, min) == Ops(wal)
  {
    if wal != [] {
      AboveAll(wal[1..], min);
      if wal[0].num > min { assert ([wal[0]] + Above(wal[1..], min))[1..] == Above(wal[1..], min); }
    }
  }

  /** Whatever number replay starts from, the operations it yields are a suffix of those in the file. */
  lemma {:induction false} LiveIsSuffix(wal: seq<Record>, min: nat)
    requires Increasing(wal)
    ensures IsSuffix(Live(wal, min), Ops(wal))
  {
    if wal != [] {
      var tail := wal[1..];
      if wal[0].Entry? && wal[0].num > min {
        forall r | r in wal && r.Entry? ensures r.num > min {
          var j :| 0 <= j < |wal| && wal[j] == r;
        }
        AboveAll(wal, min);
      } else {
        assert Increasing(tail) by { assert forall i :: 0 <= i < |tail| ==> tail[i] == wal[i + 1]; }
        LiveIsSuffix(tail, min);
        LiveOfRest(wal, tail, min);
        SuffixOfLonger(Live(tail, min), Ops(tail), if wal[0].Entry? then [wal[0].op] else []);
      }
    }
  }

  lemma LiveOfRest(wal: seq<Record>, tail: seq<Record>, min: nat)
    requires wal != [] && tail == wal[1..] && !(wal[0].Entry? && wal[0].num > min)
    ensures Live(wal, min) == Live(tail, min)
  {
    var rest := Above(tail, min);
    if wal[0].num > min { assert ([wal[0]] + rest)[1..] == rest; }
  }

  lemma SuffixOfLonger<T>(a: seq<T>, b: seq<T>, front: seq<T>)
    requires IsSuffix(a, b)
    ensures IsSuffix(a, front + b)
  {
    assert (front + b)[|front| + |b| - |a|..] == b[|b| - |a|..];
  }

  lemma SuffixSnoc<T>(a: seq<T>, b: seq<T>, x: T)
    requires IsSuffix(a, b)
    ensures IsSuffix(a + [x], b + [x])
  {
    assert (b + [x])[|b| - |a|..] == b[|b| - |a|..] + [x];
  }

  /** An operation record with a number above all earlier ones keeps the numbers increasing. */
  lemma IncreasingSnoc(wal: seq<Record>, r: Record)
    requires Increasing(wal) && (r.Entry? ==> forall x :: x in wal && x.Entry? ==> x.num < r.num)
    ensures Increasing(wal + [r])
  {
    var all := wal + [r];
    forall i, j | 0 <= i < j < |all| && all[i].Entry? && all[j].Entry? ensures all[i].num < all[j].num {
      assert all[i] == wal[i] && wal[i] in wal;
      if j < |wal| { assert all[j] == wal[j]; }
    }
  }

  lemma SuffixTransitive<T>(a: seq<T>, b: seq<T>, c: seq<T>)
    requires IsSuffix(a, b) && IsSuffix(b, c)
    ensures IsSuffix(a, c)
  {
    assert c[|c| - |a|..] == c[|c| - |b|..][|b| - |a|..];
  }

  lemma {:induction false} NothingAbove(wal: seq<Record>, min: nat)
    ensures Above(wal, min) == [] <==> forall r :: r in wal ==> r.num <= min
  {
    if wal != [] {
      NothingAbove(wal[1..], min);
      assert forall r :: r in wal <==> r == wal[0] || r in wal[1..];
    }
  }
}
