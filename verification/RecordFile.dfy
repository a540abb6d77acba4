/** The record store and the write-ahead log as the objects the collection mutates. */
module RecordFile {
  import opened Types
  import opened RecordStore

  class RecordFile {
    var data: seq<byte>   // the mapped file
    var cursor: nat

    function View(): Store reads this { Store(data, cursor) }

    /** Opens an existing file: extends it to the initial size and finds the end of the last record. */
    constructor (bytes: seq<byte>, initial: nat, index: Index)
      ensures View() == Store(EnsureSize(bytes, initial), MaxEnd(index))
    {
      var end := NextAppendOffset(index);
      data := EnsureSize(bytes, initial);
      cursor := end;
    }

    static method NextAppendOffset(index: Index) returns (end: nat)
      ensures end == MaxEnd(index)
    {
      end := 0;
      var todo := index.Keys;
      while todo != {}
        invariant todo <= index.Keys
        invariant forall id :: id in index && id !in todo ==> index[id].End() <= end
        invariant end == 0 || exists id :: id in index && index[id].End() == end
        decreases |todo|
      {
        var id :| id in todo;
        todo := todo - {id};
        if index[id].End() > end { end := index[id].End(); }
      }
      MaxEndIs(index, end);
    }

    method GrowIfNeeded(required: nat)
      modifies this
      ensures data == Grow(old(data), required) && cursor == old(cursor)
    {
      if required > |data| {
        data := data + Zeros(2 * required - |data|);
      }
    }

    method Append(bytes: seq<byte>) returns (p: Pointer)
      modifies this
      ensures View() == RecordStore.Append(old(View()), bytes) && p == AppendPointer(old(View()), bytes)
    {
      var offset := cursor;
      var required := offset + |bytes|;
      ghost var was, grown := View(), Grow(data, required);
      GrowIfNeeded(required);
      data := WriteAt(data, offset, bytes);
      cursor := required;
      assert View() == Store(WriteAt(grown, offset, bytes), required) == RecordStore.Append(was, bytes);
      p := Pointer(offset, |bytes| % U32_LIMIT);
    }

    /** One growth for the whole batch, then the writes; `snaps` is the file after each of these. */
    method AppendBatch(batch: seq<seq<byte>>) returns (ps: seq<Pointer>, ghost snaps: seq<seq<byte>>)
      modifies this
      ensures (View(), ps) == AppendEach(Reserve(old(View()), TotalBytes(batch)), batch)
      ensures |snaps| == |batch| + 1
      ensures forall i :: 0 <= i <= |batch| ==>
        snaps[i] == AppendEach(Reserve(old(View()), TotalBytes(batch)), batch[..i]).0.data
    {
      var total := SumBytes(batch);
      GrowIfNeeded(cursor + total);
      ghost var start := View();
      ghost var states := Prefixes(start, batch);
      forall i | 0 <= i < |batch| ensures WrittenInPlace(states[i], states[i + 1], batch[i]) {
        NextInReserve(start, batch, i);
      }
      ps, snaps := WriteRecords(batch, states);
      assert batch[..|batch|] == batch;
    }

    method WriteRecords(batch: seq<seq<byte>>, ghost states: seq<(Store, seq<Pointer>)>)
      returns (ps: seq<Pointer>, ghost snaps: seq<seq<byte>>)
      requires |states| == |batch| + 1 && states[0] == (View(), [])
      requires forall i :: 0 <= i < |batch| ==> WrittenInPlace(states[i], states[i + 1], batch[i])
      modifies this
      ensures (View(), ps) == states[|batch|]
      ensures |snaps| == |batch| + 1 && forall i :: 0 <= i <= |batch| ==> snaps[i] == states[i].0.data
    {
      ps, snaps := [], [data];
      var i := 0;
      while i < |batch|
        invariant 0 <= i <= |batch| && (View(), ps) == states[i]
        invariant |snaps| == i + 1 && forall j :: 0 <= j <= i ==> snaps[j] == states[j].0.data
      {
        assert WrittenInPlace(states[i], states[i + 1], batch[i]);
        var offset := cursor;
        data := WriteAt(data, offset, batch[i]);
        cursor := cursor + |batch[i]|;
        ps := ps + [Pointer(offset, |batch[i]| % U32_LIMIT)];
        snaps := snaps + [data];
        i := i + 1;
      }
    }

    static method SumBytes(batch: seq<seq<byte>>) returns (total: nat)
      ensures total == TotalBytes(batch)
    {
      total := 0;
      assert batch[..0] == [];
      for i := 0 to |batch|
        invariant total == TotalBytes(batch[..i])
      {
        TotalSnoc(batch[..i], batch[i]);
        assert batch[..i + 1] == batch[..i] + [batch[i]];
        total := total + |batch[i]|;
      }
      assert batch[..|batch|] == batch;
    }

    method ReadBytes(p: Pointer) returns (r: Option<seq<byte>>)
      ensures r == Read(data, p)
    {
      if p.offset + p.length <= |data| {
        r := Some(data[p.offset..p.offset + p.length]);
      } else {
        r := None;
      }
    }
  }

  lemma {:induction false} TotalSnoc(batch: seq<seq<byte>>, last: seq<byte>)
    ensures TotalBytes(batch + [last]) == TotalBytes(batch) + |last|
  {
    if batch != [] {
      assert (batch + [last])[1..] == batch[1..] + [last];
      TotalSnoc(batch[1..], last);
    }
  }

  lemma {:induction false} AppendEachSnoc(s: Store, batch: seq<seq<byte>>, last: seq<byte>)
    ensures var (t, ps) := AppendEach(s, batch);
            AppendEach(s, batch + [last]) == (RecordStore.Append(t, last), ps + [AppendPointer(t, last)])
    decreases |batch|
  {
    if batch == [] {
      assert (batch + [last])[1..] == [];
      assert [AppendPointer(s, last)] + [] == [] + [AppendPointer(s, last)];
    } else {
      assert (batch + [last])[1..] == batch[1..] + [last];
      AppendEachSnoc(RecordStore.Append(s, batch[0]), batch[1..], last);
      var (t, ps) := AppendEach(RecordStore.Append(s, batch[0]), batch[1..]);
      var p := [AppendPointer(s, batch[0])];
      assert p + (ps + [AppendPointer(t, last)]) == p + ps + [AppendPointer(t, last)];
    }
  }

  lemma {:induction false} TotalSplit(a: seq<seq<byte>>, b: seq<seq<byte>>)
    ensures TotalBytes(a + b) == TotalBytes(a) + TotalBytes(b)
  {
    if a == [] {
      assert a + b == b;
    } else {
      assert (a + b)[1..] == a[1..] + b;
      TotalSplit(a[1..], b);
    }
  }

  /** The store and pointers after each record of the batch. */
  ghost function Prefixes(start: Store, batch: seq<seq<byte>>): (r: seq<(Store, seq<Pointer>)>)
    ensures |r| == |batch| + 1 && forall i :: 0 <= i <= |batch| ==> r[i] == AppendEach(start, batch[..i])
  {
    seq(|batch| + 1, i requires 0 <= i <= |batch| => AppendEach(start, batch[..i]))
  }

  ghost predicate WrittenInPlace(before: (Store, seq<Pointer>), after: (Store, seq<Pointer>), bytes: seq<byte>) {
    var (t, ps) := before;
    && t.cursor + |bytes| <= |t.data|
    && after == (Store(WriteAt(t.data, t.cursor, bytes), t.cursor + |bytes|), ps + [AppendPointer(t, bytes)])
  }

  lemma FitsInReserve(start: Store, batch: seq<seq<byte>>, i: nat)
    requires i < |batch| && start.cursor + TotalBytes(batch) <= |start.data|
    ensures var t := AppendEach(start, batch[..i]).0; t.cursor + |batch[i]| <= |t.data|
  {
    TotalSplit(batch[..i], batch[i..]);
    assert batch == batch[..i] + batch[i..];
    BatchEqualsRepeated(start, start, batch[..i]);
    ReserveSuffices(start, batch[..i]);
  }

  /** Inside a reserved batch the next record is written in place, without growth. */
  lemma NextInReserve(start: Store, batch: seq<seq<byte>>, i: nat)
    requires i < |batch| && start.cursor + TotalBytes(batch) <= |start.data|
    ensures WrittenInPlace(AppendEach(start, batch[..i]), AppendEach(start, batch[..i + 1]), batch[i])
  {
    var prefix, next, last := batch[..i], batch[..i + 1], batch[i];
    assert next == prefix + [last];
    FitsInReserve(start, batch, i);
    SnocInPlaceAt(start, prefix, last, next);
  }

  lemma SnocInPlaceAt(start: Store, batch: seq<seq<byte>>, last: seq<byte>, next: seq<seq<byte>>)
    requires next == batch + [last]
    requires var t := AppendEach(start, batch).0; t.cursor + |last| <= |t.data|
    ensures WrittenInPlace(AppendEach(start, batch), AppendEach(start, next), last)
  {
    SnocInPlace(start, batch, last);
  }

  lemma SnocInPlace(start: Store, batch: seq<seq<byte>>, last: seq<byte>)
    requires var t := AppendEach(start, batch).0; t.cursor + |last| <= |t.data|
    ensures WrittenInPlace(AppendEach(start, batch), AppendEach(start, batch + [last]), last)
  {
    AppendEachSnoc(start, batch, last);
    AppendInPlace(AppendEach(start, batch).0, last);
  }

  lemma AppendInPlace(t: Store, bytes: seq<byte>)
    requires t.cursor + |bytes| <= |t.data|
    ensures RecordStore.Append(t, bytes) == Store(WriteAt(t.data, t.cursor, bytes), t.cursor + |bytes|)
  {}
}

module WalFile {
  import opened Types
  import opened Log

  class WalFile {
    var records: seq<Record>
    var nextSeq: nat

    constructor (records: seq<Record>, nextSeq: nat)
      ensures this.records == records && this.nextSeq == nextSeq
    {
      this.records, this.nextSeq := records, nextSeq;
    }

    method LogOp(op: Op)
      modifies this
      ensures records == old(records) + [Entry(old(nextSeq), op)] && nextSeq == old(nextSeq) + 1
    {
      records := records + [Entry(nextSeq, op)];
      nextSeq := nextSeq + 1;
    }

    method LogMark()
      modifies this
      ensures records == old(records) + [Mark(old(nextSeq))] && nextSeq == old(nextSeq) + 1
    {
      records := records + [Mark(nextSeq)];
      nextSeq := nextSeq + 1;
    }

    /** The records numbered above `min`, in file order. */
    method Replay(min: nat) returns (entries: seq<Record>)
      ensures entries == Above(records, min)
    {
      entries := [];
      var i := 0;
      while i < |records|
        invariant 0 <= i <= |records|
        invariant entries + Above(records[i..], min) == Above(records, min)
      {
        assert records[i..][1..] == records[i + 1..];
        if records[i].num > min {
          entries := entries + [records[i]];
        }
        i := i + 1;
      }
    }

    method Rotate()
      modifies this
      ensures records == [] && nextSeq == old(nextSeq)
    {
      records := [];
    }
  }
}
