/** The append-only data file behind a collection: pointers, growth by doubling, batch append. */
module RecordStore {
  import opened Types

  /** `EntryPointer.length` is a 32-bit field. */
  const U32_LIMIT: nat := 0x1_0000_0000

  datatype Pointer = Pointer(offset: nat, length: nat) {
    function End(): nat { offset + length }
  }

  /** The mapped file (its length is the capacity) and the append cursor. */
  datatype Store = Store(data: seq<byte>, cursor: nat)

  type Index = map<Id, Pointer>

  function Read(data: seq<byte>, p: Pointer): (r: Option<seq<byte>>) {
    if p.End() <= |data| then Some(data[p.offset..p.End()]) else None
  }

  function Zeros(n: nat): (r: seq<byte>)
    ensures |r| == n
  {
    seq(n, _ => 0 as byte)
  }

  /** `grow_mmap_if_needed`: twice the required size, never a shrink. */
  function Grow(data: seq<byte>, required: nat): (r: seq<byte>)
    ensures required <= |r| && data <= r
    ensures if required <= |data| then r == data else |r| == 2 * required > 2 * |data|
  {
    if required > |data| then data + Zeros(2 * required - |data|) else data
  }

  /** `ensure_file_size`, run by `open`. */
  function EnsureSize(data: seq<byte>, minimum: nat): (r: seq<byte>)
    ensures data <= r && minimum <= |r|
  {
    if |data| < minimum then data + Zeros(minimum - |data|) else data
  }

  function WriteAt(data: seq<byte>, offset: nat, bytes: seq<byte>): (r: seq<byte>)
    requires offset + |bytes| <= |data|
    ensures |r| == |data|
  {
    data[..offset] + bytes + data[offset + |bytes|..]
  }

  function AppendPointer(s: Store, bytes: seq<byte>): Pointer {
    Pointer(s.cursor, |bytes| % U32_LIMIT)
  }

  function Append(s: Store, bytes: seq<byte>): Store {
    Store(WriteAt(Grow(s.data, s.cursor + |bytes|), s.cursor, bytes), s.cursor + |bytes|)
  }

  function TotalBytes(batch: seq<seq<byte>>): nat {
    if batch == [] then 0 else |batch[0]| + TotalBytes(batch[1..])
  }

  /** Repeated `append`. */
  function AppendEach(s: Store, batch: seq<seq<byte>>): (Store, seq<Pointer>)
    decreases |batch|
  {
    if batch == [] then (s, [])
    else
      var (t, ps) := AppendEach(Append(s, batch[0]), batch[1..]);
      (t, [AppendPointer(s, batch[0])] + ps)
  }

  /** `append_batch` grows once for the whole batch and then writes. */
  function Reserve(s: Store, bytes: nat): Store {
    s.(data := Grow(s.data, s.cursor + bytes))
  }

  /** `next_append_offset`: the largest end of any pointer in the index. */
  ghost function MaxEnd(index: Index): (n: nat)
    ensures forall id :: id in index ==> index[id].End() <= n
    ensures n == 0 || exists id :: id in index && index[id].End() == n
    decreases |index|
  {
    if index == map[] then 0
    else
      var id :| id in index;
      var rest := index - {id};
      var m := MaxEnd(rest);
      assert forall i :: i in index ==> i == id || i in rest;
      if m >= index[id].End() then m else index[id].End()
  }

  lemma MaxEndIs(index: Index, n: nat)
    requires forall id :: id in index ==> index[id].End() <= n
    requires n == 0 || exists id :: id in index && index[id].End() == n
    ensures MaxEnd(index) == n
  {}

  // ----- what the store promises

  /** A record reads back exactly as appended precisely when its length fits the 32-bit field. */
  lemma AppendReadsBack(s: Store, bytes: seq<byte>)
    ensures Read(Append(s, bytes).data, AppendPointer(s, bytes)) == Some(bytes) <==> |bytes| < U32_LIMIT
  {
    var data := Append(s, bytes).data;
    assert data[s.cursor..s.cursor + |bytes|] == bytes;
    if |bytes| >= U32_LIMIT {
      assert |Read(data, AppendPointer(s, bytes)).value| < |bytes|;
    }
  }

  /** Appending never disturbs a pointer that lies below the cursor. */
  lemma AppendKeeps(s: Store, bytes: seq<byte>, p: Pointer)
    requires p.End() <= s.cursor && Read(s.data, p).Some?
    ensures Read(Append(s, bytes).data, p) == Read(s.data, p)
  {
    var data := Append(s, bytes).data;
    assert data[p.offset..p.End()] == s.data[p.offset..p.End()];
  }

  /** Extending the file at its end never disturbs a readable pointer. */
  lemma ExtensionKeeps(data: seq<byte>, data': seq<byte>, p: Pointer)
    requires data <= data' && Read(data, p).Some?
    ensures Read(data', p) == Read(data, p)
  {
    assert data'[p.offset..p.End()] == data[p.offset..p.End()];
  }

  /** Two stores agree when they have the same cursor and the same bytes below it. */
  ghost predicate SameContents(a: Store, b: Store) {
    a.cursor == b.cursor && a.cursor <= |a.data| && a.cursor <= |b.data| && a.data[..a.cursor] == b.data[..b.cursor]
  }

  /** `append_batch` equals repeated `append`: same pointers, same cursor, same bytes. */
  lemma {:induction false} BatchEqualsRepeated(a: Store, b: Store, batch: seq<seq<byte>>)
    requires SameContents(a, b)
    ensures AppendEach(a, batch).1 == AppendEach(b, batch).1
    ensures SameContents(AppendEach(a, batch).0, AppendEach(b, batch).0)
    ensures AppendEach(a, batch).0.cursor == a.cursor + TotalBytes(batch)
    decreases |batch|
  {
    if batch != [] {
      SameAfterAppend(a, b, batch[0]);
      BatchEqualsRepeated(Append(a, batch[0]), Append(b, batch[0]), batch[1..]);
    }
  }

  lemma SameAfterAppend(a: Store, b: Store, bytes: seq<byte>)
    requires SameContents(a, b)
    ensures SameContents(Append(a, bytes), Append(b, bytes)) && AppendPointer(a, bytes) == AppendPointer(b, bytes)
  {
    AppendedContents(a, bytes);
    AppendedContents(b, bytes);
  }

  lemma AppendedContents(s: Store, bytes: seq<byte>)
    requires s.cursor <= |s.data|
    ensures var t := Append(s, bytes);
            t.cursor == s.cursor + |bytes| <= |t.data| && t.data[..t.cursor] == s.data[..s.cursor] + bytes
  {
    var grown := Grow(s.data, s.cursor + |bytes|);
    assert grown[..s.cursor] == s.data[..s.cursor];
  }

  /** After `Reserve`, writing the batch grows the file no further. */
  lemma {:induction false} ReserveSuffices(s: Store, batch: seq<seq<byte>>)
    requires s.cursor + TotalBytes(batch) <= |s.data|
    ensures |AppendEach(s, batch).0.data| == |s.data|
    decreases |batch|
  {
    if batch != [] { ReserveSuffices(Append(s, batch[0]), batch[1..]); }
  }

  // ----- capacity over whole runs

  /** What happens to a data file: appends, batches, reopening, and a batch cut short after its growth. */
  datatype StoreOp =
    | One(bytes: seq<byte>)
    | Many(batch: seq<seq<byte>>)
    | Reopening(index: Index)
    | CutShort(batch: seq<seq<byte>>, index: Index)

  function Max(a: nat, b: nat): nat { if a < b then b else a }

  ghost function Opened(data: seq<byte>, initial: nat, index: Index): Store {
    Store(EnsureSize(data, initial), MaxEnd(index))
  }

  ghost function Do(s: Store, op: StoreOp, initial: nat): Store {
    match op
    case One(bytes) => Append(s, bytes)
    case Many(batch) => AppendEach(Reserve(s, TotalBytes(batch)), batch).0
    case Reopening(index) => Opened(s.data, initial, index)
    case CutShort(batch, index) => Opened(Reserve(s, TotalBytes(batch)).data, initial, index)
  }

  /** The size that the growth of an operation has to make room for. */
  function Asked(s: Store, op: StoreOp): nat {
    match op
    case One(bytes) => s.cursor + |bytes|
    case Many(batch) => s.cursor + TotalBytes(batch)
    case Reopening(_) => 0
    case CutShort(batch, _) => s.cursor + TotalBytes(batch)
  }

  /** A run on a new file. */
  ghost function Ran(ops: seq<StoreOp>, initial: nat): Store {
    if ops == [] then Opened([], initial, map[]) else Do(Ran(ops[..|ops| - 1], initial), ops[|ops| - 1], initial)
  }

  /** The largest cursor reached. */
  ghost function PeakCursor(ops: seq<StoreOp>, initial: nat): nat {
    if ops == [] then 0 else Max(PeakCursor(ops[..|ops| - 1], initial), Ran(ops, initial).cursor)
  }

  /** The largest size asked for. */
  ghost function PeakAsked(ops: seq<StoreOp>, initial: nat): nat {
    if ops == [] then 0
    else Max(PeakAsked(ops[..|ops| - 1], initial), Asked(Ran(ops[..|ops| - 1], initial), ops[|ops| - 1]))
  }

  /** One operation: the cursor ends where the growth asked for, and the file at most twice that. */
  lemma DoStep(s: Store, op: StoreOp, initial: nat)
    ensures var t := Do(s, op, initial);
            && (|t.data| == |s.data| || |t.data| == initial || |t.data| == 2 * Asked(s, op))
            && (op.One? || op.Many? ==> t.cursor == Asked(s, op))
  {
    match op
    case Many(batch) =>
      var r := Reserve(s, TotalBytes(batch));
      ReserveSuffices(r, batch);
      BatchEqualsRepeated(r, r, batch);
    case _ =>
  }

  /** Over any run the capacity stays within max(initial size, twice the largest size asked for). */
  lemma {:induction false} CapacityWithinAsked(ops: seq<StoreOp>, initial: nat)
    ensures |Ran(ops, initial).data| <= Max(initial, 2 * PeakAsked(ops, initial))
  {
    if ops != [] {
      var front := ops[..|ops| - 1];
      CapacityWithinAsked(front, initial);
      DoStep(Ran(front, initial), ops[|ops| - 1], initial);
    }
  }

  /**
   * If no batch is cut short between its growth and its writes, that is max(initial size, twice the largest
   * cursor reached), over any mix of appends, batches and reopenings.
   */
  lemma {:induction false} CapacityOverRuns(ops: seq<StoreOp>, initial: nat)
    requires forall op :: op in ops ==> !op.CutShort?
    ensures PeakAsked(ops, initial) <= PeakCursor(ops, initial)
    ensures |Ran(ops, initial).data| <= Max(initial, 2 * PeakCursor(ops, initial))
  {
    CapacityWithinAsked(ops, initial);
    if ops != [] {
      var front, last := ops[..|ops| - 1], ops[|ops| - 1];
      assert last in ops;
      CapacityOverRuns(front, initial);
      DoStep(Ran(front, initial), last, initial);
    }
  }

  /** The size that the last growth had to make room for, or zero if the file never grew. */
  ghost function Grown(ops: seq<StoreOp>, initial: nat): nat {
    if ops == [] then 0
    else
      var front := ops[..|ops| - 1];
      var asked := Asked(Ran(front, initial), ops[|ops| - 1]);
      if asked > |Ran(front, initial).data| then asked else Grown(front, initial)
  }

  /** The capacity after any run is twice what the last growth asked for. */
  lemma {:induction false} CapacityIs(ops: seq<StoreOp>, initial: nat)
    ensures |Ran(ops, initial).data| == if Grown(ops, initial) == 0 then initial else 2 * Grown(ops, initial)
    ensures |Ran(ops, initial).data| >= initial
  {
    if ops != [] {
      var front, last := ops[..|ops| - 1], ops[|ops| - 1];
      CapacityIs(front, initial);
      GrowsTo(Ran(front, initial), last, initial);
    }
  }

  lemma GrowsTo(s: Store, op: StoreOp, initial: nat)
    requires |s.data| >= initial
    ensures |Do(s, op, initial).data| == if Asked(s, op) > |s.data| then 2 * Asked(s, op) else |s.data|
  {
    if op.Many? { ReserveSuffices(Reserve(s, TotalBytes(op.batch)), op.batch); }
  }

  /** Over any run whatever, the bound by the cursors holds exactly when they reached what the last growth was for. */
  lemma CapacityBoundIff(ops: seq<StoreOp>, initial: nat)
    ensures |Ran(ops, initial).data| <= Max(initial, 2 * PeakCursor(ops, initial)) <==>
            Grown(ops, initial) <= PeakCursor(ops, initial)
  {
    CapacityIs(ops, initial);
    if Grown(ops, initial) > 0 { GrownPastInitial(ops, initial); }
  }

  lemma {:induction false} GrownPastInitial(ops: seq<StoreOp>, initial: nat)
    ensures Grown(ops, initial) > 0 ==> Grown(ops, initial) > initial
  {
    if ops != [] {
      GrownPastInitial(ops[..|ops| - 1], initial);
      CapacityIs(ops[..|ops| - 1], initial);
    }
  }

  /**
   * From a run within the bound, a batch cut short stays within it exactly when it did not have to grow the file or
   * asked for no more than a cursor reached; otherwise the file is twice what it asked for.
   */
  lemma CutShortKeepsIff(ops: seq<StoreOp>, batch: seq<seq<byte>>, index: Index, initial: nat)
    requires |Ran(ops, initial).data| <= Max(initial, 2 * PeakCursor(ops, initial))
    ensures var asked := Asked(Ran(ops, initial), CutShort(batch, index));
            var all := ops + [CutShort(batch, index)];
            && (|Ran(all, initial).data| <= Max(initial, 2 * PeakCursor(all, initial)) <==>
                  asked <= |Ran(ops, initial).data| || asked <= Max(PeakCursor(ops, initial), MaxEnd(index)))
            && (asked > |Ran(ops, initial).data| ==> |Ran(all, initial).data| == 2 * asked)
  {
    var last, all := CutShort(batch, index), ops + [CutShort(batch, index)];
    assert all[..|all| - 1] == ops && all[|all| - 1] == last;
    assert PeakCursor(all, initial) == Max(PeakCursor(ops, initial), MaxEnd(index));
    CapacityBoundIff(ops, initial);
    CapacityBoundIff(all, initial);
    CapacityIs(all, initial);
  }
}
