/** Safety of the durable collection over every run, with crashes between any two disk writes. */
module CrashSafety {
  import opened Types
  import opened RecordStore
  import opened Log
  import opened Recovery

  // ----- the invariant

  ghost predicate Readable(cfg: Config, data: seq<byte>, index: Index) {
    forall id :: id in index ==> ReadDoc(cfg, data, index[id]).Some?
  }

  ghost predicate Below(index: Index, cursor: nat) { forall id :: id in index ==> index[id].End() <= cursor }

  /** Records of different ids never overlap. */
  ghost predicate Disjoint(index: Index) {
    forall a, b :: a in index && b in index && a != b ==>
      index[a].End() <= index[b].offset || index[b].End() <= index[a].offset
  }

  ghost predicate SeqOk(wal: seq<Record>, nextSeq: nat) {
    forall r :: r in wal && r.Entry? ==> r.num < nextSeq
  }

  function Current(hist: seq<Op>): Docs { ApplyAll(hist, map[]) }

  ghost predicate DiskOk(cfg: Config, disk: Disk, hist: seq<Op>) {
    && Readable(cfg, disk.data, disk.saved) && Disjoint(disk.saved)
    && Increasing(disk.wal) && IsSuffix(Ops(disk.wal), hist)
    && ApplyAll(Live(disk.wal, disk.ckpt), DocsOf(cfg, disk.data, disk.saved)) == Current(hist)
    && forall op :: op in hist ==> OpFits(cfg, op)
  }

  ghost predicate MemOk(cfg: Config, disk: Disk, mem: Mem) {
    && Readable(cfg, disk.data, mem.index) && Disjoint(mem.index)
    && Below(mem.index, mem.cursor) && Below(disk.saved, mem.cursor)
    && disk.ckpt < mem.nextSeq
  }

  // The documents, the logged operations and two facts after one step: whether every logged number is
  // below the next one (`seqOk`), and whether the saved pointers hold all of `hist` (`saved`).

  function DocsAfter(step: Step, docs: Docs): Docs {
    match step
    case Apply(op) => Log.Apply(docs, op)
    case Write(doc) => docs[doc.id := doc]
    case _ => docs
  }

  function HistAfter(step: Step, hist: seq<Op>): seq<Op> { if step.Log? then hist + [step.op] else hist }

  predicate SeqOkAfter(step: Step, seqOk: bool) { seqOk || step.Rotate? || step.Compact? }

  predicate SavedAfter(step: Step, saved: bool) { !step.Log? && (saved || step.SaveIndex? || step.Compact?) }

  /** When a step may be taken. */
  ghost predicate Allowed(cfg: Config, step: Step, docs: Docs, hist: seq<Op>, seqOk: bool, saved: bool) {
    match step
    case Log(op) => seqOk && OpFits(cfg, op)
    case Apply(op) => OpFits(cfg, op)
    case Write(doc) => cfg.Fits(doc)
    case SaveIndex => docs == Current(hist)
    case SaveSeq => saved
    case Rotate => saved
    case Compact(order) => docs == Current(hist) && Enumerates(order, docs.Keys)
    case RebuildIds => docs == Current(hist)
    case _ => true
  }

  /** The steps still to do are allowed one after the other and end with exactly the logged operations. */
  ghost predicate Safe(cfg: Config, todo: seq<Step>, docs: Docs, hist: seq<Op>, seqOk: bool, saved: bool)
    decreases |todo|
  {
    if todo == [] then seqOk && docs == Current(hist)
    else
      var step := todo[0];
      && Allowed(cfg, step, docs, hist, seqOk, saved)
      && Safe(cfg, todo[1..], DocsAfter(step, docs), HistAfter(step, hist), SeqOkAfter(step, seqOk),
              SavedAfter(step, saved))
  }

  ghost predicate Saved(cfg: Config, core: Core) {
    DocsOf(cfg, core.disk.data, core.disk.saved) == Current(core.hist)
  }

  ghost predicate CoreOk(cfg: Config, core: Core, todo: seq<Step>) {
    && DiskOk(cfg, core.disk, core.hist)
    && MemOk(cfg, core.disk, core.mem)
    && Safe(cfg, todo, CurrentDocs(cfg, core), core.hist, SeqOk(core.disk.wal, core.mem.nextSeq), Saved(cfg, core))
  }

  ghost predicate StateOk(cfg: Config, s: State) {
    match s
    case Up(core, todo) => CoreOk(cfg, core, todo)
    case Down(disk, hist) => DiskOk(cfg, disk, hist)
  }

  // ----- each step keeps it

  lemma {:induction false} SafeMonotone(cfg: Config, todo: seq<Step>, docs: Docs, hist: seq<Op>, a: bool, b: bool,
                                        a': bool, b': bool)
    requires Safe(cfg, todo, docs, hist, a, b) && (a ==> a') && (b ==> b')
    ensures Safe(cfg, todo, docs, hist, a', b')
    decreases |todo|
  {
    if todo != [] {
      var step := todo[0];
      SafeMonotone(cfg, todo[1..], DocsAfter(step, docs), HistAfter(step, hist), SeqOkAfter(step, a),
                   SavedAfter(step, b), SeqOkAfter(step, a'), SavedAfter(step, b'));
    }
  }

  /** Replaying from any number is harmless once the saved pointers hold everything logged. */
  lemma SavedSurvivesAnyNumber(cfg: Config, disk: Disk, hist: seq<Op>, k: nat)
    requires Increasing(disk.wal) && IsSuffix(Ops(disk.wal), hist)
    ensures ApplyAll(Live(disk.wal, k), Current(hist)) == Current(hist)
  {
    LiveIsSuffix(disk.wal, k);
    SuffixTransitive(Live(disk.wal, k), Ops(disk.wal), hist);
    SuffixReplayIsIdempotent(Live(disk.wal, k), hist, map[]);
  }

  /** Growing or appending to the file leaves what pointers below the cursor read. */
  lemma SameReads(cfg: Config, data: seq<byte>, data': seq<byte>, index: Index)
    requires Readable(cfg, data, index)
    requires forall id :: id in index ==> Read(data', index[id]) == Read(data, index[id])
    ensures Readable(cfg, data', index) && DocsOf(cfg, data', index) == DocsOf(cfg, data, index)
  {}

  lemma PutReads(cfg: Config, s: Store, doc: Document)
    requires cfg.Fits(doc)
    ensures var data, p := Append(s, cfg.enc(doc)).data, AppendPointer(s, cfg.enc(doc));
            && ReadDoc(cfg, data, p) == Some(doc) && p == Pointer(s.cursor, |cfg.enc(doc)|)
            && forall q: Pointer :: q.End() <= s.cursor && Read(s.data, q).Some? ==> Read(data, q) == Read(s.data, q)
  {
    var bytes := cfg.enc(doc);
    AppendReadsBack(s, bytes);
    forall q: Pointer | q.End() <= s.cursor && Read(s.data, q).Some?
      ensures Read(Append(s, bytes).data, q) == Read(s.data, q)
    {
      AppendKeeps(s, bytes, q);
    }
  }

  /** Adding one readable pointer adds one document. */
  lemma DocsWith(cfg: Config, data: seq<byte>, index: Index, p: Pointer, doc: Document)
    requires Readable(cfg, data, index) && ReadDoc(cfg, data, p) == Some(doc)
    ensures Readable(cfg, data, index[doc.id := p])
    ensures DocsOf(cfg, data, index[doc.id := p]) == DocsOf(cfg, data, index)[doc.id := doc]
  {}

  lemma PutKeeps(cfg: Config, core: Core, doc: Document)
    requires cfg.Fits(doc)
    requires MemOk(cfg, core.disk, core.mem) && Readable(cfg, core.disk.data, core.disk.saved)
    ensures var c := PutDoc(cfg, core, doc);
            && MemOk(cfg, c.disk, c.mem)
            && CurrentDocs(cfg, c) == CurrentDocs(cfg, core)[doc.id := doc]
            && Readable(cfg, c.disk.data, c.disk.saved)
            && DocsOf(cfg, c.disk.data, c.disk.saved) == DocsOf(cfg, core.disk.data, core.disk.saved)
  {
    var s := Store(core.disk.data, core.mem.cursor);
    var data := PutDoc(cfg, core, doc).disk.data;
    PutReads(cfg, s, doc);
    SameReads(cfg, s.data, data, core.mem.index);
    SameReads(cfg, s.data, data, core.disk.saved);
    DocsWith(cfg, data, core.mem.index, AppendPointer(s, cfg.enc(doc)), doc);
  }

  lemma LogKeeps(cfg: Config, core: Core, op: Op)
    requires DiskOk(cfg, core.disk, core.hist) && SeqOk(core.disk.wal, core.mem.nextSeq) && OpFits(cfg, op)
    requires core.disk.ckpt < core.mem.nextSeq
    ensures var c := Exec(cfg, core, Step.Log(op));
            DiskOk(cfg, c.disk, c.hist) && SeqOk(c.disk.wal, c.mem.nextSeq)
  {
    var wal, hist := core.disk.wal, core.hist;
    var r, live := Entry(core.mem.nextSeq, op), Live(wal, core.disk.ckpt);
    var saved := DocsOf(cfg, core.disk.data, core.disk.saved);
    LogOne(wal, r, core.disk.ckpt);
    IncreasingSnoc(wal, r);
    SuffixSnoc(Ops(wal), hist, op);
    assert ApplyAll(live + [op], saved) == Current(hist + [op]) by {
      ApplySnoc(live, op, saved);
      ApplySnoc(hist, op, map[]);
    }
  }

  lemma MarkKeeps(cfg: Config, core: Core)
    requires DiskOk(cfg, core.disk, core.hist)
    ensures var c := Exec(cfg, core, LogMark);
            && DiskOk(cfg, c.disk, c.hist)
            && (SeqOk(core.disk.wal, core.mem.nextSeq) ==> SeqOk(c.disk.wal, c.mem.nextSeq))
  {
    var wal, r := core.disk.wal, Mark(core.mem.nextSeq);
    IncreasingSnoc(wal, r);
    assert Live(wal + [r], core.disk.ckpt) == Live(wal, core.disk.ckpt) && Ops(wal + [r]) == Ops(wal) by {
      LogOne(wal, r, core.disk.ckpt);
      assert Live(wal, core.disk.ckpt) + [] == Live(wal, core.disk.ckpt) && Ops(wal) + [] == Ops(wal);
    }
  }

  /** Every document is filed under its own id. */
  lemma {:induction false} KeyedByOwnId(ops: seq<Op>, docs: Docs, id: Id)
    requires forall k :: k in docs ==> docs[k].id == k
    requires id in ApplyAll(ops, docs)
    ensures var doc := ApplyAll(ops, docs)[id];
            doc.id == id
              && ((exists op :: op in ops && !op.Delete? && op.doc == doc) || (id in docs && docs[id] == doc))
  {
    if ops != [] {
      KeyedByOwnId(ops[1..], Log.Apply(docs, ops[0]), id);
      assert forall op :: op in ops <==> op == ops[0] || op in ops[1..];
    }
  }

  lemma CurrentFits(cfg: Config, hist: seq<Op>, id: Id)
    requires (forall op :: op in hist ==> OpFits(cfg, op)) && id in Current(hist)
    ensures Current(hist)[id].id == id && cfg.Fits(Current(hist)[id])
  {
    KeyedByOwnId(hist, map[], id);
  }

  // ----- compaction

  ghost predicate CopyOk(cfg: Config, docs: Docs, s: Store, index: Index) {
    && Below(index, s.cursor) && Disjoint(index)
    && forall id :: id in index ==> id in docs && ReadDoc(cfg, s.data, index[id]) == Some(docs[id])
  }

  lemma CopyOne(cfg: Config, docs: Docs, id: Id, s: Store, index: Index)
    requires id in docs && docs[id].id == id && cfg.Fits(docs[id]) && id !in index
    requires CopyOk(cfg, docs, s, index)
    ensures var bytes := cfg.enc(docs[id]);
            CopyOk(cfg, docs, Append(s, bytes), index[id := AppendPointer(s, bytes)])
  {
    PutReads(cfg, s, docs[id]);
  }

  function RecordBytes(cfg: Config, docs: Docs, order: seq<Id>): nat {
    if order == [] then 0
    else (if order[0] in docs then |cfg.enc(docs[order[0]])| else 0) + RecordBytes(cfg, docs, order[1..])
  }

  /** Copying the remaining ids gives a store that holds exactly the documents, packed end to end. */
  lemma {:induction false} CopyHolds(cfg: Config, docs: Docs, order: seq<Id>, s: Store, index: Index)
    requires forall id :: id in docs ==> docs[id].id == id && cfg.Fits(docs[id])
    requires Distinct(order) && (forall id :: id in order ==> id in docs && id !in index)
    requires CopyOk(cfg, docs, s, index)
    ensures var (t, index') := CopyInto(cfg, docs, order, s, index);
            && CopyOk(cfg, docs, t, index')
            && (forall id :: id in index' <==> id in index || id in order)
            && t.cursor == s.cursor + RecordBytes(cfg, docs, order)
    decreases |order|
  {
    if order != [] {
      var id, bytes := order[0], cfg.enc(docs[order[0]]);
      CopyOne(cfg, docs, id, s, index);
      assert forall i :: i in order <==> i == id || i in order[1..];
      CopyHolds(cfg, docs, order[1..], Append(s, bytes), index[id := AppendPointer(s, bytes)]);
    }
  }

  ghost predicate EndsAt(index: Index, cursor: nat) {
    cursor == 0 || exists id :: id in index && index[id].End() == cursor
  }

  lemma AppendedEnds(cfg: Config, doc: Document, s: Store, index: Index)
    requires cfg.Fits(doc)
    ensures EndsAt(index[doc.id := AppendPointer(s, cfg.enc(doc))], Append(s, cfg.enc(doc)).cursor)
  {
    var index' := index[doc.id := AppendPointer(s, cfg.enc(doc))];
    assert doc.id in index' && index'[doc.id].End() == s.cursor + |cfg.enc(doc)|;
  }

  /** The largest end in a packed store that starts at zero is its cursor. */
  lemma {:induction false} CopyEndsAtCursor(cfg: Config, docs: Docs, order: seq<Id>, s: Store, index: Index)
    requires forall id :: id in docs ==> cfg.Fits(docs[id])
    requires EndsAt(index, s.cursor)
    ensures var (t, index') := CopyInto(cfg, docs, order, s, index); EndsAt(index', t.cursor)
    decreases |order|
  {
    if order != [] {
      var rest := order[1..];
      if order[0] !in docs {
        CopyEndsAtCursor(cfg, docs, rest, s, index);
      } else {
        var doc := docs[order[0]];
        AppendedEnds(cfg, doc, s, index);
        CopyEndsAtCursor(cfg, docs, rest, Append(s, cfg.enc(doc)), index[doc.id := AppendPointer(s, cfg.enc(doc))]);
      }
    }
  }

  lemma CompactedStore(cfg: Config, docs: Docs, order: seq<Id>)
    requires forall id :: id in docs ==> docs[id].id == id && cfg.Fits(docs[id])
    requires Enumerates(order, docs.Keys)
    ensures var (s, index) := CopyInto(cfg, docs, order, Store(Zeros(cfg.initial), 0), map[]);
            && CopyOk(cfg, docs, s, index) && (forall id :: id in docs ==> id in index)
            && s.cursor == RecordBytes(cfg, docs, order) == MaxEnd(index)
  {
    var empty := Store(Zeros(cfg.initial), 0);
    CopyHolds(cfg, docs, order, empty, map[]);
    CopyEndsAtCursor(cfg, docs, order, empty, map[]);
    var (s, index) := CopyInto(cfg, docs, order, empty, map[]);
    MaxEndIs(index, s.cursor);
    forall id | id in docs ensures id in index { assert id in docs.Keys; }
  }

  /** The compacted file still reads every document after it is reopened. */
  lemma CompactedReads(cfg: Config, docs: Docs, s: Store, index: Index)
    requires CopyOk(cfg, docs, s, index) && forall id :: id in docs ==> id in index
    ensures var data := EnsureSize(s.data, cfg.initial);
            Readable(cfg, data, index) && DocsOf(cfg, data, index) == docs && index.Keys == docs.Keys
  {
    var data := EnsureSize(s.data, cfg.initial);
    forall id | id in index ensures ReadDoc(cfg, data, index[id]) == Some(docs[id]) {
      ExtensionKeeps(s.data, data, index[id]);
    }
  }

  /**
   * Compaction as one step keeps every document, leaves the used bytes equal to the summed record
   * lengths, lists exactly the live ids in the rebuilt vector index, and empties the log soundly.
   */
  lemma CompactKeeps(cfg: Config, core: Core, order: seq<Id>)
    requires DiskOk(cfg, core.disk, core.hist) && MemOk(cfg, core.disk, core.mem)
    requires CurrentDocs(cfg, core) == Current(core.hist)
    requires Enumerates(order, core.mem.index.Keys)
    ensures var c := Compacted(cfg, core, order);
            && CurrentDocs(cfg, c) == CurrentDocs(cfg, core)
            && c.mem.cursor == RecordBytes(cfg, CurrentDocs(cfg, core), order)
            && c.mem.ids == c.mem.index.Keys == core.mem.index.Keys
            && DiskOk(cfg, c.disk, c.hist) && MemOk(cfg, c.disk, c.mem) && Saved(cfg, c) && c.disk.wal == []
  {
    CompactedDocs(cfg, core, order);
    assert Live([], core.disk.ckpt) == [];
  }

  lemma CompactedDocs(cfg: Config, core: Core, order: seq<Id>)
    requires Readable(cfg, core.disk.data, core.mem.index)
    requires CurrentDocs(cfg, core) == Current(core.hist) && forall op :: op in core.hist ==> OpFits(cfg, op)
    requires Enumerates(order, core.mem.index.Keys)
    ensures var c := Compacted(cfg, core, order);
            && CurrentDocs(cfg, c) == CurrentDocs(cfg, core)
            && c.mem.cursor == RecordBytes(cfg, CurrentDocs(cfg, core), order)
            && c.mem.index.Keys == core.mem.index.Keys
            && Readable(cfg, c.disk.data, c.mem.index) && Disjoint(c.mem.index) && Below(c.mem.index, c.mem.cursor)
  {
    var docs := CurrentDocs(cfg, core);
    assert docs.Keys == core.mem.index.Keys;
    forall id | id in docs ensures docs[id].id == id && cfg.Fits(docs[id]) { CurrentFits(cfg, core.hist, id); }
    CompactedStore(cfg, docs, order);
    var (s, index) := CopyInto(cfg, docs, order, Store(Zeros(cfg.initial), 0), map[]);
    CompactedReads(cfg, docs, s, index);
  }
}
